/**
 * chkvar: picks the value of one setting out of a line of the
 * configuration file.  A line of interest starts with the setting's name
 * and carries its value after white space, as in "FWXLOGDIR /var/fwx".
 * The value is copied with strncpy into a fixed buffer of `len` bytes and
 * trailing white space, the newline fgets keeps among it, is overwritten
 * with NULs from the end of the buffer backwards.
 */
module Config {
  import opened Fmt

  /** isspace in the C locale. */
  predicate IsSpace(c: char)
  {
    c == ' ' || c == '\t' || c == '\n' || c == '\U{0B}' || c == '\U{0C}' || c == '\r'
  }

  /** What the trim loop overwrites: NUL padding or white space. */
  predicate Blank(c: char)
  {
    c == '\0' || IsSpace(c)
  }

  /** A C string's characters: a NUL would have ended it. */
  predicate CText(s: string)
  {
    '\0' !in s
  }

  function Nuls(n: nat): (r: string)
    ensures |r| == n && forall i :: 0 <= i < n ==> r[i] == '\0'
  {
    if n == 0 then [] else Nuls(n - 1) + ['\0']
  }

  /** strncmp(s, name, strlen(name)) == 0. */
  predicate StartsWith(s: string, name: string)
  {
    |name| <= |s| && s[..|name|] == name
  }

  /** The loop that skips white space. */
  function SkipSpace(s: string): (r: string)
    ensures |r| <= |s|
    ensures r == [] || !IsSpace(r[0])
  {
    if s != [] && IsSpace(s[0]) then SkipSpace(s[1..]) else s
  }

  /** What is left after the white space is the end of the text. */
  lemma {:induction false} SkipSpaceSuffix(s: string)
    ensures SkipSpace(s) == s[|s| - |SkipSpace(s)|..]
  {
    if s != [] && IsSpace(s[0]) {
      SkipSpaceSuffix(s[1..]);
    }
  }

  /** strncpy(dst, s, len): at most `len` characters, NUL-padded to `len`. */
  function Strncpy(s: string, len: nat): (r: string)
    ensures |r| == len
  {
    if |s| >= len then s[..len] else s + Nuls(len - |s|)
  }

  /** The trim loop: blanks come off the end. */
  function TrimEnd(s: string): (r: string)
    ensures |r| <= |s|
    ensures r == [] || !Blank(r[|r| - 1])
  {
    if s != [] && Blank(s[|s| - 1]) then TrimEnd(s[..|s| - 1]) else s
  }

  /** The trimmed text is a prefix, and everything cut off was blank. */
  lemma {:induction false} TrimEndPrefix(s: string)
    ensures TrimEnd(s) == s[..|TrimEnd(s)|]
    ensures forall i :: |TrimEnd(s)| <= i < |s| ==> Blank(s[i])
  {
    if s != [] && Blank(s[|s| - 1]) {
      TrimEndPrefix(s[..|s| - 1]);
    }
  }

  /**
   * chkvar(s, name, dst, len): None where it returns 0, otherwise the
   * value it leaves in dst.
   */
  function ChkVar(s: string, name: string, len: nat): Option<string>
  {
    if !StartsWith(s, name) then None
    else
      var rest := SkipSpace(s[|name|..]);
      if rest == [] then None else Some(TrimEnd(Strncpy(rest, len)))
  }

  /** Nothing is taken unless the line starts with the name and something other than white space follows it. */
  lemma ChkVarNone(s: string, name: string, len: nat)
    ensures ChkVar(s, name, len).None? <==>
      !StartsWith(s, name) || forall i :: |name| <= i < |s| ==> IsSpace(s[i])
  {
    if StartsWith(s, name) {
      SkipSpaceAll(s[|name|..]);
      var t := s[|name|..];
      assert forall i :: |name| <= i < |s| ==> s[i] == t[i - |name|];
    }
  }

  lemma {:induction false} SkipSpaceAll(s: string)
    ensures SkipSpace(s) == [] <==> forall i :: 0 <= i < |s| ==> IsSpace(s[i])
  {
    if s != [] && IsSpace(s[0]) {
      SkipSpaceAll(s[1..]);
      assert forall i :: 1 <= i < |s| ==> s[i] == s[1..][i - 1];
    }
  }

  /**
   * A value taken is not empty, at most `len` long, free of NULs, starts
   * and ends with something other than white space, and is the text that
   * follows the name and its white space.
   */
  lemma ChkVarValue(s: string, name: string, len: nat)
    requires CText(s) && 1 <= len
    requires ChkVar(s, name, len).Some?
    ensures var v := ChkVar(s, name, len).value;
      var rest := SkipSpace(s[|name|..]);
      1 <= |v| <= len && |v| <= |rest| && v == rest[..|v|] && CText(v)
      && !IsSpace(v[0]) && !IsSpace(v[|v| - 1])
  {
    var t := s[|name|..];
    var rest := SkipSpace(t);
    var c := Strncpy(rest, len);
    var v := TrimEnd(c);
    SkipSpaceSuffix(t);
    TrimEndPrefix(c);
    assert rest[0] == s[|name| + |t| - |rest|];
    assert !Blank(c[0]);
    assert v == rest[..|v|];
    forall i | 0 <= i < |v|
      ensures v[i] != '\0'
    {
      assert v[i] == s[|name| + |t| - |rest| + i];
    }
  }

  /** When the value fits, it is everything after the white space, less the trailing white space. */
  lemma ChkVarFits(s: string, name: string, len: nat)
    requires StartsWith(s, name)
    requires var rest := SkipSpace(s[|name|..]); rest != [] && |rest| <= len
    ensures ChkVar(s, name, len) == Some(TrimEnd(SkipSpace(s[|name|..])))
  {
    var rest := SkipSpace(s[|name|..]);
    if |rest| == len {
      assert rest[..len] == rest;
    } else {
      TrimNuls(rest, len - |rest|);
    }
  }

  /** NUL padding comes off again; the text stops at its own last non-blank. */
  lemma {:induction false} TrimNuls(s: string, n: nat)
    ensures TrimEnd(s + Nuls(n)) == TrimEnd(s)
  {
    if n > 0 {
      assert (s + Nuls(n))[..|s + Nuls(n)| - 1] == s + Nuls(n - 1);
      TrimNuls(s, n - 1);
    } else {
      assert s + Nuls(0) == s;
    }
  }

  /** No separator is needed: the name may run straight into the value. */
  lemma NoSeparator(name: string, v: string, len: nat)
    requires v != [] && |v| <= len && CText(v)
    requires forall i :: 0 <= i < |v| ==> !IsSpace(v[i])
    ensures ChkVar(name + v, name, len) == Some(v)
  {
    var s := name + v;
    assert s[..|name|] == name;
    assert s[|name|..] == v;
    assert SkipSpace(v) == v;
    assert v[|v| - 1] in v;
    assert TrimEnd(v) == v;
    if |v| == len {
      assert Strncpy(v, len) == v;
    } else {
      TrimNuls(v, len - |v|);
    }
  }

  /** Ranges of an array that the loops below fill in. */
  predicate AllNul(a: seq<char>, lo: int, hi: int)
    requires 0 <= lo <= hi <= |a|
  {
    forall i :: lo <= i < hi ==> a[i] == '\0'
  }

  /**
   * The routine itself.  `dst` has room for `len` characters; the callers
   * pass one less than the size of their buffer, so the byte at `len`
   * keeps the NUL it already held.
   */
  method Chkvar(s: string, name: string, dst: array<char>, len: nat) returns (found: int)
    requires CText(s) && 1 <= len <= dst.Length
    modifies dst
    ensures found == 0 || found == 1
    ensures found == 0 <==> ChkVar(s, name, len).None?
    ensures found == 0 ==> dst[..] == old(dst[..])
    ensures found == 1 ==> var v := ChkVar(s, name, len).value;
      dst[..len] == v + Nuls(len - |v|) && dst[len..] == old(dst[len..])
  {
    if !StartsWith(s, name) {
      return 0;
    }
    var t := s[|name|..];
    if t == [] {
      return 0;
    }
    var i := SkipLoop(t);
    if i == |t| {
      return 0;
    }
    var rest := t[i..];
    assert ChkVar(s, name, len) == Some(TrimEnd(Strncpy(rest, len)));
    assert rest[0] in s;
    TakeValue(rest, dst, len);
    found := 1;
  }

  /** strncpy and the trim loop: what is left in dst once a value is taken. */
  method TakeValue(rest: string, dst: array<char>, len: nat)
    requires 1 <= len <= dst.Length && rest != [] && !Blank(rest[0])
    modifies dst
    ensures var v := TrimEnd(Strncpy(rest, len));
      dst[..len] == v + Nuls(len - |v|) && dst[len..] == old(dst[len..])
  {
    ghost var c := Strncpy(rest, len);
    CopyInto(rest, dst, len);
    TrimInPlace(dst, len, c);
  }

  /** The loop that steps past white space. */
  method SkipLoop(t: string) returns (i: nat)
    ensures i <= |t| && t[i..] == SkipSpace(t)
  {
    i := 0;
    while i < |t| && IsSpace(t[i])
      invariant i <= |t|
      invariant SkipSpace(t) == SkipSpace(t[i..])
    {
      assert t[i..][1..] == t[i + 1..];
      i := i + 1;
    }
  }

  /** strncpy(dst, rest, len). */
  method CopyInto(rest: string, dst: array<char>, len: nat)
    requires len <= dst.Length
    modifies dst
    ensures dst[..len] == Strncpy(rest, len) && dst[len..] == old(dst[len..])
  {
    for k := 0 to len
      invariant forall j :: 0 <= j < k ==> dst[j] == Strncpy(rest, len)[j]
      invariant dst[len..] == old(dst[len..])
    {
      dst[k] := if k < |rest| then rest[k] else '\0';
    }
  }

  /**
   * The loop from &dst[len-1] backwards that overwrites NULs and white
   * space with NUL; the first character of the copy stops it.
   */
  method TrimInPlace(dst: array<char>, len: nat, ghost c: string)
    requires 1 <= len <= dst.Length && dst[..len] == c && !Blank(c[0])
    modifies dst
    ensures dst[..len] == TrimEnd(c) + Nuls(len - |TrimEnd(c)|)
    ensures dst[len..] == old(dst[len..])
  {
    var p := len - 1;
    assert c[..p + 1] == c;
    while Blank(dst[p])
      invariant 0 <= p < len
      invariant dst[..p + 1] == c[..p + 1]
      invariant AllNul(dst[..], p + 1, len)
      invariant TrimEnd(c) == TrimEnd(c[..p + 1])
      invariant dst[len..] == old(dst[len..])
      decreases p
    {
      assert c[..p + 1][..p] == c[..p];
      dst[p] := '\0';
      p := p - 1;
    }
    assert TrimEnd(c) == dst[..p + 1];
    assert dst[..len] == dst[..p + 1] + Nuls(len - (p + 1));
  }
}
