/**
 * The text-building parts of support.c that touch no device: the device
 * name completion of wxopen and the hex dump of dumpbuf/dumpbyte.
 */
module Dump {
  import opened Fmt

  /** The directory wxopen puts in front of a relative device name. */
  const DevDir: string := "/dev/"

  /**
   * wxopen's name completion: a name starting with '/' is used as it is;
   * anything else, the empty name included (its first char is the NUL), is
   * copied after "/dev/".
   */
  method DeviceName(devname: string) returns (wxdev: string)
    ensures |devname| > 0 && devname[0] == '/' ==> wxdev == devname
    ensures !(|devname| > 0 && devname[0] == '/') ==>
      |wxdev| == |DevDir| + |devname| && wxdev[..5] == DevDir && wxdev[5..] == devname
    ensures |wxdev| > 0 && wxdev[0] == '/'
  {
    if |devname| > 0 && devname[0] == '/' {
      wxdev := devname;
    } else {
      wxdev := DevDir;
      wxdev := wxdev + devname;
    }
  }

  /** LINELEN and CHARLEN: an 80-column line of 5-column byte cells. */
  const LineLen: nat := 80
  const CharLen: nat := 5
  const CellsPerLine: nat := 16

  /** dumpbyte: "0x%02x ". */
  function Cell(c: Byte): (s: string)
    ensures |s| == CharLen && s[0] == '0' && s[1] == 'x' && s[4] == ' '
  {
    "0x" + Hex2(c) + " "
  }

  /** The cells of several bytes side by side. */
  function Cells(q: seq<Byte>): (s: string)
    ensures |s| == CharLen * |q|
  {
    if q == [] then "" else Cell(q[0]) + Cells(q[1..])
  }

  /** The text dumpbuf writes: lines of at most 16 cells, each ended by a newline. */
  function DumpText(p: seq<Byte>): string
    decreases |p|
  {
    if p == [] then ""
    else if |p| <= CellsPerLine then Cells(p) + "\n"
    else Cells(p[..CellsPerLine]) + "\n" + DumpText(p[CellsPerLine..])
  }

  /** The number of lines dumpbuf writes: one per started group of 16 bytes. */
  function LineCount(n: nat): nat
  {
    (n + CellsPerLine - 1) / CellsPerLine
  }

  lemma {:induction false} DumpLength(p: seq<Byte>)
    ensures |DumpText(p)| == CharLen * |p| + LineCount(|p|)
    decreases |p|
  {
    if |p| > CellsPerLine {
      DumpLength(p[CellsPerLine..]);
      assert LineCount(|p|) == 1 + LineCount(|p| - CellsPerLine);
    }
  }

  /** Reads a dump back: skip newlines, and take the two hex digits of each 5-character cell. */
  function Undump(s: string): seq<int>
    decreases |s|
  {
    if |s| == 0 then []
    else if s[0] == '\n' then Undump(s[1..])
    else if |s| < CharLen then []
    else [16 * HexValue(s[2]) + HexValue(s[3])] + Undump(s[CharLen..])
  }

  lemma {:induction false} UndumpCells(q: seq<Byte>, rest: string)
    ensures Undump(Cells(q) + rest) == q + Undump(rest)
    decreases |q|
  {
    if q != [] {
      var t := Cells(q) + rest;
      var c := Cell(q[0]);
      assert t == c + (Cells(q[1..]) + rest);
      assert t[0] == '0' && |t| >= CharLen;
      assert t[2] == c[2] == Hex2(q[0])[0] && t[3] == c[3] == Hex2(q[0])[1];
      assert t[CharLen..] == Cells(q[1..]) + rest;
      Hex2RoundTrip(q[0]);
      assert Undump(t) == [q[0] as int] + Undump(Cells(q[1..]) + rest);
      UndumpCells(q[1..], rest);
      var u := Undump(rest);
      assert q + u == [q[0] as int] + (q[1..] + u) by {
        assert q == [q[0]] + q[1..];
      }
    } else {
      assert Cells(q) + rest == rest;
    }
  }

  /** The dump loses nothing: reading it back gives the bytes dumped. */
  lemma {:induction false} DumpRoundTrip(p: seq<Byte>)
    ensures Undump(DumpText(p)) == p
    decreases |p|
  {
    if p == [] {
    } else if |p| <= CellsPerLine {
      UndumpCells(p, "\n");
      assert Undump("\n") == [];
    } else {
      UndumpLine(p);
      DumpRoundTrip(p[CellsPerLine..]);
      assert p[..CellsPerLine] + p[CellsPerLine..] == p;
    }
  }

  /** A full line reads back as its sixteen bytes, ahead of whatever the later lines hold. */
  lemma UndumpLine(p: seq<Byte>)
    requires |p| > CellsPerLine
    ensures Undump(DumpText(p)) == p[..CellsPerLine] + Undump(DumpText(p[CellsPerLine..]))
  {
    var rest := DumpText(p[CellsPerLine..]);
    assert DumpText(p) == Cells(p[..CellsPerLine]) + ("\n" + rest);
    UndumpCells(p[..CellsPerLine], "\n" + rest);
    UndumpNewline(rest);
  }

  lemma UndumpNewline(rest: string)
    ensures Undump("\n" + rest) == Undump(rest)
  {
    assert ("\n" + rest)[1..] == rest;
  }

  /** Dumping 16 bytes and then more is dumping them all. */
  lemma {:induction false} DumpAppend(a: seq<Byte>, b: seq<Byte>)
    requires |a| % CellsPerLine == 0
    ensures DumpText(a + b) == DumpText(a) + DumpText(b)
    decreases |a|
  {
    if a != [] {
      assert |a| >= CellsPerLine;
      assert (a + b)[..CellsPerLine] == a[..CellsPerLine];
      assert (a + b)[CellsPerLine..] == a[CellsPerLine..] + b;
      DumpAppend(a[CellsPerLine..], b);
      if |a| == CellsPerLine {
        assert a[CellsPerLine..] == [];
        assert a[CellsPerLine..] + b == b;
        if b == [] {
          assert a + b == a;
        }
      }
    } else {
      assert a + b == b;
    }
  }

  lemma {:induction false} CellsAppend(a: seq<Byte>, b: seq<Byte>)
    ensures Cells(a + b) == Cells(a) + Cells(b)
    decreases |a|
  {
    if a != [] {
      assert (a + b)[1..] == a[1..] + b;
      CellsAppend(a[1..], b);
    } else {
      assert a + b == b;
    }
  }

  /** One more cell on the line buffer. */
  lemma CellStep(p: seq<Byte>, start: nat, k: nat)
    requires start <= k < |p|
    ensures Cells(p[start..k]) + Cell(p[k]) == Cells(p[start..k + 1])
  {
    CellsAppend(p[start..k], [p[k]]);
    assert p[start..k] + [p[k]] == p[start..k + 1];
    assert Cells([p[k]]) == Cell(p[k]) + Cells([]);
  }

  /** Putting out a line of one to sixteen cells extends the dump by those bytes. */
  lemma FlushLine(p: seq<Byte>, start: nat, k: nat, lines: nat)
    requires start == CellsPerLine * lines && start < k <= |p| && k - start <= CellsPerLine
    ensures DumpText(p[..start]) + (Cells(p[start..k]) + "\n") == DumpText(p[..k])
  {
    DumpAppend(p[..start], p[start..k]);
    assert p[..start] + p[start..k] == p[..k];
  }

  /**
   * dumpbuf: fill the line buffer cell by cell; after the 16th cell or the
   * last byte, end the line with a newline and put it out.
   */
  method DumpBuf(p: seq<Byte>) returns (out: string)
    ensures out == DumpText(p)
  {
    out := "";
    var buf := "";
    var i := 0;
    var len := |p|;
    var k := 0;
    ghost var start, lines := 0, 0;
    while len > 0
      invariant 0 <= start <= k <= |p| && len == |p| - k && i == k - start
      invariant i < CellsPerLine
      invariant len > 0 ==> start == CellsPerLine * lines
      invariant len == 0 ==> i == 0
      invariant buf == Cells(p[start..k])
      invariant out == DumpText(p[..start])
    {
      len := len - 1;
      CellStep(p, start, k);
      buf := buf + Cell(p[k]);
      k := k + 1;
      i := i + 1;
      if i >= LineLen / CharLen || len == 0 {
        FlushLine(p, start, k, lines);
        out := out + (buf + "\n");
        buf := "";
        i := 0;
        start, lines := k, lines + 1;
      }
    }
    assert p[..k] == p;
  }
}
