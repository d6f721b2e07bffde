/**
 * wxlog: one comma-separated line per observation, appended to a file
 * named after the local date.  Each missing value writes its comma and
 * then a NUL that the cursor steps over, and the line is printed with
 * "%s", so the printed line ends at the first missing value.
 */
module CsvLog {
  import opened Fmt
  import opened WxTypes

  const Nul: char := '\0'

  /** Text printf makes of a number: no NUL and no comma in it. */
  type Num = s: string | NumberText(s) witness "0"

  lemma NumberNulFree(s: Num)
    ensures Nul !in s && ',' !in s
  {
    forall i | 0 <= i < |s|
      ensures s[i] != Nul && s[i] != ','
    {
      assert IsNumberChar(s[i]);
    }
  }

  /**
   * One stretch of the line buffer: a printed value and its comma, or the
   * comma(s) and NUL written for a missing value.
   */
  datatype Piece = Value(text: Num) | Missing(commas: nat)

  function Commas(n: nat): (s: string)
    ensures |s| == n && forall i :: 0 <= i < n ==> s[i] == ','
  {
    seq(n, _ => ',')
  }

  /** The characters a piece puts in the buffer. */
  function Render(p: Piece): string
  {
    match p
    case Value(t) => t + ","
    case Missing(n) => Commas(n) + [Nul]
  }

  function RenderAll(ps: seq<Piece>): string
  {
    if ps == [] then "" else Render(ps[0]) + RenderAll(ps[1..])
  }

  lemma {:induction false} RenderAllAppend(a: seq<Piece>, b: seq<Piece>)
    ensures RenderAll(a + b) == RenderAll(a) + RenderAll(b)
    decreases |a|
  {
    if a == [] {
      assert a + b == b;
    } else {
      assert (a + b)[1..] == a[1..] + b;
      RenderAllAppend(a[1..], b);
    }
  }

  lemma RenderSnoc(ps: seq<Piece>, p: Piece)
    ensures RenderAll(ps + [p]) == RenderAll(ps) + Render(p)
  {
    RenderAllAppend(ps, [p]);
    assert RenderAll([p]) == Render(p) + RenderAll([]);
  }

  /** What "%s" prints of a buffer: the characters before the first NUL. */
  function UpToNul(s: string): (r: string)
    ensures |r| <= |s| && r == s[..|r|] && Nul !in r
    ensures |r| < |s| ==> s[|r|] == Nul
  {
    if s == [] then []
    else if s[0] == Nul then []
    else [s[0]] + UpToNul(s[1..])
  }

  lemma {:induction false} UpToNulSkips(a: string, b: string)
    requires Nul !in a
    ensures UpToNul(a + b) == a + UpToNul(b)
    decreases |a|
  {
    if a != [] {
      assert (a + b)[1..] == a[1..] + b;
      UpToNulSkips(a[1..], b);
    } else {
      assert a + b == b;
    }
  }

  /**
   * The line a reader sees: the values with their commas, up to and
   * including the commas of the first missing value.
   */
  function Shown(ps: seq<Piece>): string
  {
    if ps == [] then ""
    else match ps[0]
      case Value(t) => t + "," + Shown(ps[1..])
      case Missing(n) => Commas(n)
  }

  /** The NUL of the first missing value ends what "%s" prints. */
  lemma {:induction false} PrintedIsShown(ps: seq<Piece>)
    ensures UpToNul(RenderAll(ps)) == Shown(ps)
    decreases |ps|
  {
    if ps != [] {
      var rest := RenderAll(ps[1..]);
      match ps[0]
      case Value(t) =>
        PrintedIsShown(ps[1..]);
        NumberNulFree(t);
        assert RenderAll(ps) == (t + ",") + rest;
        UpToNulSkips(t + ",", rest);
        assert Shown(ps) == t + "," + Shown(ps[1..]);
      case Missing(n) =>
        assert RenderAll(ps) == Commas(n) + ([Nul] + rest);
        UpToNulSkips(Commas(n), [Nul] + rest);
        assert UpToNul([Nul] + rest) == [];
        assert Shown(ps) == Commas(n);
    }
  }

  /** Nothing after the first missing value reaches the line. */
  lemma {:induction false} ShownStops(ps: seq<Piece>, j: nat)
    requires j < |ps| && ps[j].Missing?
    ensures Shown(ps) == Shown(ps[..j + 1])
    decreases j
  {
    if j > 0 {
      assert ps[1..][j - 1] == ps[j];
      ShownStops(ps[1..], j - 1);
      assert ps[..j + 1][1..] == ps[1..][..j];
    }
  }

  /** A column printed with "%.Nf,": the float member of a wxd_t. */
  function Column(x: Wxd, prec: nat): Piece
  {
    if IsValid(x) then Value(FixedStr(GetFloat(x), prec)) else Missing(1)
  }

  /** Wind speed and direction: the direction is looked at only when the speed is valid. */
  function WindColumns(speed: Wxd, dir: Wxd): seq<Piece>
  {
    if IsValid(speed) then [Value(FixedStr(GetFloat(speed), 0)), Column(dir, 0)] else [Missing(2)]
  }

  /** Solar radiation, printed with "%d," from the integer member. */
  function SolarColumn(x: Wxd): Piece
  {
    if IsValid(x) then Value(IntStr(GetInt(x))) else Missing(1)
  }

  /** "%d,%d,%ld,": the version and the time stamp. */
  function Header(time: int): seq<Piece>
  {
    [Value(IntStr(VersionMaj)), Value(IntStr(VersionMin)), Value(IntStr(time))]
  }

  /** The pieces of the line buffer, in the order wxlog writes them. */
  function Pieces(d: WxDat): seq<Piece>
  {
    Header(d.time) + Measurements(d)
  }

  /** The columns after the header. */
  function Measurements(d: WxDat): seq<Piece>
  {
    [Column(d.barometer, 3)] + WindColumns(d.windspeed, d.winddir)
    + [Column(d.avgwindspeed, 0)] + [Column(d.indoortemp, 1)] + [Column(d.outdoortemp, 1)]
    + [Column(d.outdoordewpoint, 1)] + [Column(d.indoorhum, 0)] + [Column(d.outdoorhum, 0)]
    + [Column(d.rainrate, 2)] + [Column(d.rainday, 2)] + [Column(d.rainmonth, 2)]
    + [Column(d.rainyear, 2)] + [SolarColumn(d.solar)]
  }

  /** The line buffer as wxlog leaves it. */
  function Buffer(d: WxDat): string
  {
    RenderAll(Pieces(d))
  }

  /** What `fprintf(file, "%s\n", str)` appends to the log. */
  function Line(d: WxDat): string
  {
    UpToNul(Buffer(d)) + "\n"
  }

  /** The printed line is the shown part of the pieces: the truncation at the first missing value. */
  lemma LineIsShown(d: WxDat)
    ensures Line(d) == Shown(Pieces(d)) + "\n"
  {
    PrintedIsShown(Pieces(d));
  }

  /** The fourteen measurements wxlog writes. */
  predicate LoggedValid(d: WxDat)
  {
    && IsValid(d.barometer) && IsValid(d.windspeed) && IsValid(d.winddir)
    && IsValid(d.avgwindspeed) && IsValid(d.indoortemp) && IsValid(d.outdoortemp)
    && IsValid(d.outdoordewpoint) && IsValid(d.indoorhum) && IsValid(d.outdoorhum)
    && IsValid(d.rainrate) && IsValid(d.rainday) && IsValid(d.rainmonth)
    && IsValid(d.rainyear) && IsValid(d.solar)
  }

  function Texts(ps: seq<Piece>): (r: seq<string>)
    requires forall i :: 0 <= i < |ps| ==> ps[i].Value?
    ensures |r| == |ps| && forall i :: 0 <= i < |ps| ==> r[i] == ps[i].text
  {
    if ps == [] then [] else [ps[0].text] + Texts(ps[1..])
  }

  lemma ShownCons(t: Num, rest: seq<Piece>)
    ensures Shown([Value(t)] + rest) == t + "," + Shown(rest)
    ensures RenderAll([Value(t)] + rest) == t + "," + RenderAll(rest)
  {
    assert ([Value(t)] + rest)[1..] == rest;
  }

  /** The header shows as "0,5,<time>," in front of whatever follows it. */
  lemma ShownHeader(time: int, rest: seq<Piece>)
    ensures Shown(Header(time) + rest) == "0,5," + IntStr(time) + "," + Shown(rest)
    ensures RenderAll(Header(time) + rest) == "0,5," + IntStr(time) + "," + RenderAll(rest)
  {
    VersionText();
    var x := IntStr(time);
    var t2 := [Value(x)] + rest;
    var t1 := [Value("5")] + t2;
    assert Header(time) + rest == [Value("0")] + t1;
    ShownCons(x, rest);
    ShownCons("5", t2);
    ShownCons("0", t1);
    Joined3(x, Shown(rest));
    Joined3(x, RenderAll(rest));
  }

  lemma Joined3(x: string, tail: string)
    ensures "0" + "," + ("5" + "," + (x + "," + tail)) == "0,5," + x + "," + tail
  {
  }

  /** "%d" of the two version numbers. */
  lemma VersionText()
    ensures IntStr(VersionMaj) == "0" && IntStr(VersionMin) == "5"
  {
  }

  /** Values without commas read back one per field, with an empty field after the last comma. */
  lemma {:induction false} SplitShown(ps: seq<Piece>)
    requires forall i :: 0 <= i < |ps| ==> ps[i].Value?
    ensures Split(Shown(ps), ',') == Texts(ps) + [""]
    decreases |ps|
  {
    if ps != [] {
      assert forall i :: 0 <= i < |ps[1..]| ==> ps[1..][i] == ps[i + 1];
      SplitShown(ps[1..]);
      NumberNulFree(ps[0].text);
      SplitCons(ps[0].text, ',', Shown(ps[1..]));
    }
  }

  predicate Valued(ps: seq<Piece>)
  {
    forall i :: 0 <= i < |ps| ==> ps[i].Value?
  }

  lemma ValuedAppend(a: seq<Piece>, b: seq<Piece>)
    requires Valued(a) && Valued(b)
    ensures Valued(a + b)
  {
    forall i | 0 <= i < |a + b|
      ensures (a + b)[i].Value?
    {
      if i >= |a| {
        assert (a + b)[i] == b[i - |a|];
      }
    }
  }

  lemma ValuedSnoc(a: seq<Piece>, x: Piece)
    requires Valued(a) && x.Value?
    ensures Valued(a + [x])
  {
    assert forall i :: 0 <= i < |a| ==> (a + [x])[i] == a[i];
  }

  /** With all of them valid, the fourteen columns after the header are all values. */
  lemma MeasurementsValued(d: WxDat)
    requires LoggedValid(d)
    ensures |Measurements(d)| == 14 && Valued(Measurements(d))
  {
    var m := [Column(d.barometer, 3)] + WindColumns(d.windspeed, d.winddir);
    assert |m| == 3 && m[0].Value? && m[1].Value? && m[2].Value?;
    ValuedSnoc(m, Column(d.avgwindspeed, 0));
    m := m + [Column(d.avgwindspeed, 0)];
    ValuedSnoc(m, Column(d.indoortemp, 1));
    m := m + [Column(d.indoortemp, 1)];
    ValuedSnoc(m, Column(d.outdoortemp, 1));
    m := m + [Column(d.outdoortemp, 1)];
    ValuedSnoc(m, Column(d.outdoordewpoint, 1));
    m := m + [Column(d.outdoordewpoint, 1)];
    ValuedSnoc(m, Column(d.indoorhum, 0));
    m := m + [Column(d.indoorhum, 0)];
    ValuedSnoc(m, Column(d.outdoorhum, 0));
    m := m + [Column(d.outdoorhum, 0)];
    ValuedSnoc(m, Column(d.rainrate, 2));
    m := m + [Column(d.rainrate, 2)];
    ValuedSnoc(m, Column(d.rainday, 2));
    m := m + [Column(d.rainday, 2)];
    ValuedSnoc(m, Column(d.rainmonth, 2));
    m := m + [Column(d.rainmonth, 2)];
    ValuedSnoc(m, Column(d.rainyear, 2));
    m := m + [Column(d.rainyear, 2)];
    ValuedSnoc(m, SolarColumn(d.solar));
    m := m + [SolarColumn(d.solar)];
    assert m == Measurements(d);
  }

  /**
   * With every measurement valid the line holds seventeen values, each
   * followed by its comma, that read back as the values printed: the two
   * version numbers and the time stamp first.
   */
  lemma AllValidLine(d: WxDat)
    requires LoggedValid(d)
    ensures var ps := Pieces(d);
      && |ps| == 17
      && (forall i :: 0 <= i < 17 ==> ps[i].Value?)
      && Line(d) == Shown(ps) + "\n"
      && Split(Shown(ps), ',') == Texts(ps) + [""]
      && Texts(ps)[..3] == ["0", "5", IntStr(d.time)]
  {
    var ps := Pieces(d);
    MeasurementsValued(d);
    HeaderTexts(d.time, Measurements(d));
    LineIsShown(d);
    SplitShown(ps);
  }

  /** The first three texts of a valued line are the version and the time stamp. */
  lemma HeaderTexts(time: int, rest: seq<Piece>)
    requires Valued(rest)
    ensures Valued(Header(time) + rest)
    ensures Texts(Header(time) + rest)[..3] == ["0", "5", IntStr(time)]
  {
    var h, ps := Header(time), Header(time) + rest;
    ValuedAppend(h, rest);
    VersionText();
    forall i | 0 <= i < 3
      ensures Texts(ps)[i] == h[i].text
    {
      assert ps[i] == h[i];
    }
  }

  /**
   * A missing barometer ends the line after the time stamp, whatever else
   * is valid.
   */
  lemma MissingBarometer(d: WxDat)
    requires !IsValid(d.barometer)
    ensures Line(d) == "0,5," + IntStr(d.time) + ",,\n"
  {
    var m := Measurements(d);
    LineIsShown(d);
    ShownHeader(d.time, m);
    assert m[0] == Missing(1);
  }

  /**
   * A valid barometer followed by a missing wind speed: the line stops
   * after the two commas of the wind columns, so a valid outdoor
   * temperature, say, never reaches the file.
   */
  lemma MissingWindSpeed(d: WxDat)
    requires IsValid(d.barometer) && !IsValid(d.windspeed)
    ensures Line(d) == "0,5," + IntStr(d.time) + "," + FixedStr(GetFloat(d.barometer), 3) + ",,,\n"
  {
    LineIsShown(d);
    ShownHeader(d.time, Measurements(d));
    ShownAfterBarometer(d);
  }

  lemma ShownAfterBarometer(d: WxDat)
    requires IsValid(d.barometer) && !IsValid(d.windspeed)
    ensures Shown(Measurements(d)) == FixedStr(GetFloat(d.barometer), 3) + ",,,"
  {
    var b := FixedStr(GetFloat(d.barometer), 3);
    var m := [Column(d.barometer, 3)] + WindColumns(d.windspeed, d.winddir);
    assert m == [Value(b), Missing(2)] && m[1].Missing?;
    ShownCons(b, [Missing(2)]);
    assert Shown([Missing(2)]) == ",,";
    ShownSnoc(m, Column(d.avgwindspeed, 0));
    m := m + [Column(d.avgwindspeed, 0)];
    ShownSnoc(m, Column(d.indoortemp, 1));
    m := m + [Column(d.indoortemp, 1)];
    ShownSnoc(m, Column(d.outdoortemp, 1));
    m := m + [Column(d.outdoortemp, 1)];
    ShownSnoc(m, Column(d.outdoordewpoint, 1));
    m := m + [Column(d.outdoordewpoint, 1)];
    ShownSnoc(m, Column(d.indoorhum, 0));
    m := m + [Column(d.indoorhum, 0)];
    ShownSnoc(m, Column(d.outdoorhum, 0));
    m := m + [Column(d.outdoorhum, 0)];
    ShownSnoc(m, Column(d.rainrate, 2));
    m := m + [Column(d.rainrate, 2)];
    ShownSnoc(m, Column(d.rainday, 2));
    m := m + [Column(d.rainday, 2)];
    ShownSnoc(m, Column(d.rainmonth, 2));
    m := m + [Column(d.rainmonth, 2)];
    ShownSnoc(m, Column(d.rainyear, 2));
    m := m + [Column(d.rainyear, 2)];
    ShownSnoc(m, SolarColumn(d.solar));
    m := m + [SolarColumn(d.solar)];
  }

  /** Some value is missing: what "%s" shows stops there. */
  predicate Stops(ps: seq<Piece>)
  {
    exists i :: 0 <= i < |ps| && ps[i].Missing?
  }

  /** Once a value is missing, nothing appended after it shows. */
  lemma {:induction false} ShownSnoc(ps: seq<Piece>, p: Piece)
    requires Stops(ps)
    ensures Stops(ps + [p]) && Shown(ps + [p]) == Shown(ps)
    decreases |ps|
  {
    var i :| 0 <= i < |ps| && ps[i].Missing?;
    assert (ps + [p])[i] == ps[i];
    assert (ps + [p])[1..] == ps[1..] + [p];
    if ps[0].Value? {
      assert ps[1..][i - 1].Missing?;
      ShownSnoc(ps[1..], p);
    }
  }

  /** The part of the name strftime makes: "%Y.%m.%d.fwx". */
  function DateName(t: Tm): string
  {
    IntStr(t.year) + "." + PadInt(t.mon, 2) + "." + PadInt(t.mday, 2) + ".fwx"
  }

  /** The log file name wxlog opens: the directory, a slash, and the date name. */
  function LogPath(logdir: string, t: Tm): Option<string>
  {
    match Strftime("/" + DateName(t), 16)
    case Some(name) => Some(logdir + name)
    case None => None
  }

  /**
   * The name as wxlog builds it: copy the directory, point at its end, and
   * test that character for '/'.  The character at the end is the NUL, so
   * the test is always false and a slash is always added.
   */
  method LogFileName(logdir: string, t: Tm) returns (path: Option<string>)
    requires Nul !in logdir
    ensures path == LogPath(logdir, t)
  {
    var str := logdir + [Nul];
    var s := |logdir|;
    var name;
    if str[s] == '/' {
      name := Strftime(DateName(t), 15);
    } else {
      name := Strftime("/" + DateName(t), 16);
    }
    path := if name.Some? then Some(str[..s] + name.value) else None;
  }

  /** A directory given with a trailing slash gets a second one. */
  lemma PathAlwaysAddsSlash(logdir: string, t: Tm)
    requires LogPath(logdir, t).Some?
    ensures LogPath(logdir, t).value == logdir + "/" + DateName(t)
    ensures |logdir| > 0 && logdir[|logdir| - 1] == '/' ==>
      LogPath(logdir, t).value[|logdir| - 1..|logdir| + 1] == "//"
  {
  }

  /** Four-digit years and calendar dates fit: the name is YYYY.MM.DD.fwx, 14 characters. */
  lemma DateNameFits(logdir: string, t: Tm)
    requires 1000 <= t.year <= 9999 && 1 <= t.mon <= 12 && 1 <= t.mday <= 31
    ensures |DateName(t)| == 14
    ensures LogPath(logdir, t).Some?
  {
    DigitsLength(t.year, 4);
    DigitsLength(t.mon, 2);
    DigitsLength(t.mday, 2);
  }

  /** One "%.Nf," column, or the comma and NUL of a missing value. */
  method PutFloat(s: string, ghost pre: string, ghost ps: seq<Piece>, x: Wxd, prec: nat) returns (s': string)
    requires s == pre + RenderAll(ps)
    ensures s' == pre + RenderAll(ps + [Column(x, prec)])
  {
    ghost var c := Column(x, prec);
    RenderSnoc(ps, c);
    if IsValid(x) {
      s' := s + (FixedStr(GetFloat(x), prec) + ",");
    } else {
      s' := s + ("," + [Nul]);
      assert Commas(1) == ",";
    }
    assert s' == s + Render(c);
    Associative(pre, RenderAll(ps), Render(c));
  }

  /** The wind columns: speed and direction, or two commas and a NUL when the speed is missing. */
  method PutWind(s: string, ghost pre: string, ghost ps: seq<Piece>, speed: Wxd, dir: Wxd) returns (s': string)
    requires s == pre + RenderAll(ps)
    ensures s' == pre + RenderAll(ps + WindColumns(speed, dir))
  {
    if IsValid(speed) {
      ghost var v := Value(FixedStr(GetFloat(speed), 0));
      RenderSnoc(ps, v);
      s' := s + (FixedStr(GetFloat(speed), 0) + ",");
      Associative(pre, RenderAll(ps), Render(v));
      s' := PutFloat(s', pre, ps + [v], dir, 0);
      assert ps + [v] + [Column(dir, 0)] == ps + WindColumns(speed, dir);
    } else {
      RenderSnoc(ps, Missing(2));
      s' := s + (",," + [Nul]);
      assert Commas(2) == ",,";
      assert s' == s + Render(Missing(2));
      Associative(pre, RenderAll(ps), Render(Missing(2)));
    }
  }

  /** Solar radiation: "%d," or the comma and NUL of a missing value. */
  method PutSolar(s: string, ghost pre: string, ghost ps: seq<Piece>, x: Wxd) returns (s': string)
    requires s == pre + RenderAll(ps)
    ensures s' == pre + RenderAll(ps + [SolarColumn(x)])
  {
    ghost var c := SolarColumn(x);
    RenderSnoc(ps, c);
    if IsValid(x) {
      s' := s + (IntStr(GetInt(x)) + ",");
    } else {
      s' := s + ("," + [Nul]);
      assert Commas(1) == ",";
    }
    assert s' == s + Render(c);
    Associative(pre, RenderAll(ps), Render(c));
  }

  /** The columns after the header, in the order wxlog writes them. */
  method PutMeasurements(s: string, d: WxDat) returns (s': string)
    ensures s' == s + RenderAll(Measurements(d))
  {
    ghost var ms: seq<Piece> := [];
    s' := PutFloat(s, s, ms, d.barometer, 3);
    ms := ms + [Column(d.barometer, 3)];
    s' := PutWind(s', s, ms, d.windspeed, d.winddir);
    ms := ms + WindColumns(d.windspeed, d.winddir);
    s' := PutFloat(s', s, ms, d.avgwindspeed, 0);
    ms := ms + [Column(d.avgwindspeed, 0)];
    s' := PutFloat(s', s, ms, d.indoortemp, 1);
    ms := ms + [Column(d.indoortemp, 1)];
    s' := PutFloat(s', s, ms, d.outdoortemp, 1);
    ms := ms + [Column(d.outdoortemp, 1)];
    s' := PutFloat(s', s, ms, d.outdoordewpoint, 1);
    ms := ms + [Column(d.outdoordewpoint, 1)];
    s' := PutFloat(s', s, ms, d.indoorhum, 0);
    ms := ms + [Column(d.indoorhum, 0)];
    s' := PutFloat(s', s, ms, d.outdoorhum, 0);
    ms := ms + [Column(d.outdoorhum, 0)];
    s' := PutFloat(s', s, ms, d.rainrate, 2);
    ms := ms + [Column(d.rainrate, 2)];
    s' := PutFloat(s', s, ms, d.rainday, 2);
    ms := ms + [Column(d.rainday, 2)];
    s' := PutFloat(s', s, ms, d.rainmonth, 2);
    ms := ms + [Column(d.rainmonth, 2)];
    s' := PutFloat(s', s, ms, d.rainyear, 2);
    ms := ms + [Column(d.rainyear, 2)];
    s' := PutSolar(s', s, ms, d.solar);
    ms := ms + [SolarColumn(d.solar)];
    assert [] + [Column(d.barometer, 3)] == [Column(d.barometer, 3)];
    assert ms == Measurements(d);
  }

  /**
   * wxlog: build the file name, open it for appending (`opens` says
   * whether fopen succeeds), fill the line buffer column by column and
   * print it up to its first NUL, with a newline.
   */
  method WxLog(logdir: string, d: WxDat, local: Tm, opens: bool)
    returns (path: Option<string>, written: Option<string>)
    requires Nul !in logdir
    ensures path == LogPath(logdir, local)
    ensures written == if opens then Some(Line(d)) else None
  {
    path := LogFileName(logdir, local);
    if !opens {
      return path, None;
    }
    var s := IntStr(VersionMaj) + "," + IntStr(VersionMin) + "," + IntStr(d.time) + ",";
    VersionText();
    assert s == "0,5," + IntStr(d.time) + ",";
    s := PutMeasurements(s, d);
    ShownHeader(d.time, Measurements(d));
    written := Some(UpToNul(s) + "\n");
  }
}
