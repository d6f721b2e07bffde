/**
 * wxsendwu and wxsendaeris: the fetch(1) command line that uploads one
 * observation to Weather Underground or to PWSweather (Aeris), as a query
 * string of key=value parameters joined by '&'.  The command itself is
 * handed to system(3), which the model leaves out: what is modelled is the
 * text.
 */
module Uplink {
  import opened Fmt
  import opened WxTypes

  const FetchCmd: string := "/usr/bin/fetch -q -a -T 3 -o /dev/null '"
  const WuUrl: string := "http://rtupdate.wunderground.com/weatherstation/updateweatherstation.php"
  const AerisUrl: string := "https://www.pwsweather.com/pwsupdate/pwsupdate.php"

  /** One `key=value` parameter of the query string. */
  datatype Param = Param(key: string, value: string)

  function Pair(p: Param): string
  {
    p.key + "=" + p.value
  }

  /** The parameters joined by '&', in order. */
  function Query(ps: seq<Param>): string
    decreases |ps|
  {
    if ps == [] then ""
    else if |ps| == 1 then Pair(ps[0])
    else Query(ps[..|ps| - 1]) + "&" + Pair(ps[|ps| - 1])
  }

  lemma QuerySnoc(ps: seq<Param>, p: Param)
    requires ps != []
    ensures Query(ps + [p]) == Query(ps) + "&" + Pair(p)
  {
    assert (ps + [p])[..|ps|] == ps;
  }

  /** The command line: fetch, the URL, '?', the query, and the closing quote. */
  function Command(url: string, ps: seq<Param>): string
  {
    FetchCmd + url + "?" + Query(ps) + "'"
  }

  /** Length of the key of a `key=value` text: up to the first '='. */
  function KeyLength(s: string): (n: nat)
    ensures n <= |s| && '=' !in s[..n]
    ensures n < |s| ==> s[n] == '='
  {
    if s == [] || s[0] == '=' then 0 else 1 + KeyLength(s[1..])
  }

  /** Reads one parameter back: the key up to the first '=', the value after it. */
  function ParseParam(s: string): Param
  {
    var n := KeyLength(s);
    if n == |s| then Param(s, "") else Param(s[..n], s[n + 1..])
  }

  /** Reads a query string back, the way the receiving server takes it apart. */
  function ParseQuery(s: string): seq<Param>
  {
    if s == "" then []
    else
      var fields := Split(s, '&');
      seq(|fields|, i requires 0 <= i < |fields| => ParseParam(fields[i]))
  }

  /** Keys free of '&' and '=', values free of '&': what a query string can carry unambiguously. */
  predicate CleanParam(p: Param)
  {
    '&' !in p.key && '=' !in p.key && '&' !in p.value
  }

  predicate Clean(ps: seq<Param>)
  {
    forall i :: 0 <= i < |ps| ==> CleanParam(ps[i])
  }

  lemma {:induction false} KeyLengthPair(k: string, v: string)
    requires '=' !in k
    ensures KeyLength(k + "=" + v) == |k|
    decreases |k|
  {
    if k != [] {
      assert (k + "=" + v)[1..] == k[1..] + "=" + v;
      KeyLengthPair(k[1..], v);
    }
  }

  lemma ParsePair(p: Param)
    requires '=' !in p.key
    ensures ParseParam(Pair(p)) == p
  {
    KeyLengthPair(p.key, p.value);
    var s := Pair(p);
    assert s[..|p.key|] == p.key && s[|p.key| + 1..] == p.value;
  }

  /** The pairs of the parameters, one per parameter. */
  function Pairs(ps: seq<Param>): (r: seq<string>)
    ensures |r| == |ps| && forall i :: 0 <= i < |ps| ==> r[i] == Pair(ps[i])
  {
    if ps == [] then [] else Pairs(ps[..|ps| - 1]) + [Pair(ps[|ps| - 1])]
  }

  /** The '&'-separated fields of a query are the parameters' pairs. */
  lemma {:induction false} SplitQuery(ps: seq<Param>)
    requires Clean(ps) && ps != []
    ensures Split(Query(ps), '&') == Pairs(ps)
    decreases |ps|
  {
    var last := ps[|ps| - 1];
    assert '&' !in Pair(last) by {
      assert '&' !in last.key && '&' !in last.value;
    }
    if |ps| == 1 {
      SplitNone(Pair(last), '&');
      assert Pairs(ps[..0]) == [];
    } else {
      var init := ps[..|ps| - 1];
      assert Clean(init) by {
        assert forall i :: 0 <= i < |init| ==> init[i] == ps[i];
      }
      SplitQuery(init);
      SplitSnoc(Query(init), '&', Pair(last));
    }
  }

  /** Nothing is lost in the query string: the server reads back the parameters sent. */
  lemma QueryRoundTrip(ps: seq<Param>)
    requires Clean(ps)
    ensures ParseQuery(Query(ps)) == ps
  {
    if ps != [] {
      SplitQuery(ps);
      assert Query(ps) != "" by {
        if |ps| == 1 {
          assert |Pair(ps[0])| >= 1;
        } else {
          assert |Query(ps)| >= 1 + |Pair(ps[|ps| - 1])|;
        }
      }
      forall i | 0 <= i < |ps|
        ensures ParseParam(Pair(ps[i])) == ps[i]
      {
        ParsePair(ps[i]);
      }
    }
  }

  /** A parameter sent only when `cond` holds. */
  function Opt(cond: bool, p: Param): (r: seq<Param>)
    ensures forall q :: q in r <==> cond && q == p
  {
    if cond then [p] else []
  }

  /** "fwx%20v<maj>.<min>" */
  function Software(): string
  {
    "fwx%20v" + IntStr(VersionMaj) + "." + IntStr(VersionMin)
  }

  /** The ten characters of "%Y-%m-%d", for a four-digit year and a calendar date. */
  function DateText(t: Tm): string
  {
    IntStr(t.year) + "-" + PadInt(t.mon, 2) + "-" + PadInt(t.mday, 2)
  }

  /** "%H%%3A%M%%3A%S": the time of day with URL-escaped colons. */
  function ClockText(t: Tm): string
  {
    PadInt(t.hour, 2) + "%3A" + PadInt(t.min, 2) + "%3A" + PadInt(t.sec, 2)
  }

  /**
   * The UTC time stamp as strftime writes it into 32 bytes, `space` being
   * what stands between the date and the time ("%20" or "+") and "%3A"
   * the colon.  When it does not fit, strftime returns 0, the cursor does
   * not move and the next parameter overwrites whatever it left: the
   * value is then empty.
   */
  function DateUtc(t: Tm, space: string): string
  {
    match Strftime(DateText(t) + space + ClockText(t), 32)
    case Some(x) => x
    case None => ""
  }

  /** A parameter the senders may put: `sent` is the condition its `if` tests. */
  datatype Candidate = Candidate(sent: bool, param: Param)

  /** The parameters of the candidates whose condition holds, in order. */
  function Sent(cs: seq<Candidate>): seq<Param>
    decreases |cs|
  {
    if cs == [] then []
    else Sent(cs[..|cs| - 1]) + Opt(cs[|cs| - 1].sent, cs[|cs| - 1].param)
  }

  predicate DistinctKeys(cs: seq<Candidate>)
  {
    forall i, j :: 0 <= i < j < |cs| ==> cs[i].param.key != cs[j].param.key
  }

  lemma {:induction false} SentFrom(cs: seq<Candidate>, q: Param)
    ensures q in Sent(cs) <==> exists j :: 0 <= j < |cs| && cs[j].sent && cs[j].param == q
    decreases |cs|
  {
    if cs != [] {
      var init := cs[..|cs| - 1];
      SentFrom(init, q);
      if q in Sent(init) {
        var j :| 0 <= j < |init| && init[j].sent && init[j].param == q;
        assert cs[j] == init[j];
      }
      if exists j :: 0 <= j < |cs| && cs[j].sent && cs[j].param == q {
        var j :| 0 <= j < |cs| && cs[j].sent && cs[j].param == q;
        if j < |init| {
          assert init[j] == cs[j];
        }
      }
    }
  }

  /** With distinct keys, a candidate's key is sent exactly when its condition holds, with its value. */
  lemma SentHas(cs: seq<Candidate>, i: int)
    requires DistinctKeys(cs) && 0 <= i < |cs|
    ensures forall v :: Param(cs[i].param.key, v) in Sent(cs) <==> cs[i].sent && v == cs[i].param.value
  {
    forall v
      ensures Param(cs[i].param.key, v) in Sent(cs) <==> cs[i].sent && v == cs[i].param.value
    {
      SentFrom(cs, Param(cs[i].param.key, v));
      if Param(cs[i].param.key, v) in Sent(cs) {
        var j :| 0 <= j < |cs| && cs[j].sent && cs[j].param == Param(cs[i].param.key, v);
        assert j == i;
      }
    }
  }

  /** SentHas for a candidate given by its parts. */
  lemma KeyAt(cs: seq<Candidate>, i: int, cond: bool, key: string, value: string)
    requires DistinctKeys(cs) && 0 <= i < |cs| && cs[i] == Candidate(cond, Param(key, value))
    ensures forall v :: Param(key, v) in Sent(cs) <==> cond && v == value
  {
    SentHas(cs, i);
  }

  /** A "%.Nf" candidate, put only when the measurement is valid. */
  function FloatParam(key: string, x: Wxd, prec: nat): Candidate
  {
    Candidate(IsValid(x), Param(key, FixedStr(GetFloat(x), prec)))
  }

  /** The keys of the readings, in the order both senders put them. */
  function ReadingKey(i: int): string
  {
    match i
    case 0 => "windspeedmph"
    case 1 => "winddir"
    case 2 => "windgustmph"
    case 3 => "windgustdir"
    case 4 => "tempf"
    case 5 => "rainin"
    case 6 => "dailyrainin"
    case 7 => "baromin"
    case 8 => "humidity"
    case 9 => "dewptf"
    case _ => "solarradiation"
  }

  /**
   * Reading `i` that both services may get, in order: wind speed always,
   * its direction only when the wind blows, the gust speed always, the gust
   * direction (Weather Underground only) when there is a gust, and each
   * other measurement only when valid.
   */
  function Reading(d: WxDat, gustDir: bool, i: int): (c: Candidate)
    ensures c.param.key == ReadingKey(i) && NumberText(c.param.value)
  {
    match i
    case 0 => Candidate(true, Param("windspeedmph", IntStr(d.windcur.speed)))
    case 1 => Candidate(d.windcur.speed != 0, Param("winddir", IntStr(d.windcur.direction)))
    case 2 => Candidate(true, Param("windgustmph", IntStr(d.windgust.speed)))
    case 3 => Candidate(gustDir && d.windgust.speed != 0, Param("windgustdir", IntStr(d.windgust.direction)))
    case 4 => FloatParam("tempf", d.outdoortemp, 1)
    case 5 => FloatParam("rainin", d.rainrate, 2)
    case 6 => FloatParam("dailyrainin", d.rainday, 2)
    case 7 => FloatParam("baromin", d.barometer, 3)
    case 8 => FloatParam("humidity", d.outdoorhum, 0)
    case 9 => FloatParam("dewptf", d.outdoordewpoint, 1)
    case _ => Candidate(IsValid(d.solar), Param("solarradiation", IntStr(GetInt(d.solar))))
  }

  const ReadingCount := 11

  function Candidates(d: WxDat, gustDir: bool): (cs: seq<Candidate>)
    ensures |cs| == ReadingCount
  {
    seq(ReadingCount, i requires 0 <= i < ReadingCount => Reading(d, gustDir, i))
  }

  function Readings(d: WxDat, gustDir: bool): seq<Param>
  {
    Sent(Candidates(d, gustDir))
  }

  lemma {:induction false} ReadingKeysDistinct(d: WxDat, gustDir: bool)
    ensures DistinctKeys(Candidates(d, gustDir))
  {
    var cs := Candidates(d, gustDir);
    forall i, j | 0 <= i < j < |cs|
      ensures cs[i].param.key != cs[j].param.key
    {
      ReadingKeysDiffer(i, j);
    }
  }

  /** No two of the eleven keys are alike: length, first and last letter tell them apart. */
  lemma ReadingKeysDiffer(i: int, j: int)
    requires 0 <= i < j < ReadingCount
    ensures ReadingKey(i) != ReadingKey(j)
  {
    var ki, kj := ReadingKey(i), ReadingKey(j);
    if |ki| == |kj| {
      assert ki[0] != kj[0] || ki[|ki| - 1] != kj[|kj| - 1];
    }
  }

  /** The wind parameters: speeds always, a direction only with a nonzero speed. */
  lemma ReadingsWind(d: WxDat, gustDir: bool)
    ensures var ps := Readings(d, gustDir);
      && Param("windspeedmph", IntStr(d.windcur.speed)) in ps
      && Param("windgustmph", IntStr(d.windgust.speed)) in ps
      && (forall v :: Param("winddir", v) in ps <==> d.windcur.speed != 0 && v == IntStr(d.windcur.direction))
      && (forall v :: Param("windgustdir", v) in ps <==>
            gustDir && d.windgust.speed != 0 && v == IntStr(d.windgust.direction))
  {
    var cs := Candidates(d, gustDir);
    ReadingKeysDistinct(d, gustDir);
    KeyAt(cs, 0, true, "windspeedmph", IntStr(d.windcur.speed));
    KeyAt(cs, 1, d.windcur.speed != 0, "winddir", IntStr(d.windcur.direction));
    KeyAt(cs, 2, true, "windgustmph", IntStr(d.windgust.speed));
    KeyAt(cs, 3, gustDir && d.windgust.speed != 0, "windgustdir", IntStr(d.windgust.direction));
  }

  /** Temperature, rain and pressure: each present exactly when valid, with its precision. */
  lemma ReadingsTempRain(d: WxDat, gustDir: bool)
    ensures var ps := Readings(d, gustDir);
      && (forall v :: Param("tempf", v) in ps <==> IsValid(d.outdoortemp) && v == FixedStr(GetFloat(d.outdoortemp), 1))
      && (forall v :: Param("rainin", v) in ps <==> IsValid(d.rainrate) && v == FixedStr(GetFloat(d.rainrate), 2))
      && (forall v :: Param("dailyrainin", v) in ps <==> IsValid(d.rainday) && v == FixedStr(GetFloat(d.rainday), 2))
      && (forall v :: Param("baromin", v) in ps <==> IsValid(d.barometer) && v == FixedStr(GetFloat(d.barometer), 3))
  {
    var cs := Candidates(d, gustDir);
    ReadingKeysDistinct(d, gustDir);
    KeyAt(cs, 4, IsValid(d.outdoortemp), "tempf", FixedStr(GetFloat(d.outdoortemp), 1));
    KeyAt(cs, 5, IsValid(d.rainrate), "rainin", FixedStr(GetFloat(d.rainrate), 2));
    KeyAt(cs, 6, IsValid(d.rainday), "dailyrainin", FixedStr(GetFloat(d.rainday), 2));
    KeyAt(cs, 7, IsValid(d.barometer), "baromin", FixedStr(GetFloat(d.barometer), 3));
  }

  /** Humidity, dew point and solar radiation: each present exactly when valid. */
  lemma ReadingsHumidSolar(d: WxDat, gustDir: bool)
    ensures var ps := Readings(d, gustDir);
      && (forall v :: Param("humidity", v) in ps <==> IsValid(d.outdoorhum) && v == FixedStr(GetFloat(d.outdoorhum), 0))
      && (forall v :: Param("dewptf", v) in ps <==> IsValid(d.outdoordewpoint) && v == FixedStr(GetFloat(d.outdoordewpoint), 1))
      && (forall v :: Param("solarradiation", v) in ps <==> IsValid(d.solar) && v == IntStr(GetInt(d.solar)))
  {
    var cs := Candidates(d, gustDir);
    ReadingKeysDistinct(d, gustDir);
    KeyAt(cs, 8, IsValid(d.outdoorhum), "humidity", FixedStr(GetFloat(d.outdoorhum), 0));
    KeyAt(cs, 9, IsValid(d.outdoordewpoint), "dewptf", FixedStr(GetFloat(d.outdoordewpoint), 1));
    KeyAt(cs, 10, IsValid(d.solar), "solarradiation", IntStr(GetInt(d.solar)));
  }

  /** What Weather Underground gets before the readings. */
  function WuHead(station: string, password: string, interval: int, date: string): seq<Param>
  {
    [Param("action", "updateraw")] + WuRest(station, password, interval, date)
  }

  function WuParams(station: string, password: string, interval: int, d: WxDat, utc: Tm): seq<Param>
  {
    WuHead(station, password, interval, DateUtc(utc, "%20")) + Readings(d, true)
  }

  function AerisParams(station: string, password: string, d: WxDat, utc: Tm): seq<Param>
  {
    AerisHead(station, password, DateUtc(utc, "+")) + Readings(d, false)
    + AerisTrailer()
  }

  /** The command wxsendwu runs; None when no station ID or no password is configured. */
  function WuCommand(station: string, password: string, interval: int, d: WxDat, utc: Tm): (r: Option<string>)
    ensures r.None? <==> station == "" || password == ""
  {
    if station == "" || password == "" then None
    else Some(Command(WuUrl, WuParams(station, password, interval, d, utc)))
  }

  /** The command wxsendaeris runs; None when no station ID or no password is configured. */
  function AerisCommand(station: string, password: string, d: WxDat, utc: Tm): (r: Option<string>)
    ensures r.None? <==> station == "" || password == ""
  {
    if station == "" || password == "" then None
    else Some(Command(AerisUrl, AerisParams(station, password, d, utc)))
  }

  /** Only Weather Underground is told the gust direction, and only when there is a gust. */
  lemma GustDirection(station: string, password: string, interval: int, d: WxDat, utc: Tm)
    ensures forall v :: Param("windgustdir", v) in WuParams(station, password, interval, d, utc) <==>
      d.windgust.speed != 0 && v == IntStr(d.windgust.direction)
    ensures forall v :: Param("windgustdir", v) !in AerisParams(station, password, d, utc)
  {
    ReadingsWind(d, true);
    ReadingsWind(d, false);
    var wu := WuHead(station, password, interval, DateUtc(utc, "%20"));
    var aeris := AerisHead(station, password, DateUtc(utc, "+"));
    LengthRulesOut(wu, "windgustdir");
    LengthRulesOut(aeris, "windgustdir");
    LengthRulesOut(AerisTrailer(), "windgustdir");
    assert AerisParams(station, password, d, utc) == aeris + Readings(d, false) + AerisTrailer();
  }

  /** A key no parameter's key has the length of is not among the parameters. */
  lemma LengthRulesOut(ps: seq<Param>, key: string)
    requires forall i :: 0 <= i < |ps| ==> |ps[i].key| != |key|
    ensures forall v :: Param(key, v) !in ps
  {
  }

  /** A calendar date with a four-digit year takes the ten characters "YYYY-MM-DD". */
  lemma DateTextLength(t: Tm)
    requires 1000 <= t.year <= 9999 && 1 <= t.mon <= 12 && 1 <= t.mday <= 31
    ensures |DateText(t)| == 10
  {
    DigitsLength(t.year, 4);
    DigitsAtLeast(t.year, 3);
    DigitsLength(t.mon, 2);
    DigitsLength(t.mday, 2);
  }

  /** A time of day takes the twelve characters "HH%3AMM%3ASS". */
  lemma ClockTextLength(t: Tm)
    requires 0 <= t.hour <= 23 && 0 <= t.min <= 59 && 0 <= t.sec <= 60
    ensures |ClockText(t)| == 12
  {
    DigitsLength(t.hour, 2);
    DigitsLength(t.min, 2);
    DigitsLength(t.sec, 2);
  }

  /**
   * For a four-digit year and a calendar time the stamp fits, and the two
   * services differ only in the space: "%20" for Weather Underground, "+"
   * for Aeris.
   */
  lemma DateSpaces(t: Tm)
    requires 1000 <= t.year <= 9999 && 1 <= t.mon <= 12 && 1 <= t.mday <= 31
    requires 0 <= t.hour <= 23 && 0 <= t.min <= 59 && 0 <= t.sec <= 60
    ensures DateUtc(t, "%20") == DateText(t) + "%20" + ClockText(t)
    ensures DateUtc(t, "+") == DateText(t) + "+" + ClockText(t)
    ensures |DateUtc(t, "%20")| == 25 && |DateUtc(t, "+")| == 23
  {
    DateTextLength(t);
    ClockTextLength(t);
  }

  /** A number of 10^w or more has more than w digits. */
  lemma {:induction false} DigitsAtLeast(n: nat, w: nat)
    requires n >= Pow10(w)
    ensures |Digits(n)| > w
    decreases w
  {
    if w > 0 {
      DigitsAtLeast(n / 10, w - 1);
      assert Digits(n) == Digits(n / 10) + [DigitChar(n % 10)];
    }
  }

  /** What the sent candidates add to a query that already has a parameter: "&key=value" each. */
  function Tail(cs: seq<Candidate>): string
    decreases |cs|
  {
    if cs == [] then ""
    else
      var c := cs[|cs| - 1];
      Tail(cs[..|cs| - 1]) + (if c.sent then "&" + Pair(c.param) else "")
  }

  lemma {:induction false} QueryTail(ps: seq<Param>, cs: seq<Candidate>)
    requires ps != []
    ensures Query(ps + Sent(cs)) == Query(ps) + Tail(cs)
    decreases |cs|
  {
    if cs != [] {
      var init, c := cs[..|cs| - 1], cs[|cs| - 1];
      QueryTail(ps, init);
      assert Sent(cs) == Sent(init) + Opt(c.sent, c.param);
      if c.sent {
        assert Tail(cs) == Tail(init) + "&" + Pair(c.param);
        assert ps + Sent(cs) == (ps + Sent(init)) + [c.param];
        QuerySnoc(ps + Sent(init), c.param);
        calc {
          Query(ps + Sent(cs));
          Query(ps + Sent(init)) + "&" + Pair(c.param);
          (Query(ps) + Tail(init)) + ("&" + Pair(c.param));
          { Associative(Query(ps), Tail(init), "&" + Pair(c.param)); }
          Query(ps) + Tail(cs);
        }
      } else {
        assert Tail(cs) == Tail(init);
        assert ps + Sent(cs) == ps + Sent(init);
      }
    } else {
      assert ps + Sent(cs) == ps && Query(ps) + Tail(cs) == Query(ps);
    }
  }

  /**
   * One reading's `if` and sprintf: candidate `k` of `cs` is put when its
   * condition holds.
   */
  method PutCandidate(s: string, ghost base: string, ghost cs: seq<Candidate>, ghost k: nat, c: Candidate)
    returns (s': string)
    requires k < |cs| && cs[k] == c && s == base + Tail(cs[..k])
    ensures s' == base + Tail(cs[..k + 1])
  {
    assert cs[..k + 1][..k] == cs[..k] && cs[..k + 1][k] == c;
    if c.sent {
      s' := s + "&" + c.param.key + "=" + c.param.value;
    } else {
      s' := s;
    }
  }

  /** The wind readings, the first four candidates. */
  method PutWind(s: string, ghost cs: seq<Candidate>, d: WxDat, gustDir: bool)
    returns (s': string)
    requires cs == Candidates(d, gustDir)
    ensures s' == s + Tail(cs[..4])
  {
    assert s + Tail(cs[..0]) == s;
    s' := PutCandidate(s, s, cs, 0, Reading(d, gustDir, 0));
    s' := PutCandidate(s', s, cs, 1, Reading(d, gustDir, 1));
    s' := PutCandidate(s', s, cs, 2, Reading(d, gustDir, 2));
    s' := PutCandidate(s', s, cs, 3, Reading(d, gustDir, 3));
  }

  /** Temperature, rain and pressure, candidates 4 to 7. */
  method PutTempRain(s: string, ghost base: string, ghost cs: seq<Candidate>, d: WxDat, gustDir: bool)
    returns (s': string)
    requires cs == Candidates(d, gustDir) && s == base + Tail(cs[..4])
    ensures s' == base + Tail(cs[..8])
  {
    s' := PutCandidate(s, base, cs, 4, Reading(d, gustDir, 4));
    s' := PutCandidate(s', base, cs, 5, Reading(d, gustDir, 5));
    s' := PutCandidate(s', base, cs, 6, Reading(d, gustDir, 6));
    s' := PutCandidate(s', base, cs, 7, Reading(d, gustDir, 7));
  }

  /** Humidity and dew point, candidates 8 and 9; solar radiation follows in PutReadings. */
  method PutHumidDew(s: string, ghost base: string, ghost cs: seq<Candidate>, d: WxDat, gustDir: bool)
    returns (s': string)
    requires cs == Candidates(d, gustDir) && s == base + Tail(cs[..8])
    ensures s' == base + Tail(cs[..10])
  {
    s' := PutCandidate(s, base, cs, 8, Reading(d, gustDir, 8));
    s' := PutCandidate(s', base, cs, 9, Reading(d, gustDir, 9));
  }

  method PutReadings(s: string, d: WxDat, gustDir: bool) returns (s': string)
    ensures s' == s + Tail(Candidates(d, gustDir))
  {
    ghost var cs := Candidates(d, gustDir);
    s' := PutWind(s, cs, d, gustDir);
    s' := PutTempRain(s', s, cs, d, gustDir);
    s' := PutHumidDew(s', s, cs, d, gustDir);
    s' := PutCandidate(s', s, cs, 10, Reading(d, gustDir, 10));
    assert cs[..11] == cs;
  }

  /** Parameters put unconditionally, as candidates whose condition always holds. */
  function Always(ps: seq<Param>): seq<Candidate>
  {
    seq(|ps|, i requires 0 <= i < |ps| => Candidate(true, ps[i]))
  }

  lemma {:induction false} SentAlways(ps: seq<Param>)
    ensures Sent(Always(ps)) == ps
    decreases |ps|
  {
    if ps != [] {
      var init := ps[..|ps| - 1];
      SentAlways(init);
      assert Always(ps)[..|ps| - 1] == Always(init);
    }
  }

  /** An unconditional `s += sprintf(s, "&key=...", ...)`: parameter `k` of `ps`. */
  method PutFixed(s: string, ghost base: string, ghost ps: seq<Param>, ghost k: nat, key: string, value: string)
    returns (s': string)
    requires k < |ps| && ps[k] == Param(key, value) && s == base + Tail(Always(ps)[..k])
    ensures s' == base + Tail(Always(ps)[..k + 1])
  {
    s' := PutCandidate(s, base, Always(ps), k, Candidate(true, Param(key, value)));
  }

  /** The query of a first parameter followed by fixed ones. */
  lemma QueryFixed(first: Param, rest: seq<Param>)
    ensures Query([first] + rest) == Pair(first) + Tail(Always(rest))
  {
    QueryTail([first], Always(rest));
    SentAlways(rest);
  }

  /** A command line that has its first parameter's text and then the fixed ones has their query. */
  lemma QueryAfter(pre: string, first: Param, text: string, rest: seq<Param>)
    requires Pair(first) == text
    ensures (pre + text) + Tail(Always(rest)) == pre + Query([first] + rest)
  {
    QueryFixed(first, rest);
    Associative(pre, text, Tail(Always(rest)));
  }

  /** What wxsendwu puts after "action=updateraw", before the readings. */
  function WuRest(station: string, password: string, interval: int, date: string): seq<Param>
  {
    [Param("realtime", "1"), Param("rtfreq", IntStr(interval)),
     Param("ID", station), Param("PASSWORD", password), Param("dateutc", date),
     Param("softwaretype", Software())]
  }

  /** The fixed part of wxsendwu's query, up to the software type. */
  method PutWuHead(pre: string, station: string, password: string, interval: int, date: string) returns (s: string)
    ensures s == pre + Query(WuHead(station, password, interval, date))
  {
    ghost var rest := WuRest(station, password, interval, date);
    s := pre + "action=updateraw";
    ghost var base := s;
    assert Always(rest)[..0] == [];
    s := PutFixed(s, base, rest, 0, "realtime", "1");
    s := PutFixed(s, base, rest, 1, "rtfreq", IntStr(interval));
    s := PutFixed(s, base, rest, 2, "ID", station);
    s := PutWuLogin(s, base, rest, password, date);
    assert Always(rest)[..6] == Always(rest);
    ActionPair();
    QueryAfter(pre, Param("action", "updateraw"), "action=updateraw", rest);
  }

  lemma ActionPair()
    ensures Pair(Param("action", "updateraw")) == "action=updateraw"
  {
  }

  /** The password, the time stamp and the software type of wxsendwu's query. */
  method PutWuLogin(s: string, ghost base: string, ghost rest: seq<Param>, password: string, date: string)
    returns (s': string)
    requires |rest| == 6 && rest[3..] == [Param("PASSWORD", password), Param("dateutc", date),
                                          Param("softwaretype", Software())]
    requires s == base + Tail(Always(rest)[..3])
    ensures s' == base + Tail(Always(rest)[..6])
  {
    assert rest[3] == rest[3..][0] && rest[4] == rest[3..][1] && rest[5] == rest[3..][2];
    s' := PutFixed(s, base, rest, 3, "PASSWORD", password);
    s' := PutFixed(s', base, rest, 4, "dateutc", date);
    s' := PutFixed(s', base, rest, 5, "softwaretype", Software());
  }

  /**
   * wxsendwu: nothing without a station ID and a password; otherwise the
   * fixed URL and parameters, the time stamp, the readings and the quote.
   */
  method WxSendWu(station: string, password: string, interval: int, d: WxDat, utc: Tm)
    returns (cmd: Option<string>)
    ensures cmd == WuCommand(station, password, interval, d, utc)
  {
    if station == "" || password == "" {
      return None;
    }
    var pre := FetchCmd + WuUrl + "?";
    var date := DateUtc(utc, "%20");
    var s := PutWuHead(pre, station, password, interval, date);
    ghost var head := s;
    s := PutReadings(s, d, true);
    ghost var h, cs := WuHead(station, password, interval, date), Candidates(d, true);
    QueryTail(h, cs);
    assert WuParams(station, password, interval, d, utc) == h + Sent(cs);
    assert s == pre + Query(h + Sent(cs)) by {
      assert s == (pre + Query(h)) + Tail(cs);
      Associative(pre, Query(h), Tail(cs));
    }
    s := s + "'";
    cmd := Some(s);
  }

  /** The last two parameters of wxsendaeris's query. */
  function AerisTrailer(): seq<Param>
  {
    [Param("softwaretype", Software()), Param("action", "updateraw")]
  }

  /** What PWSweather gets before the readings. */
  function AerisHead(station: string, password: string, date: string): seq<Param>
  {
    [Param("ID", station), Param("PASSWORD", password), Param("dateutc", date)]
  }

  /** The station, password and time stamp that start wxsendaeris's query. */
  method PutAerisHead(pre: string, station: string, password: string, date: string) returns (s: string)
    ensures s == pre + Query(AerisHead(station, password, date))
  {
    ghost var rest := [Param("PASSWORD", password), Param("dateutc", date)];
    s := pre + "ID=" + station;
    ghost var base := s;
    assert Always(rest)[..0] == [];
    s := PutFixed(s, base, rest, 0, "PASSWORD", password);
    s := PutFixed(s, base, rest, 1, "dateutc", date);
    assert Always(rest)[..2] == Always(rest);
    assert Pair(Param("ID", station)) == "ID=" + station;
    QueryAfter(pre, Param("ID", station), "ID=" + station, rest);
    assert AerisHead(station, password, date) == [Param("ID", station)] + rest;
  }

  /** The software type and action that end wxsendaeris's query. */
  method PutAerisTrailer(s: string) returns (s': string)
    ensures s' == s + Tail(Always(AerisTrailer()))
  {
    ghost var trailer := AerisTrailer();
    assert Always(trailer)[..0] == [];
    s' := PutFixed(s, s, trailer, 0, "softwaretype", Software());
    s' := PutFixed(s', s, trailer, 1, "action", "updateraw");
    assert Always(trailer)[..2] == Always(trailer);
  }

  /**
   * wxsendaeris: as wxsendwu, but the query starts with the ID, the space
   * in the time stamp is '+', no gust direction is sent, and the software
   * type and action come last.
   */
  method WxSendAeris(station: string, password: string, d: WxDat, utc: Tm)
    returns (cmd: Option<string>)
    ensures cmd == AerisCommand(station, password, d, utc)
  {
    if station == "" || password == "" {
      return None;
    }
    var pre := FetchCmd + AerisUrl + "?";
    var date := DateUtc(utc, "+");
    var s := PutAerisHead(pre, station, password, date);
    ghost var head := AerisHead(station, password, date);
    ghost var cs := Candidates(d, false);
    ghost var before := s;
    s := PutReadings(s, d, false);
    QueryTail(head, cs);
    assert s == pre + Query(head + Sent(cs)) by {
      Associative(pre, Query(head), Tail(cs));
    }
    ghost var trailer := AerisTrailer();
    before := s;
    s := PutAerisTrailer(s);
    QueryTail(head + Sent(cs), Always(trailer));
    SentAlways(trailer);
    assert s == pre + Query(head + Sent(cs) + trailer) by {
      Associative(pre, Query(head + Sent(cs)), Tail(Always(trailer)));
    }
    assert AerisParams(station, password, d, utc) == head + Sent(cs) + trailer;
    s := s + "'";
    cmd := Some(s);
  }

  /** Printed numbers carry no '&'. */
  lemma NumberClean(s: string)
    requires NumberText(s)
    ensures '&' !in s
  {
  }

  lemma {:induction false} SentClean(cs: seq<Candidate>)
    requires forall i :: 0 <= i < |cs| ==> CleanParam(cs[i].param)
    ensures Clean(Sent(cs))
  {
    var ps := Sent(cs);
    forall j | 0 <= j < |ps|
      ensures CleanParam(ps[j])
    {
      SentFrom(cs, ps[j]);
      var i :| 0 <= i < |cs| && cs[i].sent && cs[i].param == ps[j];
    }
  }

  /** The keys of the first six readings are words. */
  lemma WindTempKeysClean(i: int)
    requires 0 <= i < 6
    ensures '&' !in ReadingKey(i) && '=' !in ReadingKey(i)
  {
  }

  /** The keys of the last five readings are words. */
  lemma RainSolarKeysClean(i: int)
    requires 6 <= i
    ensures '&' !in ReadingKey(i) && '=' !in ReadingKey(i)
  {
  }

  lemma ReadingClean(d: WxDat, gustDir: bool, i: int)
    ensures CleanParam(Reading(d, gustDir, i).param)
  {
    if i < 0 {
      RainSolarKeysClean(10);
      assert ReadingKey(i) == ReadingKey(10);
    } else if i < 6 {
      WindTempKeysClean(i);
    } else {
      RainSolarKeysClean(i);
    }
    NumberClean(Reading(d, gustDir, i).param.value);
  }

  /** Every reading is a clean parameter: its key is a word and its value a printed number. */
  lemma ReadingsClean(d: WxDat, gustDir: bool)
    ensures Clean(Readings(d, gustDir))
  {
    var cs := Candidates(d, gustDir);
    forall i | 0 <= i < |cs|
      ensures CleanParam(cs[i].param)
    {
      ReadingClean(d, gustDir, i);
    }
    SentClean(cs);
  }

  /** The time stamp carries no '&' unless its space does. */
  lemma DateClean(t: Tm, space: string)
    requires '&' !in space
    ensures '&' !in DateUtc(t, space)
  {
    NumberClean(IntStr(t.year));
    NumberClean(PadInt(t.mon, 2));
    NumberClean(PadInt(t.mday, 2));
    NumberClean(PadInt(t.hour, 2));
    NumberClean(PadInt(t.min, 2));
    NumberClean(PadInt(t.sec, 2));
  }

  lemma SoftwareClean()
    ensures '&' !in Software()
  {
    NumberClean(IntStr(VersionMaj));
    NumberClean(IntStr(VersionMin));
  }

  /**
   * The server reads back exactly the parameters wxsendwu meant, provided
   * the station ID and password carry no '&' (they go out unescaped).
   */
  lemma WuRoundTrip(station: string, password: string, interval: int, d: WxDat, utc: Tm)
    requires '&' !in station && '&' !in password
    ensures ParseQuery(Query(WuParams(station, password, interval, d, utc))) == WuParams(station, password, interval, d, utc)
  {
    var h := WuHead(station, password, interval, DateUtc(utc, "%20"));
    DateClean(utc, "%20");
    WuHeadClean(station, password, interval, DateUtc(utc, "%20"));
    ReadingsClean(d, true);
    assert Clean(h + Readings(d, true));
    QueryRoundTrip(h + Readings(d, true));
  }

  /** The keys both services get, and the action's value, are words. */
  lemma SharedKeysClean()
    ensures forall k :: k in ["ID", "PASSWORD", "dateutc", "softwaretype", "action"] ==> '&' !in k && '=' !in k
    ensures '&' !in "updateraw"
  {
  }

  lemma WuHeadClean(station: string, password: string, interval: int, date: string)
    requires '&' !in station && '&' !in password && '&' !in date
    ensures Clean(WuHead(station, password, interval, date))
  {
    WuRestClean(station, password, interval, date);
    SharedKeysClean();
    CleanCons(Param("action", "updateraw"), WuRest(station, password, interval, date));
  }

  lemma WuRestClean(station: string, password: string, interval: int, date: string)
    requires '&' !in station && '&' !in password && '&' !in date
    ensures Clean(WuRest(station, password, interval, date))
  {
    var r := WuRest(station, password, interval, date);
    assert CleanParam(r[0]) && CleanParam(r[1]) by {
      NumberClean(IntStr(interval));
    }
    assert CleanParam(r[2]) && CleanParam(r[3]) && CleanParam(r[4]) by {
      SharedKeysClean();
    }
    assert CleanParam(r[5]) by {
      SoftwareClean();
      SharedKeysClean();
    }
  }

  lemma CleanCons(p: Param, ps: seq<Param>)
    requires CleanParam(p) && Clean(ps)
    ensures Clean([p] + ps)
  {
    forall i | 0 <= i < |[p] + ps|
      ensures CleanParam(([p] + ps)[i])
    {
      if i > 0 {
        assert ([p] + ps)[i] == ps[i - 1];
      }
    }
  }

  lemma AerisFixedClean(station: string, password: string, date: string)
    requires '&' !in station && '&' !in password && '&' !in date
    ensures Clean(AerisHead(station, password, date)) && Clean(AerisTrailer())
  {
    SoftwareClean();
    SharedKeysClean();
  }

  /** The same for wxsendaeris. */
  lemma AerisRoundTrip(station: string, password: string, d: WxDat, utc: Tm)
    requires '&' !in station && '&' !in password
    ensures ParseQuery(Query(AerisParams(station, password, d, utc))) == AerisParams(station, password, d, utc)
  {
    var h := AerisHead(station, password, DateUtc(utc, "+"));
    DateClean(utc, "+");
    AerisFixedClean(station, password, DateUtc(utc, "+"));
    ReadingsClean(d, false);
    var ps := h + Readings(d, false) + AerisTrailer();
    assert Clean(ps);
    QueryRoundTrip(ps);
  }
}
