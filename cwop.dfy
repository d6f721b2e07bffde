/**
 * wxsendcwop: the Citizen Weather Observer Program upload.  Once every five
 * minutes at most, fwx connects to an APRS-IS server on port 14580, logs in
 * with "user <call> pass -1 vers fwx <maj>.<min>" and sends one APRS
 * position-with-timestamp weather report (chapters 6 and 12 of the APRS
 * Protocol Reference 1.0): the call sign, the DHM zulu time stamp, the
 * location, then the fixed-width weather fields.
 *
 * Name resolution, the socket calls and the server's replies are not
 * modelled; what they decide is given as a `Net` value.
 */
module Cwop {
  import opened Fmt
  import opened WxTypes

  const Port: int := 14580

  /** Seconds that must pass between two uploads. */
  const Interval: int := 5 * 60

  /**
   * (int)nearbyintf(v * num / den): the value scaled by num/den and
   * rounded to the nearest integer, ties to even, in either direction
   * from zero alike.
   */
  function NearbyInt(v: Fixed, num: nat, den: nat): int
    requires den > 0
  {
    var m: nat := if v.raw < 0 then -v.raw else v.raw;
    var d := Pow10(v.places) * den;
    var q: int := RoundHalfEven(m * num, d);
    if v.raw < 0 then -q else q
  }

  /** The rounded value is within half a unit of the exact one. */
  lemma NearbyIntNearest(v: Fixed, num: nat, den: nat)
    requires den > 0
    ensures var d := Pow10(v.places) * den;
            var r := NearbyInt(v, num, den);
            2 * (r * d - v.raw * num) <= d && 2 * (v.raw * num - r * d) <= d
  {
    var m: nat := if v.raw < 0 then -v.raw else v.raw;
    var k: int := m * num;
    var d := Pow10(v.places) * den;
    var q: int := RoundHalfEven(k, d);
    RoundHalfEvenNearest(k, d);
    if v.raw < 0 {
      assert v.raw * num == 0 - k;
      assert NearbyInt(v, num, den) * d == -(q * d);
    } else {
      assert v.raw * num == k;
      assert NearbyInt(v, num, den) * d == q * d;
    }
  }

  /** "user %s pass -1 vers fwx %d.%d\r\n": the login line; -1 is the receive-only passcode. */
  function Login(user: string): string
  {
    "user " + user + " pass -1 vers fwx " + IntStr(VersionMaj) + "." + IntStr(VersionMin) + "\r\n"
  }

  /**
   * strftime(sp, 32, ">APRS,TCPIP*:@%d%H%M", tm): the path and the DHM
   * time stamp.  When it does not fit strftime writes nothing the cursor
   * keeps, and the location follows the call sign directly.
   */
  function Stamp(t: Tm): string
  {
    match Strftime(">APRS,TCPIP*:@" + PadInt(t.mday, 2) + PadInt(t.hour, 2) + PadInt(t.min, 2), 32)
    case Some(x) => x
    case None => ""
  }

  /** "_%03d/%03dg%03d": wind direction, speed and gust. */
  function WindField(cur: Wind, gust: Wind): string
  {
    "_" + PadInt(cur.direction, 3) + "/" + PadInt(cur.speed, 3) + "g" + PadInt(gust.speed, 3)
  }

  /** "t-%02d" below zero, "t%03d" otherwise: the temperature in degrees F. */
  function TempField(t: int): string
  {
    if t < 0 then "t-" + PadInt(-t, 2) else "t" + PadInt(t, 3)
  }

  /** Rain in the last hour and the last 24 hours, sent as unknown. */
  const RainUnknown: string := "r...p..."

  /** "P%03d": rain since midnight in hundredths of an inch. */
  function RainField(p: int): string
  {
    "P" + PadInt(p, 3)
  }

  /** "h%02d": relative humidity, 100 sent as 00. */
  function HumField(h: int): string
  {
    "h" + PadInt(if h > 99 then 0 else h, 2)
  }

  /** "b%05d": pressure in tenths of a millibar. */
  function BaroField(b: int): string
  {
    "b" + PadInt(b, 5)
  }

  /** "L%03d" up to 999 W/m^2, "l%03d" of the excess over 1000 above. */
  function SolarField(s: int): string
  {
    if s > 999 then "l" + PadInt(s - 1000, 3) else "L" + PadInt(s, 3)
  }

  const SoftwareTag: string := "wfwx\r\n"

  /** The rounded values the report carries: nothing is checked for validity. */
  datatype Report = Report(dir: int, speed: int, gust: int, temp: int, rain: int, hum: int, baro: int, solar: int)

  function Reported(d: WxDat): Report
  {
    Report(d.windcur.direction, d.windcur.speed, d.windgust.speed,
           NearbyInt(GetFloat(d.outdoortemp), 1, 1),
           NearbyInt(GetFloat(d.rainday), 100, 1),
           NearbyInt(GetFloat(d.outdoorhum), 1, 1),
           NearbyInt(GetFloat(d.barometer), 3386389, 10000),
           GetInt(d.solar))
  }

  /** The weather fields of a report, in the order the packet has them. */
  function Weather(r: Report): string
  {
    WindField(Wind(r.speed, r.dir), Wind(r.gust, 0)) + TempField(r.temp) + RainUnknown
    + RainField(r.rain) + HumField(r.hum) + BaroField(r.baro) + SolarField(r.solar)
  }

  /** The whole packet: call sign, stamp, location, weather, software tag. */
  function Packet(user: string, loc: string, d: WxDat, utc: Tm): string
  {
    user + Stamp(utc) + ("z" + loc) + Weather(Reported(d)) + SoftwareTag
  }

  // Reading the fields back, as an APRS receiver does.

  function ReadNumber(s: string): Option<int>
  {
    if s != [] && AllDigits(s) then Some(ParseDigits(s)) else None
  }

  function Negate(o: Option<int>): Option<int>
  {
    match o
    case Some(n) => Some(-n)
    case None => None
  }

  function ReadTemp(f: string): Option<int>
  {
    if |f| != 4 || f[0] != 't' then None
    else if f[1] == '-' then Negate(ReadNumber(f[2..]))
    else ReadNumber(f[1..])
  }

  function ReadSolar(f: string): Option<int>
  {
    if |f| != 4 then None
    else if f[0] == 'L' then ReadNumber(f[1..])
    else if f[0] == 'l' then
      match ReadNumber(f[1..])
      case Some(n) => Some(n + 1000)
      case None => None
    else None
  }

  /** A field of one letter and `w` digits. */
  function ReadTagged(f: string, tag: char, w: nat): Option<int>
  {
    if |f| != w + 1 || f[0] != tag then None else ReadNumber(f[1..])
  }

  /** A value of at most `w` digits prints as exactly `w` digits and reads back. */
  lemma Padded(n: int, w: nat)
    requires 1 <= w && 0 <= n < Pow10(w)
    ensures |PadInt(n, w)| == w && ReadNumber(PadInt(n, w)) == Some(n)
  {
    DigitsLength(n, w);
    PadDecRoundTrip(n, w);
  }

  lemma TaggedRoundTrip(tag: char, n: int, w: nat)
    requires 1 <= w && 0 <= n < Pow10(w)
    ensures ReadTagged([tag] + PadInt(n, w), tag, w) == Some(n)
  {
    Padded(n, w);
    assert ([tag] + PadInt(n, w))[1..] == PadInt(n, w);
  }

  /** Temperatures from -99 to 999 fill four characters and read back. */
  lemma TempRoundTrip(t: int)
    requires -99 <= t <= 999
    ensures |TempField(t)| == 4 && ReadTemp(TempField(t)) == Some(t)
  {
    var f := TempField(t);
    if t < 0 {
      Padded(-t, 2);
      assert f[2..] == PadInt(-t, 2);
    } else {
      Padded(t, 3);
      assert f[1..] == PadInt(t, 3);
      assert f[1] != '-' by {
        assert f[1] == PadInt(t, 3)[0];
      }
    }
  }

  /** Solar radiation from 0 to 1999 W/m^2 fills four characters and reads back. */
  lemma SolarRoundTrip(s: int)
    requires 0 <= s <= 1999
    ensures |SolarField(s)| == 4 && ReadSolar(SolarField(s)) == Some(s)
  {
    var f := SolarField(s);
    if s > 999 {
      Padded(s - 1000, 3);
      assert f[1..] == PadInt(s - 1000, 3);
    } else {
      Padded(s, 3);
      assert f[1..] == PadInt(s, 3);
    }
  }

  /** Any humidity reads back as itself, except 100 and above, which read as 0. */
  lemma HumRoundTrip(h: int)
    requires 0 <= h
    ensures |HumField(h)| == 3 && ReadTagged(HumField(h), 'h', 2) == Some(if h > 99 then 0 else h)
  {
    TaggedRoundTrip('h', if h > 99 then 0 else h, 2);
  }

  /** The wind field "_ddd/sssgGGG" for values up to 999. */
  function ReadWind(f: string): Option<(int, int, int)>
  {
    if |f| != 12 || f[0] != '_' || f[4] != '/' || f[8] != 'g' then None
    else
      match (ReadNumber(f[1..4]), ReadNumber(f[5..8]), ReadNumber(f[9..]))
      case (Some(a), Some(b), Some(c)) => Some((a, b, c))
      case _ => None
  }

  lemma WindRoundTrip(cur: Wind, gust: Wind)
    requires 0 <= cur.direction <= 999 && 0 <= cur.speed <= 999 && 0 <= gust.speed <= 999
    ensures |WindField(cur, gust)| == 12
    ensures ReadWind(WindField(cur, gust)) == Some((cur.direction, cur.speed, gust.speed))
  {
    var a, b, c := PadInt(cur.direction, 3), PadInt(cur.speed, 3), PadInt(gust.speed, 3);
    Padded(cur.direction, 3);
    Padded(cur.speed, 3);
    Padded(gust.speed, 3);
    var f := WindField(cur, gust);
    assert f == "_" + a + "/" + b + "g" + c;
    assert f[1..4] == a && f[5..8] == b && f[9..] == c;
  }

  /** Every value fits its field: what a report must satisfy to be read back whole. */
  predicate InRange(r: Report)
  {
    0 <= r.dir <= 999 && 0 <= r.speed <= 999 && 0 <= r.gust <= 999 && -99 <= r.temp <= 999
    && 0 <= r.rain <= 999 && 0 <= r.hum && 0 <= r.baro <= 99999 && 0 <= r.solar <= 1999
  }

  /** Reads the 41 characters of the weather fields back. */
  function ReadWeather(s: string): Option<Report>
  {
    if |s| != 41 || s[16..24] != RainUnknown then None
    else
      match (ReadWind(s[..12]), ReadTemp(s[12..16]), ReadTagged(s[24..28], 'P', 3),
             ReadTagged(s[28..31], 'h', 2), ReadTagged(s[31..37], 'b', 5), ReadSolar(s[37..]))
      case (Some(w), Some(t), Some(p), Some(h), Some(b), Some(l)) => Some(Report(w.0, w.1, w.2, t, p, h, b, l))
      case _ => None
  }

  /**
   * The weather fields are fixed-width: a report whose values fit reads
   * back as itself, except that a humidity of 100 or more reads as 0.
   */
  lemma WeatherRoundTrip(r: Report)
    requires InRange(r)
    ensures |Weather(r)| == 41
    ensures ReadWeather(Weather(r)) == Some(r.(hum := if r.hum > 99 then 0 else r.hum))
  {
    var w := WindField(Wind(r.speed, r.dir), Wind(r.gust, 0));
    var t, p, h, b, l := TempField(r.temp), RainField(r.rain), HumField(r.hum), BaroField(r.baro), SolarField(r.solar);
    WindRoundTrip(Wind(r.speed, r.dir), Wind(r.gust, 0));
    TempRoundTrip(r.temp);
    TaggedRoundTrip('P', r.rain, 3);
    HumRoundTrip(r.hum);
    TaggedRoundTrip('b', r.baro, 5);
    SolarRoundTrip(r.solar);
    Pieces(w, t, RainUnknown, p, h, b, l);
  }

  /** Cutting seven fields of known widths back out of their concatenation. */
  lemma Pieces(w: string, t: string, u: string, p: string, h: string, b: string, l: string)
    requires |w| == 12 && |t| == 4 && |u| == 8 && |p| == 4 && |h| == 3 && |b| == 6 && |l| == 4
    ensures var s := w + t + u + p + h + b + l;
      |s| == 41 && s[..12] == w && s[12..16] == t && s[16..24] == u
      && s[24..28] == p && s[28..31] == h && s[31..37] == b && s[37..] == l
  {
  }

  /** The packet starts with the call sign and ends with the software tag. */
  lemma PacketFrame(user: string, loc: string, d: WxDat, utc: Tm)
    ensures var pk := Packet(user, loc, d, utc);
      |pk| >= |user| + |SoftwareTag| && pk[..|user|] == user && pk[|pk| - |SoftwareTag|..] == SoftwareTag
  {
  }

  /** For a calendar time, the stamp is the path followed by six digits of day, hour and minute. */
  lemma StampFits(t: Tm)
    requires 1 <= t.mday <= 31 && 0 <= t.hour <= 23 && 0 <= t.min <= 59
    ensures Stamp(t) == ">APRS,TCPIP*:@" + PadInt(t.mday, 2) + PadInt(t.hour, 2) + PadInt(t.min, 2)
    ensures |Stamp(t)| == 20
  {
    Padded(t.mday, 2);
    Padded(t.hour, 2);
    Padded(t.min, 2);
  }

  /** The sprintf calls that write the weather fields, one after the other. */
  method PutWeather(d: WxDat) returns (ws: string)
    ensures ws == Weather(Reported(d))
  {
    ws := WindField(d.windcur, d.windgust);
    var tmp := NearbyInt(GetFloat(d.outdoortemp), 1, 1);
    ws := PutTemp(ws, tmp);
    ws := ws + RainUnknown;
    tmp := NearbyInt(GetFloat(d.rainday), 100, 1);
    ws := ws + ("P" + PadInt(tmp, 3));
    tmp := NearbyInt(GetFloat(d.outdoorhum), 1, 1);
    ws := ws + ("h" + PadInt(if tmp > 99 then 0 else tmp, 2));
    tmp := NearbyInt(GetFloat(d.barometer), 3386389, 10000);
    ws := ws + ("b" + PadInt(tmp, 5));
    tmp := GetInt(d.solar);
    ws := PutSolar(ws, tmp);
  }

  /** The temperature sprintf: its sign decides the format. */
  method PutTemp(ws: string, tmp: int) returns (ws': string)
    ensures ws' == ws + TempField(tmp)
  {
    if tmp < 0 {
      ws' := ws + ("t-" + PadInt(-tmp, 2));
    } else {
      ws' := ws + ("t" + PadInt(tmp, 3));
    }
  }

  /** The solar radiation sprintf: above 999 the excess over 1000 is sent. */
  method PutSolar(ws: string, tmp: int) returns (ws': string)
    ensures ws' == ws + SolarField(tmp)
  {
    if tmp > 999 {
      ws' := ws + ("l" + PadInt(tmp - 1000, 3));
    } else {
      ws' := ws + ("L" + PadInt(tmp, 3));
    }
  }

  /**
   * Building the packet statement by statement: stpcpy of the call sign,
   * strftime of the stamp, the location, the weather fields and the tag.
   */
  method BuildPacket(user: string, loc: string, d: WxDat, utc: Tm) returns (str: string)
    ensures str == Packet(user, loc, d, utc)
  {
    str := user;
    str := str + Stamp(utc);
    str := str + ("z" + loc);
    var ws := PutWeather(d);
    str := str + ws;
    str := str + SoftwareTag;
  }

  /** What the network does for one upload attempt. */
  datatype Net = Net(
    reachable: bool,     // the address resolved, a socket was made and the connection opened
    loginWritten: bool,  // the login line was written
    packetWritten: bool) // the packet was written

  /**
   * One call of wxsendcwop from a state in which the last upload was at
   * `last`: what is written to the server and the new `last`.  Nothing is
   * sent without a server, a call sign and a location, or within five
   * minutes of the last upload; `last` moves only once the packet is out.
   */
  function SendSpec(last: int, svr: string, user: string, loc: string, now: int, d: WxDat, utc: Tm, net: Net)
    : (r: (seq<string>, int))
    ensures r.1 == last || r.1 == now
  {
    if svr == "" || user == "" || loc == "" then ([], last)
    else if now - last < Interval then ([], last)
    else if !net.reachable || !net.loginWritten then ([], last)
    else if !net.packetWritten then ([Login(user)], last)
    else ([Login(user), Packet(user, loc, d, utc)], now)
  }

  /** A packet goes out only with the whole configuration and at least five minutes after the last. */
  lemma SendGuards(last: int, svr: string, user: string, loc: string, now: int, d: WxDat, utc: Tm, net: Net)
    ensures var (out, last') := SendSpec(last, svr, user, loc, now, d, utc, net);
      (out != [] ==> svr != "" && user != "" && loc != "" && now - last >= Interval && out[0] == Login(user))
      && (last' != last ==> last' == now && out == [Login(user), Packet(user, loc, d, utc)])
  {
  }

  /** After an upload at `now`, no call within the next five minutes sends anything. */
  lemma RateLimited(last: int, svr: string, user: string, loc: string, now: int, d: WxDat, utc: Tm, net: Net,
                    later: int, svr2: string, user2: string, loc2: string, d2: WxDat, utc2: Tm, net2: Net)
    requires SendSpec(last, svr, user, loc, now, d, utc, net).1 == now
    requires later < now + Interval
    ensures SendSpec(now, svr2, user2, loc2, later, d2, utc2, net2) == ([], now)
  {
  }

  /** A failed write leaves the time of the last upload alone, so the next call tries again. */
  lemma FailureRetries(last: int, svr: string, user: string, loc: string, now: int, d: WxDat, utc: Tm, net: Net)
    requires svr != "" && user != "" && loc != "" && now - last >= Interval
    requires !net.packetWritten
    ensures SendSpec(last, svr, user, loc, now, d, utc, net).1 == last
  {
  }

  /** The sender and its `static time_t lasthere`. */
  class Sender {
    var lasthere: int

    /** The static starts at zero. */
    constructor()
      ensures lasthere == 0
    {
      lasthere := 0;
    }

    method Send(svr: string, user: string, loc: string, now: int, d: WxDat, utc: Tm, net: Net)
      returns (written: seq<string>)
      modifies this
      ensures (written, lasthere) == SendSpec(old(lasthere), svr, user, loc, now, d, utc, net)
    {
      written := [];
      if svr == "" || user == "" || loc == "" {
        return;
      }
      if now - lasthere < Interval {
        return;
      }
      if !net.reachable {
        return;
      }
      var login := Login(user);
      if !net.loginWritten {
        return;
      }
      written := [login];
      var str := BuildPacket(user, loc, d, utc);
      if !net.packetWritten {
        return;
      }
      written := [login, str];
      lasthere := now;
    }
  }
}
