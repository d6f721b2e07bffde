/**
 * The sample record of fwx.h: the flag-tagged measurement `wxd_t`, the wind
 * observation `wind_t`, the per-cycle record `wxdat_t`, the WXD_* flag bits
 * and the accessor macros.
 *
 * `wxd_t` and `wxdat_t` are plain C structs held by value, so they are
 * datatypes here; the SET macros, which assign one member of such a struct,
 * are functional updates that return the struct with that member replaced.
 */
module WxTypes {
  import opened Fmt

  /** VERSION_MAJ and VERSION_MIN of fwx.c, printed in the log and sent to the uplinks. */
  const VersionMaj: int := 0
  const VersionMin: int := 5

  /** `unsigned int flags` of wxd_t. */
  type Flags = bv32

  const WxdInvalid: Flags := 0x0000   // element has no data
  const WxdValid: Flags := 0x0010     // element has valid data
  const WxdMetric: Flags := 0x0100    // element is in metric units
  const WxdEnglish: Flags := 0x0200   // element is in english units
  const WxdValDecMask: Flags := 0x000f  // number of decimal places the station stores

  /**
   * The union `dat` of wxd_t, restricted to the two members fwx reads:
   * `floatd` (every measurement but solar radiation) and `intd` (solar).
   */
  datatype Dat = Dat(floatd: Fixed, intd: int)

  /** wxd_t: a value, its flags, and its unit label (None is the NULL pointer). */
  datatype Wxd = Wxd(dat: Dat, flags: Flags, units: Option<string>)

  /** wind_t: speed in mph and direction in degrees. */
  datatype Wind = Wind(speed: int, direction: int)

  /**
   * wxdat_t.  The `solar` member is used throughout fwx.c although the
   * struct in fwx.h does not declare it; it is a member here.
   */
  datatype WxDat = WxDat(
    time: int,
    windcur: Wind,
    windavg: Wind,
    windgust: Wind,
    barometer: Wxd,
    windspeed: Wxd,
    winddir: Wxd,
    avgwindspeed: Wxd,
    avgwindspeedinterval: Wxd,
    indoortemp: Wxd,
    outdoortemp: Wxd,
    indoorhum: Wxd,
    outdoorhum: Wxd,
    outdoordewpoint: Wxd,
    rainrate: Wxd,
    rainday: Wxd,
    rainmonth: Wxd,
    rainyear: Wxd,
    solar: Wxd)

  /** The flag-tagged members of wxdat_t, to speak of "every measurement". */
  datatype Field =
    | Barometer | WindSpeed | WindDir | AvgWindSpeed | AvgWindSpeedInterval
    | IndoorTemp | OutdoorTemp | IndoorHum | OutdoorHum | OutdoorDewpoint
    | RainRate | RainDay | RainMonth | RainYear | Solar

  function Measure(d: WxDat, f: Field): Wxd
  {
    match f
    case Barometer => d.barometer
    case WindSpeed => d.windspeed
    case WindDir => d.winddir
    case AvgWindSpeed => d.avgwindspeed
    case AvgWindSpeedInterval => d.avgwindspeedinterval
    case IndoorTemp => d.indoortemp
    case OutdoorTemp => d.outdoortemp
    case IndoorHum => d.indoorhum
    case OutdoorHum => d.outdoorhum
    case OutdoorDewpoint => d.outdoordewpoint
    case RainRate => d.rainrate
    case RainDay => d.rainday
    case RainMonth => d.rainmonth
    case RainYear => d.rainyear
    case Solar => d.solar
  }

  // The accessor macros.

  function GetFlags(x: Wxd): Flags { x.flags }
  function SetFlags(x: Wxd, n: Flags): Wxd { x.(flags := n) }
  function GetFloat(x: Wxd): Fixed { x.dat.floatd }
  function SetFloat(x: Wxd, v: Fixed): Wxd { x.(dat := x.dat.(floatd := v)) }
  function GetInt(x: Wxd): int { x.dat.intd }
  function SetInt(x: Wxd, v: int): Wxd { x.(dat := x.dat.(intd := v)) }
  function GetUnits(x: Wxd): Option<string> { x.units }
  function SetUnits(x: Wxd, s: string): Wxd { x.(units := Some(s)) }

  predicate IsValid(x: Wxd) { x.flags & WxdValid != 0 }
  predicate IsMetric(x: Wxd) { x.flags & WxdMetric != 0 }
  predicate IsEnglish(x: Wxd) { x.flags & WxdEnglish != 0 }

  /** WXD_GVPLACES: the low four bits. */
  function GvPlaces(x: Wxd): Flags { x.flags & WxdValDecMask }

  /** WXD_SVPLACES: clear the low four bits, then or in `n & 0x0f`. */
  function SvPlaces(x: Wxd, n: Flags): (r: Wxd)
    ensures GvPlaces(r) == n & WxdValDecMask
    ensures r.flags & !WxdValDecMask == x.flags & !WxdValDecMask
    ensures IsValid(r) == IsValid(x) && IsMetric(r) == IsMetric(x) && IsEnglish(r) == IsEnglish(x)
    ensures r.dat == x.dat && r.units == x.units
  {
    x.(flags := (x.flags & !WxdValDecMask) | (n & WxdValDecMask))
  }

  /** The four masks never share a bit, so a flag word holds all of them at once. */
  lemma MasksDisjoint()
    ensures WxdValid & WxdMetric == 0 && WxdValid & WxdEnglish == 0
    ensures WxdMetric & WxdEnglish == 0
    ensures WxdValDecMask & (WxdValid | WxdMetric | WxdEnglish) == 0
  {
  }

  /** A flag word built as VALID|unit|places reads back as exactly those parts. */
  lemma ComposedFlags(unit: Flags, places: Flags)
    requires unit == 0 || unit == WxdMetric || unit == WxdEnglish
    requires places <= 0xf
    ensures var x := Wxd(Dat(Zero, 0), WxdValid | unit | places, None);
      && IsValid(x)
      && IsMetric(x) == (unit == WxdMetric)
      && IsEnglish(x) == (unit == WxdEnglish)
      && GvPlaces(x) == places
  {
  }

  /** GETDAT after SETDAT on the same member yields the value, and no other member moves. */
  lemma AccessorsRoundTrip(x: Wxd, f: Fixed, i: int, n: Flags, s: string)
    ensures GetFloat(SetFloat(x, f)) == f && GetInt(SetFloat(x, f)) == GetInt(x)
    ensures GetFlags(SetFloat(x, f)) == GetFlags(x) && GetUnits(SetFloat(x, f)) == GetUnits(x)
    ensures GetInt(SetInt(x, i)) == i && GetFloat(SetInt(x, i)) == GetFloat(x)
    ensures GetFlags(SetInt(x, i)) == GetFlags(x) && GetUnits(SetInt(x, i)) == GetUnits(x)
    ensures GetFlags(SetFlags(x, n)) == n && SetFlags(x, n).dat == x.dat
    ensures GetUnits(SetFlags(x, n)) == GetUnits(x)
    ensures GetUnits(SetUnits(x, s)) == Some(s) && SetUnits(x, s).dat == x.dat
    ensures GetFlags(SetUnits(x, s)) == GetFlags(x)
  {
  }

  /** The all-zero bytes memset leaves in a wxd_t. */
  const ZeroWxd: Wxd := Wxd(Dat(Zero, 0), WxdInvalid, None)

  const Calm: Wind := Wind(0, 0)

  predicate AllInvalid(d: WxDat)
  {
    forall f: Field :: !IsValid(Measure(d, f))
  }

  /**
   * The start of a polling cycle: `memset(&wxdat, 0, ...)` then the time
   * stamp.  Because WXD_INVALID is 0, every measurement starts invalid.
   */
  function NewCycle(time: int): (d: WxDat)
    ensures d.time == time && AllInvalid(d)
    ensures d.windcur == Calm && d.windavg == Calm && d.windgust == Calm
  {
    WxDat(time, Calm, Calm, Calm, ZeroWxd, ZeroWxd, ZeroWxd, ZeroWxd, ZeroWxd,
          ZeroWxd, ZeroWxd, ZeroWxd, ZeroWxd, ZeroWxd, ZeroWxd, ZeroWxd, ZeroWxd,
          ZeroWxd, ZeroWxd)
  }
}
