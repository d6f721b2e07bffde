/**
 * cvtvploop2fwx and the guard and unit branch of wxcalcdewpoint: a LOOP
 * record is read member by member into the flag-tagged fields of the
 * sample.  Every field gets its unit label; a field becomes VALID only when
 * its raw value passes the member's sentinel or range test.
 */
module Decode {
  import opened Fmt
  import opened WxTypes
  import opened Davis
  import opened Gust

  const EightOnes: int := 0xff
  const SixteenOnes: int := 0xffff

  // The tests the decoder applies to each raw member.

  /** Barometer, rain rate, rain day/month/year and solar: the 16-bit sentinel. */
  predicate NotSixteenOnes(v: int) { v != SixteenOnes }

  /** Wind speed and ten-minute average: the 8-bit sentinel. */
  predicate NotEightOnes(v: int) { v != EightOnes }

  /** Humidities: not the sentinel and at most 100 percent. */
  predicate HumidityOk(v: int) { v != EightOnes && v <= 100 }

  /** Wind direction, in the unsigned variable `tmp`: at most 360 degrees. */
  predicate DirectionOk(v: int) { v <= 360 }

  /** Temperatures, in the signed variable `stmp`: not 0x1000 and strictly within +-150.0 degrees F. */
  predicate TemperatureOk(v: int) { v != 0x1000 && -1500 < v < 1500 }

  /**
   * A float member as the decoder leaves it: the unit label always, and
   * when the test passed the value and the flag word.
   */
  function FloatReading(x: Wxd, units: string, ok: bool, v: Fixed, flags: Flags): Wxd
  {
    var u := SetUnits(x, units);
    if ok then SetFlags(SetFloat(u, v), flags) else u
  }

  /** The same for the solar member, whose value goes into the union's `intd`. */
  function IntReading(x: Wxd, units: string, ok: bool, v: int, flags: Flags): Wxd
  {
    var u := SetUnits(x, units);
    if ok then SetFlags(SetInt(u, v), flags) else u
  }

  /** What a reading of a field that was invalid before says afterwards. */
  lemma ReadingRule(x: Wxd, units: string, ok: bool, v: Fixed, unit: Flags, places: Flags)
    requires !IsValid(x)
    requires unit == 0 || unit == WxdMetric || unit == WxdEnglish
    requires places <= 0xf
    ensures var y := FloatReading(x, units, ok, v, WxdValid | unit | places);
      && GetUnits(y) == Some(units)
      && (IsValid(y) <==> ok)
      && (ok ==> GetFloat(y) == v && GvPlaces(y) == places)
      && (ok ==> IsMetric(y) == (unit == WxdMetric) && IsEnglish(y) == (unit == WxdEnglish))
      && (!ok ==> y.dat == x.dat && y.flags == x.flags)
  {
    ComposedFlags(unit, places);
  }

  /** The record cvtvploop2fwx leaves, apart from the gust and the dewpoint. */
  function DecodeFields(ld: LoopRecord, d: WxDat, build: Build): WxDat
  {
    DecodeRain(ld, DecodeClimate(ld, DecodeWindReadings(ld, DecodeWind(ld, d, build), build), build), build)
  }

  /** The part before the gust: barometer, then the current and average wind. */
  function DecodeWind(ld: LoopRecord, d: WxDat, build: Build): WxDat
  {
    var bar := U16At(ld, OffBar, build);
    var speed := GetD8(ld[OffWindSpeed]);
    var dir := U16At(ld, OffWindDir, build);
    var speed10 := GetD8(ld[OffWindSpeed10]);
    d.(
      barometer := FloatReading(d.barometer, "in", NotSixteenOnes(bar), Fixed(bar, 3), WxdValid | WxdEnglish | 3),
      windcur := Wind(if NotEightOnes(speed) then speed else d.windcur.speed,
                      if DirectionOk(dir) then dir else d.windcur.direction),
      windavg := d.windavg.(speed := if NotEightOnes(speed10) then speed10 else d.windavg.speed))
  }

  /** Wind speed, direction, ten-minute average and its interval as flag-tagged readings. */
  function DecodeWindReadings(ld: LoopRecord, d: WxDat, build: Build): WxDat
  {
    var speed := GetD8(ld[OffWindSpeed]);
    var dir := U16At(ld, OffWindDir, build);
    var speed10 := GetD8(ld[OffWindSpeed10]);
    d.(
      windspeed := FloatReading(d.windspeed, "mph", NotEightOnes(speed), Fixed(speed, 0), WxdValid | WxdEnglish | 0),
      winddir := FloatReading(d.winddir, "deg", DirectionOk(dir), Fixed(dir, 0), WxdValid | 0),
      avgwindspeed := FloatReading(d.avgwindspeed, "mph", NotEightOnes(speed10), Fixed(speed10, 0), WxdValid | WxdEnglish | 0),
      avgwindspeedinterval := FloatReading(d.avgwindspeedinterval, "min", NotEightOnes(speed10), Fixed(10, 0), WxdValid | 0))
  }

  /** Indoor and outdoor temperature and humidity. */
  function DecodeClimate(ld: LoopRecord, d: WxDat, build: Build): WxDat
  {
    var tin := S16At(ld, OffTempIn, build);
    var tout := S16At(ld, OffTempOut, build);
    var hin := GetD8(ld[OffHumIn]);
    var hout := GetD8(ld[OffHumOut]);
    d.(
      indoortemp := FloatReading(d.indoortemp, "deg F", TemperatureOk(tin), Fixed(tin, 1), WxdValid | WxdEnglish | 1),
      outdoortemp := FloatReading(d.outdoortemp, "deg F", TemperatureOk(tout), Fixed(tout, 1), WxdValid | WxdEnglish | 1),
      indoorhum := FloatReading(d.indoorhum, "%", HumidityOk(hin), Fixed(hin, 0), WxdValid | 0),
      outdoorhum := FloatReading(d.outdoorhum, "%", HumidityOk(hout), Fixed(hout, 0), WxdValid | 0))
  }

  /** Rain rate, solar radiation and the rain totals. */
  function DecodeRain(ld: LoopRecord, d: WxDat, build: Build): WxDat
  {
    var rate := U16At(ld, OffRainRate, build);
    var solar := U16At(ld, OffSolarRad, build);
    var day := U16At(ld, OffRainDay, build);
    var month := U16At(ld, OffRainMonth, build);
    var year := U16At(ld, OffRainYear, build);
    d.(
      rainrate := FloatReading(d.rainrate, "in/hr", NotSixteenOnes(rate), Fixed(rate, 2), WxdValid | WxdEnglish | 2),
      solar := IntReading(d.solar, "w/m2", NotSixteenOnes(solar), solar, WxdValid | WxdMetric | 2),
      rainday := FloatReading(d.rainday, "in", NotSixteenOnes(day), Fixed(day, 2), WxdValid | WxdEnglish | 2),
      rainmonth := FloatReading(d.rainmonth, "in", NotSixteenOnes(month), Fixed(month, 2), WxdValid | WxdEnglish | 2),
      rainyear := FloatReading(d.rainyear, "in", NotSixteenOnes(year), Fixed(year, 2), WxdValid | WxdEnglish | 2))
  }

  /**
   * The exp/log arithmetic of wxcalcdewpoint, left abstract: from the
   * outdoor temperature, the outdoor humidity and whether the Fahrenheit
   * branch was taken, the value stored, or None when the result is NaN.
   */
  type DewFormula = (Fixed, Fixed, bool) -> Option<Fixed>

  /** wxcalcdewpoint: only `outdoordewpoint` may change, and only past the guards. */
  function DewpointOf(d: WxDat, dew: DewFormula): (r: WxDat)
    ensures r == d.(outdoordewpoint := r.outdoordewpoint)
    ensures !IsValid(d.outdoortemp) || !IsValid(d.outdoorhum) ==> r == d
    ensures IsValid(d.outdoortemp) && IsValid(d.outdoorhum) ==>
      var english := IsEnglish(d.outdoorhum);
      var v := dew(GetFloat(d.outdoortemp), GetFloat(d.outdoorhum), english);
      && (v.None? ==> r == d)
      && (v.Some? ==> GetFloat(r.outdoordewpoint) == v.value && IsValid(r.outdoordewpoint))
      && (v.Some? ==> GetUnits(r.outdoordewpoint) == Some(if english then "deg F" else "deg C"))
      && (v.Some? ==> IsEnglish(r.outdoordewpoint) == english && IsMetric(r.outdoordewpoint) == !english)
      && (v.Some? ==> GvPlaces(r.outdoordewpoint) == 1)
      && (v.Some? ==> r.outdoordewpoint.flags == WxdValid | (if english then WxdEnglish else WxdMetric) | 1)
  {
    if !IsValid(d.outdoortemp) || !IsValid(d.outdoorhum) then d
    else
      var english := IsEnglish(d.outdoorhum);
      match dew(GetFloat(d.outdoortemp), GetFloat(d.outdoorhum), english)
      case None => d
      case Some(v) =>
        ComposedFlags(WxdEnglish, 1);
        ComposedFlags(WxdMetric, 1);
        var x := SetFloat(d.outdoordewpoint, v);
        d.(outdoordewpoint :=
             if english then SetFlags(SetUnits(x, "deg F"), WxdValid | WxdEnglish | 1)
             else SetFlags(SetUnits(x, "deg C"), WxdValid | WxdMetric | 1))
  }

  /**
   * wxcalcdewpoint as the statements run: return early on an invalid
   * input or a NaN result, pick the unit from the humidity's ENGLISH bit,
   * then set value, units and flags.
   */
  method CalcDewpoint(d: WxDat, dew: DewFormula) returns (r: WxDat)
    ensures r == DewpointOf(d, dew)
  {
    r := d;
    if !IsValid(r.outdoortemp) || !IsValid(r.outdoorhum) {
      return;
    }
    var temp := GetFloat(r.outdoortemp);
    var hum := GetFloat(r.outdoorhum);
    var english := GetFlags(r.outdoorhum) & WxdEnglish != 0;
    var dewpoint := dew(temp, hum, english);
    if dewpoint.None? {
      return;
    }
    var x := SetFloat(r.outdoordewpoint, dewpoint.value);
    if english {
      x := SetUnits(x, "deg F");
      x := SetFlags(x, WxdValid | WxdEnglish | 1);
    } else {
      x := SetUnits(x, "deg C");
      x := SetFlags(x, WxdValid | WxdMetric | 1);
    }
    r := r.(outdoordewpoint := x);
  }

  /** Raw values of the members the decoder reads. */
  function RawBar(ld: LoopRecord, b: Build): int { U16At(ld, OffBar, b) }
  function RawDir(ld: LoopRecord, b: Build): int { U16At(ld, OffWindDir, b) }
  function RawTempIn(ld: LoopRecord, b: Build): int { S16At(ld, OffTempIn, b) }
  function RawTempOut(ld: LoopRecord, b: Build): int { S16At(ld, OffTempOut, b) }
  function RawRainRate(ld: LoopRecord, b: Build): int { U16At(ld, OffRainRate, b) }
  function RawSolar(ld: LoopRecord, b: Build): int { U16At(ld, OffSolarRad, b) }
  function RawRainDay(ld: LoopRecord, b: Build): int { U16At(ld, OffRainDay, b) }
  function RawRainMonth(ld: LoopRecord, b: Build): int { U16At(ld, OffRainMonth, b) }
  function RawRainYear(ld: LoopRecord, b: Build): int { U16At(ld, OffRainYear, b) }

  /** On a zeroed sample: the 16-bit sentinel fields, value and scale. */
  lemma SixteenBitRules(ld: LoopRecord, d: WxDat, b: Build)
    requires AllInvalid(d)
    ensures var r := DecodeFields(ld, d, b);
      && (IsValid(r.barometer) <==> RawBar(ld, b) != 0xffff)
      && (IsValid(r.barometer) ==> GetFloat(r.barometer) == Fixed(RawBar(ld, b), 3) && GvPlaces(r.barometer) == 3 && IsEnglish(r.barometer))
      && (IsValid(r.rainrate) <==> RawRainRate(ld, b) != 0xffff)
      && (IsValid(r.rainrate) ==> GetFloat(r.rainrate) == Fixed(RawRainRate(ld, b), 2) && GvPlaces(r.rainrate) == 2)
      && (IsValid(r.rainday) <==> RawRainDay(ld, b) != 0xffff)
      && (IsValid(r.rainday) ==> GetFloat(r.rainday) == Fixed(RawRainDay(ld, b), 2) && GvPlaces(r.rainday) == 2)
      && (IsValid(r.rainmonth) <==> RawRainMonth(ld, b) != 0xffff)
      && (IsValid(r.rainmonth) ==> GetFloat(r.rainmonth) == Fixed(RawRainMonth(ld, b), 2) && GvPlaces(r.rainmonth) == 2)
      && (IsValid(r.rainyear) <==> RawRainYear(ld, b) != 0xffff)
      && (IsValid(r.rainyear) ==> GetFloat(r.rainyear) == Fixed(RawRainYear(ld, b), 2) && GvPlaces(r.rainyear) == 2)
      && (IsValid(r.solar) <==> RawSolar(ld, b) != 0xffff)
      && (IsValid(r.solar) ==> GetInt(r.solar) == RawSolar(ld, b) && IsMetric(r.solar) && GvPlaces(r.solar) == 2)
  {
    BarometerRainRules(ld, d, b);
    LongRainSolarRules(ld, d, b);
  }

  lemma BarometerRainRules(ld: LoopRecord, d: WxDat, b: Build)
    requires AllInvalid(d)
    ensures var r := DecodeFields(ld, d, b);
      && (IsValid(r.barometer) <==> RawBar(ld, b) != 0xffff)
      && (IsValid(r.barometer) ==> GetFloat(r.barometer) == Fixed(RawBar(ld, b), 3) && GvPlaces(r.barometer) == 3 && IsEnglish(r.barometer))
      && (IsValid(r.rainrate) <==> RawRainRate(ld, b) != 0xffff)
      && (IsValid(r.rainrate) ==> GetFloat(r.rainrate) == Fixed(RawRainRate(ld, b), 2) && GvPlaces(r.rainrate) == 2)
      && (IsValid(r.rainday) <==> RawRainDay(ld, b) != 0xffff)
      && (IsValid(r.rainday) ==> GetFloat(r.rainday) == Fixed(RawRainDay(ld, b), 2) && GvPlaces(r.rainday) == 2)
  {
    assert !IsValid(d.barometer) && !IsValid(d.rainrate) && !IsValid(d.rainday) by {
      assert !IsValid(Measure(d, Barometer)) && !IsValid(Measure(d, RainRate)) && !IsValid(Measure(d, RainDay));
    }
    ReadingRule(d.barometer, "in", RawBar(ld, b) != 0xffff, Fixed(RawBar(ld, b), 3), WxdEnglish, 3);
    ReadingRule(d.rainrate, "in/hr", RawRainRate(ld, b) != 0xffff, Fixed(RawRainRate(ld, b), 2), WxdEnglish, 2);
    ReadingRule(d.rainday, "in", RawRainDay(ld, b) != 0xffff, Fixed(RawRainDay(ld, b), 2), WxdEnglish, 2);
  }

  lemma LongRainSolarRules(ld: LoopRecord, d: WxDat, b: Build)
    requires AllInvalid(d)
    ensures var r := DecodeFields(ld, d, b);
      && (IsValid(r.rainmonth) <==> RawRainMonth(ld, b) != 0xffff)
      && (IsValid(r.rainmonth) ==> GetFloat(r.rainmonth) == Fixed(RawRainMonth(ld, b), 2) && GvPlaces(r.rainmonth) == 2)
      && (IsValid(r.rainyear) <==> RawRainYear(ld, b) != 0xffff)
      && (IsValid(r.rainyear) ==> GetFloat(r.rainyear) == Fixed(RawRainYear(ld, b), 2) && GvPlaces(r.rainyear) == 2)
      && (IsValid(r.solar) <==> RawSolar(ld, b) != 0xffff)
      && (IsValid(r.solar) ==> GetInt(r.solar) == RawSolar(ld, b) && IsMetric(r.solar) && GvPlaces(r.solar) == 2)
  {
    assert !IsValid(d.rainmonth) && !IsValid(d.rainyear) && !IsValid(d.solar) by {
      assert !IsValid(Measure(d, RainMonth)) && !IsValid(Measure(d, RainYear)) && !IsValid(Measure(d, Solar));
    }
    ReadingRule(d.rainmonth, "in", RawRainMonth(ld, b) != 0xffff, Fixed(RawRainMonth(ld, b), 2), WxdEnglish, 2);
    ReadingRule(d.rainyear, "in", RawRainYear(ld, b) != 0xffff, Fixed(RawRainYear(ld, b), 2), WxdEnglish, 2);
    ComposedFlags(WxdMetric, 2);
  }

  /** On a zeroed sample: wind speed, direction and the ten-minute average. */
  lemma {:induction false} WindRules(ld: LoopRecord, d: WxDat, b: Build)
    requires AllInvalid(d)
    ensures var r := DecodeFields(ld, d, b);
      && (IsValid(r.windspeed) <==> ld[OffWindSpeed] != 0xff)
      && (IsValid(r.windspeed) ==> GetFloat(r.windspeed) == Fixed(ld[OffWindSpeed], 0) && r.windcur.speed == ld[OffWindSpeed])
      && (!IsValid(r.windspeed) ==> r.windcur.speed == d.windcur.speed)
      && (IsValid(r.winddir) <==> RawDir(ld, b) <= 360)
      && (IsValid(r.winddir) ==> GetFloat(r.winddir) == Fixed(RawDir(ld, b), 0) && r.windcur.direction == RawDir(ld, b))
      && (!IsValid(r.winddir) ==> r.windcur.direction == d.windcur.direction)
      && (IsValid(r.avgwindspeed) <==> ld[OffWindSpeed10] != 0xff)
      && (IsValid(r.avgwindspeedinterval) <==> ld[OffWindSpeed10] != 0xff)
      && (IsValid(r.avgwindspeed) ==> GetFloat(r.avgwindspeed) == Fixed(ld[OffWindSpeed10], 0) && r.windavg.speed == ld[OffWindSpeed10])
      && (IsValid(r.avgwindspeedinterval) ==> GetFloat(r.avgwindspeedinterval) == Fixed(10, 0))
      && r.windavg.direction == d.windavg.direction
  {
    assert !IsValid(d.windspeed) && !IsValid(d.winddir) by {
      assert !IsValid(Measure(d, WindSpeed)) && !IsValid(Measure(d, WindDir));
    }
    assert !IsValid(d.avgwindspeed) && !IsValid(d.avgwindspeedinterval) by {
      assert !IsValid(Measure(d, AvgWindSpeed)) && !IsValid(Measure(d, AvgWindSpeedInterval));
    }
    var speed, speed10, dir := ld[OffWindSpeed], ld[OffWindSpeed10], RawDir(ld, b);
    ReadingRule(d.windspeed, "mph", speed != 0xff, Fixed(speed, 0), WxdEnglish, 0);
    ReadingRule(d.winddir, "deg", dir <= 360, Fixed(dir, 0), 0, 0);
    ReadingRule(d.avgwindspeed, "mph", speed10 != 0xff, Fixed(speed10, 0), WxdEnglish, 0);
    ReadingRule(d.avgwindspeedinterval, "min", speed10 != 0xff, Fixed(10, 0), 0, 0);
  }

  /** On a zeroed sample: the temperatures and humidities. */
  lemma {:induction false} ClimateRules(ld: LoopRecord, d: WxDat, b: Build)
    requires AllInvalid(d)
    ensures var r := DecodeFields(ld, d, b);
      && (IsValid(r.indoortemp) <==> TemperatureOk(RawTempIn(ld, b)))
      && (IsValid(r.indoortemp) ==> GetFloat(r.indoortemp) == Fixed(RawTempIn(ld, b), 1) && IsEnglish(r.indoortemp))
      && (IsValid(r.outdoortemp) <==> TemperatureOk(RawTempOut(ld, b)))
      && (IsValid(r.outdoortemp) ==> GetFloat(r.outdoortemp) == Fixed(RawTempOut(ld, b), 1) && IsEnglish(r.outdoortemp))
      && (IsValid(r.indoorhum) <==> ld[OffHumIn] != 0xff && ld[OffHumIn] <= 100)
      && (IsValid(r.indoorhum) ==> GetFloat(r.indoorhum) == Fixed(ld[OffHumIn], 0))
      && (IsValid(r.outdoorhum) <==> ld[OffHumOut] != 0xff && ld[OffHumOut] <= 100)
      && (IsValid(r.outdoorhum) ==> GetFloat(r.outdoorhum) == Fixed(ld[OffHumOut], 0) && !IsEnglish(r.outdoorhum))
      && !IsValid(r.outdoordewpoint)
  {
    assert !IsValid(d.indoortemp) && !IsValid(d.outdoortemp) by {
      assert !IsValid(Measure(d, IndoorTemp)) && !IsValid(Measure(d, OutdoorTemp));
    }
    assert !IsValid(d.indoorhum) && !IsValid(d.outdoorhum) && !IsValid(d.outdoordewpoint) by {
      assert !IsValid(Measure(d, IndoorHum)) && !IsValid(Measure(d, OutdoorHum)) && !IsValid(Measure(d, OutdoorDewpoint));
    }
    var tin, tout := RawTempIn(ld, b), RawTempOut(ld, b);
    ReadingRule(d.indoortemp, "deg F", TemperatureOk(tin), Fixed(tin, 1), WxdEnglish, 1);
    ReadingRule(d.outdoortemp, "deg F", TemperatureOk(tout), Fixed(tout, 1), WxdEnglish, 1);
    ReadingRule(d.indoorhum, "%", HumidityOk(ld[OffHumIn]), Fixed(ld[OffHumIn], 0), 0, 0);
    ReadingRule(d.outdoorhum, "%", HumidityOk(ld[OffHumOut]), Fixed(ld[OffHumOut], 0), 0, 0);
  }

  /**
   * The unit branch of wxcalcdewpoint tests the ENGLISH bit of the outdoor
   * humidity, which the decoder never sets: a dewpoint it stores after
   * decoding is always labelled Celsius, whatever the temperature's unit.
   */
  lemma DewpointAfterDecode(ld: LoopRecord, d: WxDat, b: Build, w: Wind, dew: DewFormula)
    requires AllInvalid(d)
    ensures var e := DecodeFields(ld, d, b).(windgust := w);
      var r := DewpointOf(e, dew);
      && (IsValid(r.outdoordewpoint) <==>
            IsValid(e.outdoortemp) && IsValid(e.outdoorhum) && dew(GetFloat(e.outdoortemp), GetFloat(e.outdoorhum), false).Some?)
      && (IsValid(r.outdoordewpoint) ==>
            && GetUnits(r.outdoordewpoint) == Some("deg C")
            && r.outdoordewpoint.flags == WxdValid | WxdMetric | 1
            && GetFloat(r.outdoordewpoint) == dew(GetFloat(e.outdoortemp), GetFloat(e.outdoorhum), false).value)
  {
    ClimateRules(ld, d, b);
    var e := DecodeFields(ld, d, b).(windgust := w);
    if IsValid(e.outdoorhum) {
      assert e.outdoorhum.flags == WxdValid | 0;
      assert !IsEnglish(e.outdoorhum);
    }
  }

  /** A record of nothing but 0xff bytes: after the decoder, no field is valid but the two temperatures, read as -0.1 F on the native build. */
  lemma AllOnesRecord(ld: LoopRecord, time: int, b: Build, w: Wind, dew: DewFormula)
    requires forall i :: 0 <= i < LoopSize ==> ld[i] == 0xff
    ensures var r := DewpointOf(DecodeFields(ld, NewCycle(time), b).(windgust := w), dew);
      && (forall f: Field :: f != IndoorTemp && f != OutdoorTemp ==> !IsValid(Measure(r, f)))
      && (b == NativeOrder ==> IsValid(r.indoortemp) && IsValid(r.outdoortemp))
      && (b == NativeOrder ==> GetFloat(r.indoortemp) == Fixed(-1, 1) == GetFloat(r.outdoortemp))
      && (b == SwapDavisData ==> !IsValid(r.indoortemp) && !IsValid(r.outdoortemp))
  {
    var d := NewCycle(time);
    SixteenBitRules(ld, d, b);
    WindRules(ld, d, b);
    ClimateRules(ld, d, b);
    DewpointAfterDecode(ld, d, b, w, dew);
    assert RawTempIn(ld, b) == S16At(ld, OffTempIn, b) && RawTempOut(ld, b) == S16At(ld, OffTempOut, b);
    SplitBytes(255, 255);
    assert RawBar(ld, b) == 0xffff && RawRainRate(ld, b) == 0xffff && RawSolar(ld, b) == 0xffff;
    assert RawRainDay(ld, b) == 0xffff && RawRainMonth(ld, b) == 0xffff && RawRainYear(ld, b) == 0xffff;
    assert RawDir(ld, b) == 0xffff;
    if b == NativeOrder {
      assert RawTempIn(ld, b) == -1 && RawTempOut(ld, b) == -1;
    } else {
      assert RawTempIn(ld, b) == 0xffff && RawTempOut(ld, b) == 0xffff;
    }
  }

  /** The record cvtvploop2fwx leaves when the gust copied is `w`. */
  function Converted(ld: LoopRecord, d: WxDat, build: Build, w: Wind, dew: DewFormula): WxDat
  {
    DewpointOf(DecodeFields(ld, d, build).(windgust := w), dew)
  }

  /**
   * cvtvploop2fwx, statement by statement: each member is read, checked and
   * stored; the current wind goes into the gust ring between the wind and
   * the other fields; the dewpoint comes last.  When the ring reports no
   * gust (`found` never assigned) the gust copied is unspecified.
   */
  method ConvertLoop(ld: LoopRecord, d: WxDat, build: Build, ring: GustTracker, interval: int, dew: DewFormula)
    returns (r: WxDat)
    requires ring.Valid() && interval > 0
    modifies ring, ring.warr
    ensures ring.Valid() && ring.walen > 0
    ensures old(ring.walen) != 0 ==> ring.History == old(ring.History) + [DecodeFields(ld, d, build).windcur]
    ensures old(ring.walen) == 0 ==> ring.History == seq(ring.walen, _ => Calm) + [DecodeFields(ld, d, build).windcur]
    ensures r == Converted(ld, d, build, r.windgust, dew)
    ensures forall k :: IsEarliestMax(ring.Window(), k) ==> r.windgust == ring.Window()[k]
  {
    r := ConvertFields(ld, d, build, ring, interval);
    r := CalcDewpoint(r, dew);
  }

  /** Every statement of cvtvploop2fwx before the call of wxcalcdewpoint. */
  method ConvertFields(ld: LoopRecord, d: WxDat, build: Build, ring: GustTracker, interval: int)
    returns (r: WxDat)
    requires ring.Valid() && interval > 0
    modifies ring, ring.warr
    ensures ring.Valid() && ring.walen > 0
    ensures old(ring.walen) != 0 ==> ring.History == old(ring.History) + [DecodeFields(ld, d, build).windcur]
    ensures old(ring.walen) == 0 ==> ring.History == seq(ring.walen, _ => Calm) + [DecodeFields(ld, d, build).windcur]
    ensures r == DecodeFields(ld, d, build).(windgust := r.windgust)
    ensures forall k :: IsEarliestMax(ring.Window(), k) ==> r.windgust == ring.Window()[k]
  {
    r := StoreWind(ld, d, build);
    r := StoreGust(r, ring, interval);
    ghost var gust := r.windgust;
    r := StoreWindReadings(ld, r, build);
    r := StoreClimate(ld, r, build);
    r := StoreRain(ld, r, build);
    GustUntouched(ld, d, build, gust);
  }

  /**
   * `if ((wg = wxcalcwindgust(&wxdatp->windcur))) memcpy(&wxdatp->windgust, wg, ...)`:
   * the current wind enters the ring and the gust it reports is copied.
   * With `found` never assigned the slot copied is unspecified.
   */
  method StoreGust(d: WxDat, ring: GustTracker, interval: int) returns (r: WxDat)
    requires ring.Valid() && interval > 0
    modifies ring, ring.warr
    ensures ring.Valid() && ring.walen > 0
    ensures old(ring.walen) != 0 ==> ring.History == old(ring.History) + [d.windcur]
    ensures old(ring.walen) == 0 ==> ring.History == seq(ring.walen, _ => Calm) + [d.windcur]
    ensures r == d.(windgust := r.windgust)
    ensures forall k :: IsEarliestMax(ring.Window(), k) ==> r.windgust == ring.Window()[k]
  {
    var wg := ring.CalcWindGust(d.windcur, interval);
    var gust: Wind;
    if wg.Some? {
      gust := wg.value;
      OnlyEarliestMax(ring.Window(), gust);
    } else {
      gust :| true;
      NoEarliestMax(ring.Window());
    }
    r := d.(windgust := gust);
  }

  /** The stages after the gust leave it alone, so storing it midway is storing it at the end. */
  lemma GustUntouched(ld: LoopRecord, d: WxDat, build: Build, gust: Wind)
    ensures DecodeRain(ld, DecodeClimate(ld, DecodeWindReadings(ld, DecodeWind(ld, d, build).(windgust := gust), build), build), build)
         == DecodeFields(ld, d, build).(windgust := gust)
    ensures DecodeFields(ld, d, build).windcur == DecodeWind(ld, d, build).windcur
  {
  }

  /** A window with no positive speed has no earliest maximum. */
  lemma NoEarliestMax(w: seq<Wind>)
    requires forall j :: 0 <= j < |w| ==> w[j].speed <= 0
    ensures forall k :: !IsEarliestMax(w, k)
  {
  }

  /** A value at an earliest maximum is the value at every earliest maximum. */
  lemma OnlyEarliestMax(w: seq<Wind>, g: Wind)
    requires exists k :: IsEarliestMax(w, k) && g == w[k]
    ensures forall k :: IsEarliestMax(w, k) ==> g == w[k]
  {
    var k' :| IsEarliestMax(w, k') && g == w[k'];
    forall k | IsEarliestMax(w, k)
      ensures g == w[k]
    {
      EarliestMaxUnique(w, k, k');
    }
  }

  /** The statements of cvtvploop2fwx before the gust. */
  method StoreWind(ld: LoopRecord, d: WxDat, build: Build) returns (r: WxDat)
    ensures r == DecodeWind(ld, d, build)
  {
    r := d;
    var tmp: int;
    r := r.(barometer := SetUnits(r.barometer, "in"));
    tmp := U16At(ld, OffBar, build);
    if tmp != SixteenOnes {
      r := r.(barometer := SetFlags(SetFloat(r.barometer, Fixed(tmp, 3)), WxdValid | WxdEnglish | 3));
    }
    tmp := GetD8(ld[OffWindSpeed]);
    if tmp != EightOnes {
      r := r.(windcur := r.windcur.(speed := tmp));
    }
    tmp := U16At(ld, OffWindDir, build);
    if tmp <= 360 {
      r := r.(windcur := r.windcur.(direction := tmp));
    }
    tmp := GetD8(ld[OffWindSpeed10]);
    if tmp != EightOnes {
      r := r.(windavg := r.windavg.(speed := tmp));
    }
  }

  /** The wind readings after the gust. */
  method StoreWindReadings(ld: LoopRecord, d: WxDat, build: Build) returns (r: WxDat)
    ensures r == DecodeWindReadings(ld, d, build)
  {
    r := d;
    var tmp: int;
    r := r.(windspeed := SetUnits(r.windspeed, "mph"));
    tmp := GetD8(ld[OffWindSpeed]);
    if tmp != EightOnes {
      r := r.(windspeed := SetFlags(SetFloat(r.windspeed, Fixed(tmp, 0)), WxdValid | WxdEnglish | 0));
    }
    r := r.(winddir := SetUnits(r.winddir, "deg"));
    tmp := U16At(ld, OffWindDir, build);
    if tmp <= 360 {
      r := r.(winddir := SetFlags(SetFloat(r.winddir, Fixed(tmp, 0)), WxdValid | 0));
    }
    r := r.(avgwindspeed := SetUnits(r.avgwindspeed, "mph"));
    r := r.(avgwindspeedinterval := SetUnits(r.avgwindspeedinterval, "min"));
    tmp := GetD8(ld[OffWindSpeed10]);
    if tmp != EightOnes {
      r := r.(avgwindspeed := SetFlags(SetFloat(r.avgwindspeed, Fixed(tmp, 0)), WxdValid | WxdEnglish | 0));
      r := r.(avgwindspeedinterval := SetFlags(SetFloat(r.avgwindspeedinterval, Fixed(10, 0)), WxdValid | 0));
    }
  }

  /** The temperature and humidity readings. */
  method StoreClimate(ld: LoopRecord, d: WxDat, build: Build) returns (r: WxDat)
    ensures r == DecodeClimate(ld, d, build)
  {
    r := d;
    var tmp: int;
    var stmp: int;
    r := r.(indoortemp := SetUnits(r.indoortemp, "deg F"));
    stmp := S16At(ld, OffTempIn, build);
    if stmp != 0x1000 && stmp > -1500 && stmp < 1500 {
      r := r.(indoortemp := SetFlags(SetFloat(r.indoortemp, Fixed(stmp, 1)), WxdValid | WxdEnglish | 1));
    }
    r := r.(outdoortemp := SetUnits(r.outdoortemp, "deg F"));
    stmp := S16At(ld, OffTempOut, build);
    if stmp != 0x1000 && stmp > -1500 && stmp < 1500 {
      r := r.(outdoortemp := SetFlags(SetFloat(r.outdoortemp, Fixed(stmp, 1)), WxdValid | WxdEnglish | 1));
    }
    r := r.(indoorhum := SetUnits(r.indoorhum, "%"));
    tmp := GetD8(ld[OffHumIn]);
    if tmp != EightOnes && tmp <= 100 {
      r := r.(indoorhum := SetFlags(SetFloat(r.indoorhum, Fixed(tmp, 0)), WxdValid | 0));
    }
    r := r.(outdoorhum := SetUnits(r.outdoorhum, "%"));
    tmp := GetD8(ld[OffHumOut]);
    if tmp != EightOnes && tmp <= 100 {
      r := r.(outdoorhum := SetFlags(SetFloat(r.outdoorhum, Fixed(tmp, 0)), WxdValid | 0));
    }
  }

  /** The rain and solar readings. */
  method StoreRain(ld: LoopRecord, d: WxDat, build: Build) returns (r: WxDat)
    ensures r == DecodeRain(ld, d, build)
  {
    r := d;
    var tmp: int;
    r := r.(rainrate := SetUnits(r.rainrate, "in/hr"));
    tmp := U16At(ld, OffRainRate, build);
    if tmp != SixteenOnes {
      r := r.(rainrate := SetFlags(SetFloat(r.rainrate, Fixed(tmp, 2)), WxdValid | WxdEnglish | 2));
    }
    r := r.(solar := SetUnits(r.solar, "w/m2"));
    tmp := U16At(ld, OffSolarRad, build);
    if tmp != SixteenOnes {
      r := r.(solar := SetFlags(SetInt(r.solar, tmp), WxdValid | WxdMetric | 2));
    }
    r := r.(rainday := SetUnits(r.rainday, "in"));
    tmp := U16At(ld, OffRainDay, build);
    if tmp != SixteenOnes {
      r := r.(rainday := SetFlags(SetFloat(r.rainday, Fixed(tmp, 2)), WxdValid | WxdEnglish | 2));
    }
    r := r.(rainmonth := SetUnits(r.rainmonth, "in"));
    tmp := U16At(ld, OffRainMonth, build);
    if tmp != SixteenOnes {
      r := r.(rainmonth := SetFlags(SetFloat(r.rainmonth, Fixed(tmp, 2)), WxdValid | WxdEnglish | 2));
    }
    r := r.(rainyear := SetUnits(r.rainyear, "in"));
    tmp := U16At(ld, OffRainYear, build);
    if tmp != SixteenOnes {
      r := r.(rainyear := SetFlags(SetFloat(r.rainyear, Fixed(tmp, 2)), WxdValid | WxdEnglish | 2));
    }
  }
}
