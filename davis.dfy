/**
 * davis.h: the packed 99-byte LOOP record `vploopdata_t` of the Vantage Pro
 * console, the byte-order macros get_d_8 / get_d_16, the LOOP command and
 * the identification byte of the Vantage family.
 */
module Davis {
  import opened Fmt

  /** One member of the packed struct: its name and its size in bytes. */
  datatype Member = Member(name: string, width: nat)

  /** The number of members of vploopdata_t. */
  const MemberCount: nat := 41

  /** vploopdata_t, member by member, with `#pragma pack(1)` (no padding). */
  function MemberAt(k: nat): Member
    requires k < MemberCount
  {
    match k
    case 0 => Member("sig", 3)
    case 1 => Member("barTrend", 1)
    case 2 => Member("type", 1)
    case 3 => Member("nextRecord", 2)
    case 4 => Member("bar", 2)
    case 5 => Member("tempIn", 2)
    case 6 => Member("humIn", 1)
    case 7 => Member("tempOut", 2)
    case 8 => Member("windSpeed", 1)
    case 9 => Member("windSpeed10", 1)
    case 10 => Member("windDir", 2)
    case 11 => Member("tempOutExt", 15)
    case 12 => Member("humOut", 1)
    case 13 => Member("humOutExt", 7)
    case 14 => Member("rainRate", 2)
    case 15 => Member("uv", 1)
    case 16 => Member("solarRad", 2)
    case 17 => Member("rainStorm", 2)
    case 18 => Member("rainStormDate", 2)
    case 19 => Member("rainDay", 2)
    case 20 => Member("rainMonth", 2)
    case 21 => Member("rainYear", 2)
    case 22 => Member("etDay", 2)
    case 23 => Member("etMonth", 2)
    case 24 => Member("etYear", 2)
    case 25 => Member("soilMoist", 4)
    case 26 => Member("leafWet", 4)
    case 27 => Member("inAlamrs", 1)
    case 28 => Member("rainAlarms", 1)
    case 29 => Member("outAlarms", 2)
    case 30 => Member("tempHumAlarms", 8)
    case 31 => Member("leafSoilAlarms", 4)
    case 32 => Member("txBatStatus", 1)
    case 33 => Member("batCounts", 2)
    case 34 => Member("forecastIcons", 1)
    case 35 => Member("forecastRule", 1)
    case 36 => Member("sunrise", 2)
    case 37 => Member("sunset", 2)
    case 38 => Member("nl", 1)
    case 39 => Member("ret", 1)
    case 40 => Member("crc", 2)
  }

  /** Byte offset of member k: the sum of the sizes of the members before it. */
  function Offset(k: nat): nat
    requires k <= MemberCount
  {
    if k == 0 then 0 else Offset(k - 1) + MemberAt(k - 1).width
  }

  /** sizeof(vploopdata_t). */
  const LoopSize: nat := 99

  // Byte offsets of the members fwx decodes or that frame the record.
  const OffBar: nat := 7
  const OffTempIn: nat := 9
  const OffHumIn: nat := 11
  const OffTempOut: nat := 12
  const OffWindSpeed: nat := 14
  const OffWindSpeed10: nat := 15
  const OffWindDir: nat := 16
  const OffHumOut: nat := 33
  const OffRainRate: nat := 41
  const OffSolarRad: nat := 44
  const OffRainDay: nat := 50
  const OffRainMonth: nat := 52
  const OffRainYear: nat := 54
  const OffNl: nat := 95
  const OffRet: nat := 96
  const OffCrc: nat := 97

  /** Summing the member sizes puts each member at the offset the decoder reads it from. */
  lemma LayoutOffsets()
    ensures Offset(MemberCount) == LoopSize
    ensures Offset(4) == OffBar && Offset(5) == OffTempIn && Offset(6) == OffHumIn
    ensures Offset(7) == OffTempOut && Offset(8) == OffWindSpeed && Offset(9) == OffWindSpeed10
    ensures Offset(10) == OffWindDir && Offset(12) == OffHumOut && Offset(14) == OffRainRate
    ensures Offset(16) == OffSolarRad && Offset(19) == OffRainDay && Offset(20) == OffRainMonth
    ensures Offset(21) == OffRainYear && Offset(38) == OffNl && Offset(39) == OffRet
    ensures Offset(40) == OffCrc
  {
    OffsetsFrom0();
    OffsetsFrom10();
    OffsetsFrom20();
    OffsetsFrom30();
  }

  lemma OffsetsFrom0()
    ensures Offset(1) == 3
    ensures Offset(2) == 4
    ensures Offset(3) == 5
    ensures Offset(4) == 7
    ensures Offset(5) == 9
    ensures Offset(6) == 11
    ensures Offset(7) == 12
    ensures Offset(8) == 14
    ensures Offset(9) == 15
    ensures Offset(10) == 16
  {
  }

  lemma OffsetsFrom10()
    requires Offset(10) == 16
    ensures Offset(11) == 18
    ensures Offset(12) == 33
    ensures Offset(13) == 34
    ensures Offset(14) == 41
    ensures Offset(15) == 43
    ensures Offset(16) == 44
    ensures Offset(17) == 46
    ensures Offset(18) == 48
    ensures Offset(19) == 50
    ensures Offset(20) == 52
  {
  }

  lemma OffsetsFrom20()
    requires Offset(20) == 52
    ensures Offset(21) == 54
    ensures Offset(22) == 56
    ensures Offset(23) == 58
    ensures Offset(24) == 60
    ensures Offset(25) == 62
    ensures Offset(26) == 66
    ensures Offset(27) == 70
    ensures Offset(28) == 71
    ensures Offset(29) == 72
    ensures Offset(30) == 74
  {
  }

  lemma OffsetsFrom30()
    requires Offset(30) == 74
    ensures Offset(31) == 82
    ensures Offset(32) == 86
    ensures Offset(33) == 87
    ensures Offset(34) == 89
    ensures Offset(35) == 90
    ensures Offset(36) == 91
    ensures Offset(37) == 93
    ensures Offset(38) == 95
    ensures Offset(39) == 96
    ensures Offset(40) == 97
    ensures Offset(41) == 99
  {
  }

  /** The members those offsets belong to. */
  lemma LayoutNames()
    ensures MemberAt(0) == Member("sig", 3) && MemberAt(4).name == "bar"
    ensures MemberAt(5).name == "tempIn" && MemberAt(6).name == "humIn"
    ensures MemberAt(7).name == "tempOut" && MemberAt(8).name == "windSpeed"
    ensures MemberAt(9).name == "windSpeed10" && MemberAt(10).name == "windDir"
    ensures MemberAt(12).name == "humOut" && MemberAt(14).name == "rainRate"
    ensures MemberAt(16).name == "solarRad" && MemberAt(19).name == "rainDay"
    ensures MemberAt(20).name == "rainMonth" && MemberAt(21).name == "rainYear"
    ensures MemberAt(38) == Member("nl", 1) && MemberAt(39) == Member("ret", 1)
    ensures MemberAt(40) == Member("crc", 2)
  {
    NamesA();
    NamesB();
    NamesC();
  }

  lemma NamesA()
    ensures MemberAt(0) == Member("sig", 3) && MemberAt(4).name == "bar"
    ensures MemberAt(5).name == "tempIn" && MemberAt(6).name == "humIn"
    ensures MemberAt(7).name == "tempOut" && MemberAt(8).name == "windSpeed"
  {
  }

  lemma NamesB()
    ensures MemberAt(9).name == "windSpeed10" && MemberAt(10).name == "windDir"
    ensures MemberAt(12).name == "humOut" && MemberAt(14).name == "rainRate"
    ensures MemberAt(16).name == "solarRad" && MemberAt(19).name == "rainDay"
  {
  }

  lemma NamesC()
    ensures MemberAt(20).name == "rainMonth" && MemberAt(21).name == "rainYear"
    ensures MemberAt(38) == Member("nl", 1) && MemberAt(39) == Member("ret", 1)
    ensures MemberAt(40) == Member("crc", 2)
  {
  }

  /** A LOOP record as it arrives on the wire. */
  type LoopRecord = r: seq<Byte> | |r| == LoopSize
    witness seq(LoopSize, _ => 0)

  /** The signature the console puts in the first three bytes. */
  const Signature: string := "LOO"

  /** The build configurations of davis.h: without or with SWAP_DAVIS_DATA. */
  datatype Build = NativeOrder | SwapDavisData

  /** get_d_8 is the identity in both configurations. */
  function GetD8(x: Byte): Byte { x }

  /** get_d_16 under SWAP_DAVIS_DATA: `(x<<8 & 0xff00) | (x>>8 & 0x00ff)`. */
  function Swap16(x: int): int
  {
    (x % 256) * 256 + (x / 256) % 256
  }

  /** The swap is an involution on 16-bit values and never yields a negative value. */
  lemma Swap16Involution(x: int)
    requires 0 <= x < 65536
    ensures 0 <= Swap16(x) < 65536
    ensures Swap16(Swap16(x)) == x
  {
  }

  /** The wire order: low byte first. */
  function LittleEndian(r: LoopRecord, o: nat): nat
    requires o + 1 < LoopSize
  {
    r[o] as int + 256 * r[o + 1] as int
  }

  /**
   * A uint16_t member after get_d_16.  Without SWAP_DAVIS_DATA the host is
   * the little-endian machine the davis.h comment names and loads the bytes
   * as they are; with it the host loads them big-endian and the macro swaps.
   */
  function U16At(r: LoopRecord, o: nat, build: Build): int
    requires o + 1 < LoopSize
  {
    match build
    case NativeOrder => LittleEndian(r, o)
    case SwapDavisData => Swap16(256 * r[o] as int + r[o + 1] as int)
  }

  /** Two's-complement reading of a 16-bit pattern. */
  function Signed16(v: int): int
  {
    if v >= 32768 then v - 65536 else v
  }

  /** An int16_t member after get_d_16, assigned to `int stmp`. */
  function S16At(r: LoopRecord, o: nat, build: Build): int
    requires o + 1 < LoopSize
  {
    match build
    case NativeOrder => Signed16(LittleEndian(r, o))
    case SwapDavisData => Swap16(Signed16(256 * r[o] as int + r[o + 1] as int))
  }

  /** Both configurations read an unsigned member as the wire's little-endian value. */
  lemma U16BuildsAgree(r: LoopRecord, o: nat)
    requires o + 1 < LoopSize
    ensures U16At(r, o, SwapDavisData) == U16At(r, o, NativeOrder) == LittleEndian(r, o)
  {
  }

  /**
   * Under SWAP_DAVIS_DATA a signed member is never sign-extended: it reads
   * as the unsigned wire value, so a negative reading (high byte >= 0x80)
   * comes out at 32768 or more.
   */
  lemma SwapNeverSignExtends(r: LoopRecord, o: nat)
    requires o + 1 < LoopSize
    ensures S16At(r, o, SwapDavisData) == LittleEndian(r, o)
    ensures S16At(r, o, NativeOrder) < 0 <==> r[o + 1] >= 128
    ensures r[o + 1] >= 128 ==> S16At(r, o, SwapDavisData) >= 32768
  {
    var lo, hi := r[o] as int, r[o + 1] as int;
    if lo >= 128 {
      SplitBytes(lo - 256, hi);
      assert Signed16(256 * lo + hi) == 256 * (lo - 256) + hi;
    } else {
      SplitBytes(lo, hi);
    }
    SplitBytes(hi, lo);
  }

  lemma SplitBytes(a: int, b: int)
    requires 0 <= b < 256
    ensures (256 * a + b) % 256 == b && (256 * a + b) / 256 == a
  {
  }

  /** VPLOOPCMD: ask for one LOOP record. */
  const VpLoopCmd: string := "LOOP 01\n"

  /** IDENT_VP: the identification byte of a Vantage Pro or Pro2. */
  const IdentVp: Byte := 0x10
}
