# fwx core in Dafny

fwx is a logger for Davis Vantage Pro weather stations. Each cycle it
does four things:

- It wakes the console over a serial line and sends `LOOP 01\n`.
- It reads the 99-byte LOOP record and checks its CRC.
- It decodes the record into a flag-tagged sample (`wxdat_t`) and keeps a
  ten-minute wind-gust ring up to date.
- It appends the sample to a daily CSV file and uploads it to Weather
  Underground, PWSweather (Aeris) and CWOP.

This project models that core and proves what the code promises about it.

Modules, one per part of the program:

- `WxTypes` (fwx.h): `wxd_t`, `wind_t`, `wxdat_t`, the `WXD_*` flag bits
  and the accessor macros. The structs are held by value, so they are
  datatypes. `WXD_SVPLACES` is a function that returns the updated record.
- `Davis` (davis.h): the packed `vploopdata_t` layout as a table of
  members and sizes, its offsets, `get_d_8`/`get_d_16` for both build
  configurations, and `VPLOOPCMD`.
- `Fmt`: the printf and strftime layouts fwx uses (`%d`, `%0Nd`, `%.Nf`,
  `0x%02x`, the `strftime` size limit) and a parser for each.
  - C floats are `Fixed(raw, places)`, meaning raw / 10^places. The
    decoder only ever divides an integer by 10, 100 or 1000, so this is
    exact.
  - `%.Nf` rounds half to even, which is what the C library does for
    exactly representable values.
- `Decode` (fwx.c): `cvtvploop2fwx`, written as one method per group of
  fields, each proved against its own specification function, plus the
  guard and unit branch of `wxcalcdewpoint`.
- `Gust` (fwx.c): `wxcalcwindgust`. The class `GustTracker` holds the
  static `warr`, `walen`, `waidx` and `tenmin`, plus a ghost history of
  every observation saved.
- `Transport`: the serial port and the clock as a script of results, one
  per flush, timeout setting, write, read and `time()` call.
- `Serial` (support.c): `wxread`, `wxwakeup`, `wxgetack` and `wxcmd`. Each
  is a method proved equal to a specification function over the script.
- `Station` (fwx.c): `wxgetloop` and `wxident`. They use a wakeup retry
  loop and take `wxcrc` as an uninterpreted function parameter.
- `CsvLog` (fwx.c): `wxlog`, covering both the file name and the line.
  The line buffer is modelled with the NULs that the missing-value
  branches write, so the printed line is what `"%s"` makes of it.
- `Uplink` (fwx.c): the fetch(1) command lines of `wxsendwu` and
  `wxsendaeris`, with a query parser as their inverse.
- `Cwop` (fwx.c): `wxsendcwop`, covering the login line, the APRS weather
  packet with a reader for its 41-character weather part, and the
  five-minute rate limit. The class `Sender` holds `static time_t
  lasthere`.
- `Dump` (support.c): `dumpbuf`/`dumpbyte`, and the device-name
  completion of `wxopen`.
- `Config` (fwx.c): `chkvar`. It is an array method: a copy loop into
  `dst`, then an in-place backward trim.

Quirks of the code that the model reproduces rather than fixes:

- The CSV line ends after the first missing value's commas, because each
  missing branch writes a NUL that the cursor steps over.
- The log path test `*s == '/'` reads the terminator, so a slash is always
  added.
- `wxgetloop` sends `LOOP 01\n` even when all four wakeups failed.
- The dewpoint unit branch reads the `WXD_ENGLISH` bit of `outdoorhum`.
  The decoder never sets that bit, so a stored dewpoint is always `deg C`.
- `found` in the gust scan stays unassigned when no speed in the window is
  above zero. The model then leaves the gust unconstrained.
- PWSweather never gets `windgustdir`, because its block is under `#if 0`.
- A timestamp that does not fit strftime's 32 bytes leaves an empty
  `dateutc` value.
- `wxcrc` is called on the 99 bytes that start one byte into the record,
  so it also reads the byte after the record.

Two more behaviours of the code:

- The number of CSV columns is not fixed. A line has 17 comma-terminated
  fields only when every measurement is valid, and is cut short at the
  first missing one.
- fwx.c uses a `solar` member of `wxdat_t` that fwx.h does not declare.
  `WxTypes.WxDat` has it.

## Model

| member | source | states |
|---|---|---|
| WxTypes.SvPlaces | fwx.h:85-87 | the places bits become n & 0x0f; the VALID, METRIC and ENGLISH bits, the value and the units are unchanged |
| WxTypes.MasksDisjoint | fwx.h:67-85 | VALID, METRIC, ENGLISH and the places mask are pairwise disjoint |
| WxTypes.ComposedFlags | fwx.h:67-86 | VALID\|unit\|places reads back as valid, with exactly that unit bit and that place count |
| WxTypes.AccessorsRoundTrip | fwx.h:60-65 | each GET after a SET of the same member yields the value set; each SET leaves the other members alone |
| WxTypes.NewCycle | fwx.c:256-257 | the record each cycle starts from has the given time, every measurement invalid and calm winds |
| Davis.LayoutOffsets | davis.h:35-81 | the packed record is 99 bytes; bar 7, tempIn 9, humIn 11, tempOut 12, windSpeed 14, windSpeed10 15, windDir 16, humOut 33, rainRate 41, solarRad 44, rainDay 50, rainMonth 52, rainYear 54, nl 95, ret 96, crc 97 |
| Davis.OffsetsFrom0 | davis.h:37-47 | offsets of members 1-10 |
| Davis.OffsetsFrom10 | davis.h:47-57 | offsets of members 11-20 |
| Davis.OffsetsFrom20 | davis.h:57-67 | offsets of members 21-30 |
| Davis.OffsetsFrom30 | davis.h:67-78 | offsets of members 31-41, ending at 99 |
| Davis.LayoutNames | davis.h:36-78 | the members at those positions are the named ones: the 3-byte "sig" first, then nl, ret and the 2-byte crc last |
| Davis.NamesA | davis.h:37-45 | names of members 0-8 |
| Davis.NamesB | davis.h:46-56 | names of members 9-19 |
| Davis.NamesC | davis.h:57-77 | names of members 20-40 |
| Davis.Swap16Involution | davis.h:20 | the SWAP_DAVIS_DATA get_d_16 stays in 0..65535 and undoes itself |
| Davis.U16BuildsAgree | davis.h:18-24 | an unsigned 16-bit member reads the same in both builds: b[o] + 256*b[o+1] |
| Davis.SwapNeverSignExtends | davis.h:18-24 | the swapped build never sign-extends: a negative native reading is 32768 or more after swapping |
| Fmt.Digits | fwx.c:290 | "%d" of a non-negative number is digits only, and one digit exactly when it is below 10 |
| Fmt.DigitsRoundTrip | fwx.c:290 | parsing "%d" of n gives back n |
| Fmt.PadDec | fwx.c:830-831 | "%0Nd" of n >= 0 is digits only, of width max(N, digits of n) |
| Fmt.PadDecRoundTrip | fwx.c:830-831 | parsing the zero-padded text gives back n |
| Fmt.PadInt | fwx.c:834-856 | "%0Nd" is a number text: the padded digits for n >= 0, otherwise '-' and the digits of -n padded to N-1 |
| Fmt.IntStr | fwx.c:290 | "%d" is a number text, equal to the digits for n >= 0 |
| Fmt.RoundHalfEvenNearest | fwx.c:293 | the rounding behind "%.Nf" is within half a unit of the exact value |
| Fmt.RoundExact | fwx.c:293 | an exact multiple rounds to itself |
| Fmt.FixedStr | fwx.c:293 | "%.Nf" of a fixed-point value is a number text with no NUL and no comma |
| Fmt.FixedStrExact | fwx.c:293 | printing with the value's own place count involves no rounding |
| Fmt.Hex2 | support.c:46 | the "%02x" of a byte is two characters |
| Fmt.Hex2RoundTrip | support.c:46 | the two hex digits give back the byte |
| Fmt.Strftime | fwx.c:279-281 | strftime succeeds exactly when the text and its NUL fit in max bytes |
| Gust.TenMin | fwx.c:445 | tenmin = 600/interval + 1 lies in 1..601 |
| Gust.RingLength | fwx.c:445-449 | the shift loop yields the smallest power of two strictly greater than tenmin |
| Gust.EarliestMaxUnique | fwx.c:461-468 | a window has at most one earliest maximum |
| Gust.Wrap | fwx.c:458-463 | x & (len-1) is x mod len, one subtraction when x < 2*len |
| Gust.GustTracker.constructor | fwx.c:433-436 | the statics start at zero with no history |
| Gust.GustTracker.SlotDistance | fwx.c:460-463 | slot (f+i) & (walen-1) was written walen - tenmin + i saves ago |
| Gust.GustTracker.Window | fwx.c:459-463 | the window is the newest tenmin observations |
| Gust.GustTracker.SlotHoldsWindow | fwx.c:460-463 | the i-th slot the scan visits holds the i-th oldest observation of the window |
| Gust.GustTracker.Scan | fwx.c:459-468 | found is unassigned iff no window speed exceeds 0; otherwise it is a slot holding the window's earliest maximum |
| Gust.GustTracker.ScanSlots | fwx.c:461-468 | the loop with strict > over the slots finds the earliest maximum |
| Gust.GustTracker.CalcWindGust | fwx.c:431-470 | the first call sizes the ring (a power of two, tenmin < walen <= 2 tenmin) and zero-fills it; the cursor advances by one mod walen; each call appends the observation to the history; the gust is the earliest maximum of the newest tenmin observations, or none when all are 0 |
| Gust.GustTracker.Save | fwx.c:457-458 | the observation goes to slot waidx, the cursor advances mod walen, and the ring invariant holds again |
| Decode.ReadingRule | fwx.c:521-526 | a decoded field is valid exactly when its filter passes, and then carries the value, the place count and the unit bit; otherwise only its unit label changes |
| Decode.DewpointOf | fwx.c:388-427 | the dewpoint is untouched when the outdoor temperature or humidity is invalid or the formula gives NaN; otherwise it is stored with VALID, 1 place and the unit chosen by outdoorhum's ENGLISH bit |
| Decode.CalcDewpoint | fwx.c:380-428 | the method agrees with DewpointOf |
| Decode.SixteenBitRules | fwx.c:521-614 | barometer (3 places, English), rain rate, day, month and year (2 places) and solar (int, METRIC) are valid iff the raw 16-bit value is not 0xFFFF, with those values |
| Decode.BarometerRainRules | fwx.c:521-602 | the same for barometer, rain rate and rain day |
| Decode.LongRainSolarRules | fwx.c:590-614 | the same for rain month, rain year and solar |
| Decode.WindRules | fwx.c:527-559 | wind speed and 10-minute average are valid iff the byte is not 0xFF; direction is valid iff at most 360; windcur and windavg take the values that pass and keep the old ones otherwise |
| Decode.ClimateRules | fwx.c:560-583 | temperatures (1 place) are valid iff raw != 0x1000 and -1500 < raw < 1500; humidities iff raw != 0xFF and raw <= 100; outdoor humidity is never ENGLISH |
| Decode.DewpointAfterDecode | fwx.c:394-426 | after decoding, a stored dewpoint is always "deg C" with VALID\|METRIC\|1 |
| Decode.AllOnesRecord | fwx.c:521-615 | an all-0xFF record leaves every field invalid except both temperatures, which decode as -0.1 natively and stay invalid in the swapped build |
| Decode.ConvertLoop | fwx.c:515-621 | the decoded record is the specification's, the gust ring sees the decoded windcur, and the gust is the window's earliest maximum |
| Decode.ConvertFields | fwx.c:521-614 | the same, before the dewpoint |
| Decode.StoreGust | fwx.c:536-538 | the ring gets windcur, and only windgust changes |
| Decode.GustUntouched | fwx.c:536-614 | the fields decoded after the gust call do not depend on the gust |
| Decode.StoreWind | fwx.c:527-535 | matches the wind-observation specification |
| Decode.StoreWindReadings | fwx.c:539-559 | matches the wind-reading specification |
| Decode.StoreClimate | fwx.c:560-583 | matches the temperature and humidity specification |
| Decode.StoreRain | fwx.c:584-614 | matches the rain and solar specification |
| Transport.Flush | support.c:208-222 | a flush succeeds iff the script says so, and consumes only the flush script |
| Transport.SetTimeout | support.c:139-156 | the same for wxsettimeout |
| Transport.Write | support.c:286-295 | a complete write appends the data to what was sent; a failed one appends nothing |
| Transport.Read | support.c:186 | read returns -1 or at most n bytes, and consumes one script step |
| Transport.Time | support.c:176-198 | time() only advances the clock script |
| Serial.Store | support.c:186-197 | reading into bufp replaces exactly the bytes at the cursor |
| Serial.ReadLoop | support.c:181-199 | the read loop keeps the buffer length |
| Serial.WxRead | support.c:158-205 | the method agrees with its specification |
| Serial.ReadArgsChecked | support.c:166-174 | a timeout outside 1..30 or a length outside 1..256 gives -1 before any read |
| Serial.ReadLoopCount | support.c:181-204 | the loop returns -1 or a count between what was already read and len, and writes nothing |
| Serial.ReadLoopKeeps | support.c:181-204 | bytes past the returned count are untouched |
| Serial.ReadLoopStep | support.c:181-199 | one pass of the loop body: set the timeout, read, advance the cursor, recompute the budget |
| Serial.ReadBounds | support.c:158-205 | wxread returns -1 or 0..len, leaves bytes past the count alone, and sends nothing |
| Serial.ReadAtOnce | support.c:176-204 | a read that delivers everything returns len and the data |
| Serial.ReadShort | support.c:181-204 | a short read followed by an expired budget returns the short count, not an error |
| Serial.ReadFailure | support.c:186-190 | a read error returns -1 |
| Serial.ReplyAcceptedIff | support.c:248-256 | the reply is accepted iff resp[0] or resp[1] is CR or LF |
| Serial.WxWakeup | support.c:224-259 | the method agrees with its specification |
| Serial.WakeupSendsNewline | support.c:234-258 | a successful wakeup has sent exactly one newline; the result is 0 or -1 |
| Serial.WakeupFailsEarly | support.c:230-241 | a failed flush or newline write fails the wakeup before any read |
| Serial.WakeupShortReply | support.c:243-258 | a one-byte or empty reply is not rejected for being short |
| Serial.WxGetAck | support.c:261-279 | the method agrees with its specification |
| Serial.OneByte | support.c:269 | a one-byte wxread that gets a byte returns 1 with that byte |
| Serial.GetAckIff | support.c:267-277 | wxgetack succeeds iff ACK is among the first 5 bytes read; a sixth ACK is too late |
| Serial.GetAckReadError | support.c:269-272 | a read error fails at once |
| Serial.WxCmd | support.c:281-305 | the method agrees with its specification |
| Serial.CmdSucceeds | support.c:287-304 | wxcmd returns 0 iff the whole command was written and then acknowledged, and has then sent the command |
| Serial.GetAckLoopSent | support.c:262-279 | waiting for the ACK sends nothing and returns 0 or -1 |
| Serial.GetAckSent | support.c:262-279 | the same for wxgetack as called |
| Station.WakeupSent | support.c:230-258 | a wakeup sends nothing or one newline |
| Station.WakeupAttemptsSent | fwx.c:630-637 | up to four attempts send up to four newlines and end with 0 or -1 |
| Station.LoopCmd | davis.h:83 | the LOOP command is 8 bytes ending in LF |
| Station.IdentCmd | fwx.c:940 | the identification command is "WRD", 0x12, 0x4d, CR |
| Station.FetchSendsLoopCmd | fwx.c:630-641 | LOOP is sent after the wakeup newlines, whether or not a wakeup succeeded |
| Station.FetchChecked | fwx.c:639-665 | a record is decoded only after LOOP was acknowledged and the CRC over bytes 1..99 is 0 |
| Station.FetchWholeRecord | fwx.c:643-665 | a whole record with a good CRC is decoded |
| Station.FetchBadCrc | fwx.c:657-663 | a bad CRC drops the record |
| Station.FetchShortRecord | fwx.c:648-655 | a short read drops the record |
| Station.WxGetLoop | fwx.c:623-666 | without a record the sample and the ring are unchanged; with one the sample is decoded and the ring sees windcur |
| Station.Fetch | fwx.c:630-663 | the exchange agrees with its specification |
| Station.IdentSpec | fwx.c:933-961 | wxident returns -1 or a byte 0..255 |
| Station.WxIdent | fwx.c:932-961 | the method agrees with IdentSpec |
| Station.IdentNeedsWakeup | fwx.c:942-948 | four failed wakeups give -1, having sent only newlines |
| Station.IdentAnswer | fwx.c:950-960 | an acknowledged WRD followed by one byte returns that byte, and that byte is IDENT_VP, the one identification main accepts (fwx.c:232-238), exactly when it is 0x10 |
| CsvLog.UpToNul | fwx.c:370 | "%s" prints the longest NUL-free prefix |
| CsvLog.PrintedIsShown | fwx.c:292-370 | what "%s" prints of the buffer is the fields up to and including the first missing value's commas |
| CsvLog.ShownStops | fwx.c:295-370 | nothing after a missing value is printed |
| CsvLog.LineIsShown | fwx.c:290-370 | the logged line is the shown part plus a newline |
| CsvLog.ShownHeader | fwx.c:290 | the line starts "0,5,<time>," |
| CsvLog.VersionText | fwx.c:41-42 | the version prints as 0 and 5 |
| CsvLog.SplitShown | fwx.c:292-368 | splitting an all-valid line at commas gives back each field's text |
| CsvLog.MeasurementsValued | fwx.c:292-368 | with every field valid there are 14 measurement columns, all values |
| CsvLog.AllValidLine | fwx.c:290-370 | with every field valid the line is 17 comma-terminated fields starting "0,5,<time>," |
| CsvLog.HeaderTexts | fwx.c:290 | the first three fields are "0", "5" and the time |
| CsvLog.MissingBarometer | fwx.c:290-296 | a missing barometer gives "0,5,<time>,,\n" |
| CsvLog.MissingWindSpeed | fwx.c:290-306 | a missing wind speed after a valid barometer gives the barometer and then two commas |
| CsvLog.ShownAfterBarometer | fwx.c:297-368 | nothing after the missing wind speed shows |
| CsvLog.LogFileName | fwx.c:276-282 | the path built agrees with LogPath, the terminator test included |
| CsvLog.PathAlwaysAddsSlash | fwx.c:276-282 | the path is logdir + "/" + the date name, so a trailing slash doubles |
| CsvLog.DateNameFits | fwx.c:279-281 | for a four-digit year the name is 14 characters and fits |
| CsvLog.PutFloat | fwx.c:292-296 | a "%.Nf," column or ",\0" is appended |
| CsvLog.PutWind | fwx.c:297-306 | the speed, and the direction only when the speed is valid, or ",,\0" |
| CsvLog.PutSolar | fwx.c:364-368 | the "%d," solar column or ",\0" |
| CsvLog.PutMeasurements | fwx.c:292-368 | the buffer gets the 14 columns in wxlog's order |
| CsvLog.WxLog | fwx.c:270-377 | the path is LogPath; the line is appended only when fopen succeeds, and is what "%s\n" prints of the buffer |
| Uplink.SplitQuery | fwx.c:682-718 | splitting a clean query at '&' gives its key=value pairs |
| Uplink.QueryRoundTrip | fwx.c:682-718 | parsing a query gives back its parameters |
| Uplink.Opt | fwx.c:690-692 | a conditional parameter is present iff its condition holds |
| Uplink.SentFrom | fwx.c:697-717 | a parameter is sent iff one of the conditional blocks holds it with a true condition |
| Uplink.SentHas | fwx.c:697-717 | with distinct keys, a key appears with value v iff its condition holds and v is its value |
| Uplink.Reading | fwx.c:689-717 | every reading's value is a number text under its own key |
| Uplink.Candidates | fwx.c:689-717 | there are 11 conditional readings |
| Uplink.ReadingsWind | fwx.c:689-696 | windspeedmph and windgustmph always; winddir iff windcur.speed != 0; windgustdir iff WU and the gust != 0 |
| Uplink.ReadingsTempRain | fwx.c:697-708 | tempf (.1), rainin and dailyrainin (.2) and baromin (.3) iff valid |
| Uplink.ReadingsHumidSolar | fwx.c:709-717 | humidity (.0), dewptf (.1) and solarradiation (%d) iff valid |
| Uplink.ReadingKeysDistinct | fwx.c:689-717 | the reading keys are pairwise distinct |
| Uplink.WuCommand | fwx.c:678-681 | WU sends nothing iff the station ID or password is empty |
| Uplink.AerisCommand | fwx.c:884-887 | the same for PWSweather |
| Uplink.GustDirection | fwx.c:893-902 | PWSweather never gets windgustdir; WU gets it iff the gust is non-zero |
| Uplink.DateTextLength | fwx.c:687 | "%Y-%m-%d" is 10 characters for a four-digit year |
| Uplink.ClockTextLength | fwx.c:687 | "%H%%3A%M%%3A%S" is 12 characters |
| Uplink.DateSpaces | fwx.c:687 | WU's timestamp uses "%20" (25 characters) and PWSweather's "+" (23), and both fit strftime's 32 bytes |
| Uplink.PutCandidate | fwx.c:697-699 | a conditional "&key=value" is appended iff its condition holds |
| Uplink.PutWind | fwx.c:689-696 | the wind parameters are appended |
| Uplink.PutTempRain | fwx.c:697-708 | the temperature, rain and barometer parameters are appended |
| Uplink.PutHumidDew | fwx.c:709-714 | the humidity and dewpoint parameters are appended |
| Uplink.PutReadings | fwx.c:689-717 | all eleven readings are appended in order |
| Uplink.PutFixed | fwx.c:683-688 | an unconditional parameter is appended |
| Uplink.PutWuHead | fwx.c:682-688 | WU's query starts with action, realtime, rtfreq, ID, PASSWORD, dateutc and softwaretype |
| Uplink.PutWuLogin | fwx.c:684-688 | the password, timestamp and software parameters are appended |
| Uplink.WxSendWu | fwx.c:671-720 | the method agrees with WuCommand |
| Uplink.PutAerisHead | fwx.c:888-892 | PWSweather's query starts with ID, PASSWORD and dateutc |
| Uplink.PutAerisTrailer | fwx.c:924 | it ends with softwaretype and action |
| Uplink.WxSendAeris | fwx.c:877-930 | the method agrees with AerisCommand |
| Uplink.ReadingsClean | fwx.c:689-717 | no reading key or value holds '&', and no key holds '=' |
| Uplink.DateClean | fwx.c:687 | the timestamp holds no '&' |
| Uplink.SoftwareClean | fwx.c:688 | the software type holds no '&' |
| Uplink.WuHeadClean | fwx.c:682-688 | WU's fixed parameters are clean when the credentials hold no '&' |
| Uplink.WuRoundTrip | fwx.c:682-718 | WU's query parses back to its parameters |
| Uplink.AerisFixedClean | fwx.c:888-924 | PWSweather's fixed parameters are clean |
| Uplink.AerisRoundTrip | fwx.c:888-924 | PWSweather's query parses back to its parameters |
| Cwop.NearbyIntNearest | fwx.c:832-850 | nearbyintf of value*num/den is within half a unit of the exact product |
| Cwop.Padded | fwx.c:830-856 | a zero-padded field of width w reads back as its number |
| Cwop.TaggedRoundTrip | fwx.c:845-851 | "P%03d" and "b%05d" read back |
| Cwop.TempRoundTrip | fwx.c:832-837 | "t-%02d" / "t%03d" is 4 characters and reads back for -99..999 |
| Cwop.SolarRoundTrip | fwx.c:853-857 | "l%03d" of value-1000 above 999, else "L%03d", is 4 characters and reads back for 0..1999 |
| Cwop.HumRoundTrip | fwx.c:847-848 | "h%02d" reads back as the humidity, or 0 when it is above 99 |
| Cwop.WindRoundTrip | fwx.c:830-831 | "_%03d/%03dg%03d" is 12 characters and reads back as direction, speed and gust |
| Cwop.WeatherRoundTrip | fwx.c:830-857 | the weather part is 41 characters and reads back as the report, with humidity 100 as 0 |
| Cwop.PacketFrame | fwx.c:826-859 | the packet starts with the call sign and ends with "wfwx\r\n" |
| Cwop.StampFits | fwx.c:827-828 | the DHM-zulu stamp is ">APRS,TCPIP*:@DDHHMM", 20 characters |
| Cwop.PutWeather | fwx.c:830-857 | the weather part is built from the rounded fields |
| Cwop.PutTemp | fwx.c:832-837 | the temperature field is appended |
| Cwop.PutSolar | fwx.c:853-857 | the solar field is appended |
| Cwop.BuildPacket | fwx.c:826-859 | the method builds Packet |
| Cwop.SendSpec | fwx.c:768-873 | lasthere either stays or becomes now |
| Cwop.SendGuards | fwx.c:768-780 | anything is sent only with server, user and location set and 300 s since lasthere, and the login line comes first; lasthere moves only when login and packet went out |
| Cwop.RateLimited | fwx.c:776-780 | after an upload at now, any call before now + 300 sends nothing |
| Cwop.FailureRetries | fwx.c:866-873 | a failed packet write leaves lasthere, so the next call tries again |
| Cwop.Sender.constructor | fwx.c:757 | lasthere starts at 0 |
| Cwop.Sender.Send | fwx.c:755-875 | what is written and the new lasthere are SendSpec's |
| Dump.DeviceName | support.c:77-84 | a name starting with '/' is used as is; otherwise "/dev/" is prefixed |
| Dump.Cell | support.c:38-50 | one byte is "0x" + two hex digits + " " |
| Dump.Cells | support.c:58-66 | n bytes make 5n characters |
| Dump.DumpLength | support.c:53-67 | the dump is 5 characters a byte plus one newline per line |
| Dump.UndumpCells | support.c:46 | cells read back as their bytes |
| Dump.DumpRoundTrip | support.c:53-67 | reading the dump gives back the bytes |
| Dump.DumpAppend | support.c:58-66 | the dump of whole 16-byte lines followed by more is the two dumps joined |
| Dump.FlushLine | support.c:61-64 | ending a line appends its cells and a newline |
| Dump.DumpBuf | support.c:53-67 | the method builds DumpText |
| Config.SkipSpace | fwx.c:102-104 | what is left starts with a non-space |
| Config.SkipSpaceSuffix | fwx.c:102-104 | and is a suffix of the text |
| Config.SkipSpaceAll | fwx.c:102-107 | nothing is left iff the text is all white space |
| Config.Strncpy | fwx.c:108 | strncpy fills exactly len bytes |
| Config.TrimEnd | fwx.c:109-113 | what the trim leaves ends in a non-blank |
| Config.TrimEndPrefix | fwx.c:109-113 | it is a prefix, and everything cut off was NUL or white space |
| Config.TrimNuls | fwx.c:108-113 | strncpy's NUL padding comes off again |
| Config.ChkVarNone | fwx.c:94-107 | chkvar returns 0 iff the line does not start with the name or only white space follows it |
| Config.ChkVarValue | fwx.c:102-114 | a value taken is 1..len characters of what follows the white space, NUL-free, starting and ending in non-space |
| Config.ChkVarFits | fwx.c:107-113 | a value that fits is the rest of the line less trailing white space |
| Config.NoSeparator | fwx.c:94-104 | no separator is needed between name and value |
| Config.Chkvar | fwx.c:88-115 | returns 1 iff a value is taken; dst[0..len) is then the value NUL-padded, and otherwise dst is untouched |
| Config.TakeValue | fwx.c:108-113 | strncpy and the trim leave the value followed by NULs |
| Config.SkipLoop | fwx.c:102-104 | the loop stops at the first non-space |
| Config.CopyInto | fwx.c:108 | the copy loop leaves strncpy's result in dst |
| Config.TrimInPlace | fwx.c:109-113 | the backward loop overwrites the trailing blanks with NULs and stops at the value's last character |

## Left out

- `main` (fwx.c:117-267) is not modelled: getopt, the config-file loop, the stat of the log directory, daemon, rtprio and the SIGALRM/select timer. Only the per-cycle record (`WxTypes.NewCycle`) and the functions it calls are. The config loop appears only through `Config.Chkvar`.
- Floating point: values are exact fixed-point numbers. `%.Nf` rounds the exact value half to even, and `nearbyintf` rounds the exact rational. Where the float in C is not exactly representable (tenths and hundredths), a tie can round the other way.
- Cwop.NearbyIntNearest: the barometer is rounded from the exact product bar * 338.6389, not from the float product `bar * 33.86389 * 10`, so the last digit may differ on near-ties.
- The dewpoint's exp/log arithmetic and its °F/°C conversions are a function parameter (`DewFormula`). None stands for NaN.
- `wxcrc` is in crc.c, which is not part of this model. It is a function parameter of `Station.WxGetLoop`, applied to bytes 1..98 of the record and the byte after it.
- termios, ioctl and fcntl in `wxopen`, `wxsettimeout` and `wxflush` are script entries whose only outcome is success or failure. `open(2)` in `wxopen` is not modelled; only the device-name completion is (`Dump.DeviceName`).
- The network is left out: `system("/usr/bin/fetch …")`, sockets, `gethostbyname`/`inet_addr`, `connect` and `waitforsrv`. The uplinks produce the command text. The CWOP session is reduced to three outcomes (`Cwop.Net`) that decide what is written and when `lasthere` changes.
- gmtime and localtime are left out. The broken-down time (`Fmt.Tm`) is an input, and only the zero-padded strftime layouts are modelled.
- CsvLog.LogPath: when strftime does not fit, the model gives no path. C would then open whatever the buffer holds, and its contents are unspecified.
- The fixed buffer sizes are not modelled: `str[256]` in `wxsendcwop`, `str[2048]` in the uplinks and `FILENAME_MAX` in `wxlog`. Neither is the overflow a long call sign, location or log directory would cause. Strings are unbounded.
- Credentials are not URL-escaped. The query round-trip lemmas require station IDs and passwords without '&', as the code assumes.
- The malloc failure in `wxcalcwindgust` (fwx.c:450-453) is left out: allocation always succeeds.
- The `NOTYET` rain-hour code, the non-Vantage `loopdata_t` layout and the `DEBUG_*` blocks are left out, because they are compiled out.
- `dumpbuf` writes to a FILE stream. Only the text it produces is modelled.
- fopen in `wxlog` is a boolean input, and fclose errors are left out.
- WxTypes.AccessorsRoundTrip: the union `dat` is modelled as two independent members, `floatd` and `intd`. Setting one does not clobber the other, whereas in C it would reinterpret the same bytes. fwx reads each field through the member it was written with, and the zeroed record reads as 0 through either.
- Serial.ReadLoopKeeps: it states only that bytes past the returned count are untouched. It does not state that the bytes before it are the ones read; `Serial.ReadAtOnce` and `Serial.ReadShort` state that for single-read scripts.
- Station.WxGetLoop: on the ring's very first call, it does not restate the zero-filled history. `Decode.ConvertLoop` states it.
- Gust.TenMin: requires `interval > 0`, which fwx never checks. `fwxinterval` comes from `strtol` on the config line (fwx.c:149) or on `-i` (fwx.c:185). In C, an interval of 0 divides by zero at fwx.c:445 on the first decoded record. For -600 <= interval <= -301, the truncating `600 / interval` is -1, so tenmin is 0: the ring has two slots, the scan loop does not run, and `found` is returned unassigned. For -300 <= interval <= -1, tenmin is negative, and `while (i >>= 1)` at fwx.c:447-449 never ends, because an arithmetic shift stops at -1. Below -600, tenmin is 1, as for an interval above 600. None of these runs is modelled.
- Gust.GustTracker.CalcWindGust: requires `interval > 0` for the reason given under `Gust.TenMin`.
- Decode.ConvertLoop: requires `interval > 0` for the reason given under `Gust.TenMin`.
- Decode.ConvertFields: requires `interval > 0` for the reason given under `Gust.TenMin`.
- Decode.StoreGust: requires `interval > 0` for the reason given under `Gust.TenMin`.
- Station.WxGetLoop: requires `interval > 0` for the reason given under `Gust.TenMin`.
- Gust.GustTracker.CalcWindGust: when `found` is unassigned, C returns an indeterminate slot. The model returns None, and `Decode.ConvertLoop` then leaves the gust unconstrained.
