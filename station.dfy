/**
 * The two exchanges with the station in fwx.c: wxgetloop, which wakes the
 * console, asks for one LOOP record, checks it and decodes it, and wxident,
 * which asks for the station type byte.
 */
module Station {
  import opened Fmt
  import opened WxTypes
  import opened Davis
  import opened Gust
  import opened Decode
  import opened Transport
  import opened Serial

  /**
   * wxcrc, whose body (crc.c) is not part of this model: the CRC-CCITT
   * check of the bytes it is given, 0 when they check.
   */
  type Crc = seq<Byte> -> int

  /** How many times both exchanges try to wake the console. */
  const WakeupTries: nat := 4

  /**
   * Up to n wakeups, stopping at the first that succeeds: its outcome, or
   * -1 with the transport after the last failure.
   */
  function WakeupAttempts(e: Env, n: nat): (o: Outcome)
    decreases n
  {
    if n == 0 then Outcome(-1, e)
    else
      var w := WakeupSpec(e);
      if w.rc == 0 then w else WakeupAttempts(w.env, n - 1)
  }

  /** A newline sent `k` times. */
  function Newlines(k: nat): (s: seq<Byte>)
    ensures |s| == k && forall i :: 0 <= i < k ==> s[i] == LF
  {
    seq(k, _ => LF)
  }

  /** One wakeup puts at most one byte on the line, and that byte is a newline. */
  lemma WakeupSent(e: Env)
    ensures WakeupSpec(e).env.sent == e.sent || WakeupSpec(e).env.sent == e.sent + [LF]
  {
    var (ok, e1) := Flush(e);
    if ok {
      var (wrc, e2) := Write(e1, [LF]);
      assert e2.sent == e.sent || e2.sent == e.sent + [LF];
      if wrc == 1 {
        ReadBounds(e2, [e2.junk, e2.junk], 5);
      }
    }
  }

  /**
   * The wakeup attempts put nothing but newlines on the line, one per
   * attempt at most; they succeed only by a wakeup that succeeded.
   */
  lemma {:induction false} WakeupAttemptsSent(e: Env, n: nat)
    ensures exists k :: 0 <= k <= n && WakeupAttempts(e, n).env.sent == e.sent + Newlines(k)
    ensures WakeupAttempts(e, n).rc == 0 || WakeupAttempts(e, n).rc == -1
    decreases n
  {
    if n == 0 {
      assert e.sent + Newlines(0) == e.sent;
    } else {
      var w := WakeupSpec(e);
      WakeupSent(e);
      WakeupSendsNewline(e);
      var k0: nat := if w.env.sent == e.sent then 0 else 1;
      assert w.env.sent == e.sent + Newlines(k0);
      if w.rc != 0 {
        WakeupAttemptsSent(w.env, n - 1);
        var k :| 0 <= k <= n - 1 && WakeupAttempts(w.env, n - 1).env.sent == w.env.sent + Newlines(k);
        assert Newlines(k0) + Newlines(k) == Newlines(k0 + k);
        assert WakeupAttempts(e, n).env.sent == e.sent + Newlines(k0 + k);
      }
    }
  }

  /** The LOOP command on the wire. */
  function LoopCmd(): (b: seq<Byte>)
    ensures |b| == |VpLoopCmd| && b[|b| - 1] == LF
  {
    AsBytes(VpLoopCmd)
  }

  /** "WRD" 0x12 0x4d CR: read the station type byte. */
  function IdentCmd(): (b: seq<Byte>)
    ensures |b| == 6 && b[..3] == [0x57, 0x52, 0x44] && b[3..] == [0x12, 0x4d, CR]
  {
    AsBytes("WRD") + [0x12, 0x4d, CR]
  }

  /**
   * The transport half of wxgetloop: four wakeup tries whose outcome is not
   * looked at, the LOOP command, a read of one record into the uninitialised
   * `ld` with a 10-second budget, and the CRC over the bytes from ld + 1,
   * `past` standing for the byte after the record that the check also takes
   * in.  The record, when one survives all of it.
   */
  function FetchLoop(e: Env, crc: Crc, past: Byte): (r: (Option<LoopRecord>, Env))
  {
    var w := WakeupAttempts(e, WakeupTries);
    var c := CmdSpec(w.env, LoopCmd());
    if c.rc != 0 then (None, c.env)
    else
      var rd := WxReadSpec(c.env, seq(LoopSize, _ => c.env.junk), 10);
      ReadBounds(c.env, seq(LoopSize, _ => c.env.junk), 10);
      if rd.rc == -1 then (None, rd.env)
      else if rd.rc != LoopSize then (None, rd.env)
      else if crc(rd.buf[1..] + [past]) != 0 then (None, rd.env)
      else (Some(rd.buf), rd.env)
  }

  /**
   * The LOOP command goes out after the wakeup tries whether or not any of
   * them succeeded; before it, only newlines reach the line.
   */
  lemma FetchSendsLoopCmd(e: Env, crc: Crc, past: Byte)
    requires CmdSpec(WakeupAttempts(e, WakeupTries).env, LoopCmd()).rc == 0
    ensures exists k :: 0 <= k <= WakeupTries && FetchLoop(e, crc, past).1.sent == e.sent + Newlines(k) + LoopCmd()
  {
    var w := WakeupAttempts(e, WakeupTries);
    WakeupAttemptsSent(e, WakeupTries);
    var k :| 0 <= k <= WakeupTries && w.env.sent == e.sent + Newlines(k);
    CmdSucceeds(w.env, LoopCmd());
    var c := CmdSpec(w.env, LoopCmd());
    ReadBounds(c.env, seq(LoopSize, _ => c.env.junk), 10);
    assert FetchLoop(e, crc, past).1.sent == e.sent + Newlines(k) + LoopCmd();
  }

  /** A record is handed on only after the CRC over it (shifted by one byte) checked. */
  lemma FetchChecked(e: Env, crc: Crc, past: Byte)
    ensures FetchLoop(e, crc, past).0.Some? ==> crc(FetchLoop(e, crc, past).0.value[1..] + [past]) == 0
    ensures FetchLoop(e, crc, past).0.Some? ==> CmdSpec(WakeupAttempts(e, WakeupTries).env, LoopCmd()).rc == 0
  {
  }

  /**
   * The ordinary exchange: whatever the wakeups did, once the command is
   * acknowledged and one read brings 99 bytes that check, they are the record.
   */
  lemma FetchWholeRecord(e: Env, crc: Crc, past: Byte, data: LoopRecord)
    requires var c := CmdSpec(WakeupAttempts(e, WakeupTries).env, LoopCmd());
      && c.rc == 0
      && |c.env.settimeouts| > 0 && c.env.settimeouts[0]
      && |c.env.input| > 0 && c.env.input[0] == Bytes(data)
    requires crc(data[1..] + [past]) == 0
    ensures FetchLoop(e, crc, past).0 == Some(data)
  {
    var c := CmdSpec(WakeupAttempts(e, WakeupTries).env, LoopCmd());
    ReadAtOnce(c.env, seq(LoopSize, _ => c.env.junk), 10, data);
  }

  /** A record whose CRC does not check is dropped. */
  lemma FetchBadCrc(e: Env, crc: Crc, past: Byte, data: seq<Byte>)
    requires var c := CmdSpec(WakeupAttempts(e, WakeupTries).env, LoopCmd());
      && c.rc == 0
      && |c.env.settimeouts| > 0 && c.env.settimeouts[0]
      && |c.env.input| > 0 && c.env.input[0] == Bytes(data)
    requires |data| == LoopSize && crc(data[1..] + [past]) != 0
    ensures FetchLoop(e, crc, past).0 == None
  {
    var c := CmdSpec(WakeupAttempts(e, WakeupTries).env, LoopCmd());
    ReadAtOnce(c.env, seq(LoopSize, _ => c.env.junk), 10, data);
  }

  /** A read that stops short when the 10 seconds run out gives no record. */
  lemma FetchShortRecord(e: Env, crc: Crc, past: Byte, data: seq<Byte>)
    requires var c := CmdSpec(WakeupAttempts(e, WakeupTries).env, LoopCmd());
      && c.rc == 0
      && |c.env.settimeouts| > 0 && c.env.settimeouts[0]
      && |c.env.input| > 0 && c.env.input[0] == Bytes(data)
      && |c.env.ticks| >= 2 && c.env.ticks[1] >= c.env.ticks[0] + 10
    requires |data| < LoopSize
    ensures FetchLoop(e, crc, past).0 == None
  {
    var c := CmdSpec(WakeupAttempts(e, WakeupTries).env, LoopCmd());
    ReadShort(c.env, seq(LoopSize, _ => c.env.junk), 10, data);
  }

  /**
   * wxgetloop: try to wake the console four times, send LOOP, read and
   * check the record; only a record that survives is decoded, and so only
   * then does the gust ring see an observation.
   */
  method WxGetLoop(e: Env, d: WxDat, build: Build, ring: GustTracker, interval: int,
                   dew: DewFormula, crc: Crc, past: Byte)
    returns (r: WxDat, env: Env)
    requires ring.Valid() && interval > 0
    modifies ring, ring.warr
    ensures env == FetchLoop(e, crc, past).1
    ensures ring.Valid()
    ensures FetchLoop(e, crc, past).0.None? ==>
      r == d && unchanged(ring) && unchanged(ring.warr) && ring.History == old(ring.History)
    ensures FetchLoop(e, crc, past).0.Some? ==>
      var ld := FetchLoop(e, crc, past).0.value;
      && ring.walen > 0
      && (old(ring.walen) != 0 ==> ring.History == old(ring.History) + [DecodeFields(ld, d, build).windcur])
      && r == Converted(ld, d, build, r.windgust, dew)
      && forall k :: IsEarliestMax(ring.Window(), k) ==> r.windgust == ring.Window()[k]
  {
    var ld;
    ld, env := Fetch(e, crc, past);
    r := d;
    if ld.Some? {
      r := ConvertLoop(ld.value, d, build, ring, interval, dew);
    }
  }

  /** The exchange of wxgetloop up to the decoding, statement by statement. */
  method Fetch(e: Env, crc: Crc, past: Byte) returns (ld: Option<LoopRecord>, env: Env)
    ensures (ld, env) == FetchLoop(e, crc, past)
  {
    ld := None;
    env := e;
    var i := 0;
    while i < WakeupTries
      invariant 0 <= i <= WakeupTries
      invariant WakeupAttempts(env, WakeupTries - i) == WakeupAttempts(e, WakeupTries)
    {
      var o := WxWakeup(env);
      env := o.env;
      if o.rc == 0 {
        assert env == WakeupAttempts(e, WakeupTries).env;
        break;
      }
      i := i + 1;
    }
    assert env == WakeupAttempts(e, WakeupTries).env;
    var c := WxCmd(env, LoopCmd());
    env := c.env;
    if c.rc != 0 {
      return;
    }
    var buf := seq(LoopSize, _ => env.junk);
    var rd := WxRead(env, buf, 10);
    ReadBounds(env, buf, 10);
    env := rd.env;
    if rd.rc == -1 {
      return;
    }
    if rd.rc != LoopSize {
      return;
    }
    if crc(rd.buf[1..] + [past]) != 0 {
      return;
    }
    ld := Some(rd.buf);
  }

  /**
   * wxident: wake the console (four tries, giving up with -1), send the
   * WRD command, and read the one-byte answer with a 5-second budget into
   * the uninitialised `ident`; the answer, or -1.
   */
  function IdentSpec(e: Env): (o: Outcome)
    ensures o.rc == -1 || 0 <= o.rc < 256
  {
    var w := WakeupAttempts(e, WakeupTries);
    if w.rc != 0 then Outcome(-1, w.env)
    else
      var c := CmdSpec(w.env, IdentCmd());
      if c.rc == -1 then Outcome(-1, c.env)
      else
        var rd := WxReadSpec(c.env, [c.env.junk], 5);
        ReadBounds(c.env, [c.env.junk], 5);
        if rd.rc != 1 then Outcome(-1, rd.env) else Outcome(rd.buf[0], rd.env)
  }

  method WxIdent(e: Env) returns (o: Outcome)
    ensures o == IdentSpec(e)
  {
    var env := e;
    var i := 0;
    while true
      invariant 0 <= i <= WakeupTries
      invariant WakeupAttempts(env, WakeupTries - i) == WakeupAttempts(e, WakeupTries)
      decreases WakeupTries - i
    {
      i := i + 1;
      if i > WakeupTries {
        return Outcome(-1, env);
      }
      var w := WxWakeup(env);
      env := w.env;
      if w.rc == 0 {
        assert WakeupAttempts(e, WakeupTries) == w;
        break;
      }
    }
    var c := WxCmd(env, IdentCmd());
    if c.rc == -1 {
      return Outcome(-1, c.env);
    }
    env := c.env;
    var ident := env.junk;
    var rd := WxRead(env, [ident], 5);
    ReadBounds(env, [ident], 5);
    if rd.rc != 1 {
      return Outcome(-1, rd.env);
    }
    return Outcome(rd.buf[0], rd.env);
  }

  /**
   * Unlike wxgetloop, wxident sends no command to a console that did not
   * wake: after four failed wakeups only newlines have gone out.
   */
  lemma IdentNeedsWakeup(e: Env)
    requires WakeupAttempts(e, WakeupTries).rc != 0
    ensures IdentSpec(e).rc == -1
    ensures exists k :: 0 <= k <= WakeupTries && IdentSpec(e).env.sent == e.sent + Newlines(k)
  {
    WakeupAttemptsSent(e, WakeupTries);
  }

  /**
   * A woken, acknowledging console whose next byte is b is identified as b,
   * and main accepts it (a Vantage Pro or Pro2) exactly when b is IDENT_VP.
   */
  lemma IdentAnswer(e: Env, b: Byte)
    requires WakeupAttempts(e, WakeupTries).rc == 0
    requires var c := CmdSpec(WakeupAttempts(e, WakeupTries).env, IdentCmd());
      && c.rc == 0
      && |c.env.settimeouts| > 0 && c.env.settimeouts[0]
      && |c.env.input| > 0 && c.env.input[0] == Bytes([b])
    ensures IdentSpec(e).rc == b
    ensures IdentSpec(e).rc == IdentVp <==> b == IdentVp
  {
    var c := CmdSpec(WakeupAttempts(e, WakeupTries).env, IdentCmd());
    ReadAtOnce(c.env, [c.env.junk], 5, [b]);
  }
}
