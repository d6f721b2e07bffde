/**
 * support.c: reading with a deadline (wxread), waking the console
 * (wxwakeup), waiting for its ACK (wxgetack) and sending a command (wxcmd),
 * over the scripted transport.
 */
module Serial {
  import opened Fmt
  import opened Transport

  /** MAX_TIMEOUT: the longest time, in seconds, the station takes to transmit. */
  const MaxTimeout: int := 30
  /** MAX_READ: the longest reply the station sends. */
  const MaxRead: int := 256
  /** ACK: the byte the station acknowledges a command with. */
  const Ack: Byte := 0x06

  /** What wxread returns, the caller's buffer after it, and the transport after it. */
  datatype ReadResult = ReadResult(rc: int, buf: seq<Byte>, env: Env)

  /** The bytes `data` stored at offset `off` of `buf`, the rest of `buf` left as it was. */
  function Store(buf: seq<Byte>, off: nat, data: seq<Byte>): (b: seq<Byte>)
    requires off + |data| <= |buf|
    ensures |b| == |buf| && b[..off] == buf[..off] && b[off + |data|..] == buf[off + |data|..]
    ensures b[off..off + |data|] == data
  {
    buf[..off] + data + buf[off + |data|..]
  }

  /**
   * The loop of wxread from a given state: set the timeout, read into
   * buf + (len - remaining) at most `remaining` bytes, and recompute the
   * time left until `expire`.
   */
  function ReadLoop(e: Env, buf: seq<Byte>, remaining: int, timeout: int, expire: int): (r: ReadResult)
    requires 0 <= remaining <= |buf|
    ensures |r.buf| == |buf|
    decreases |e.input|
  {
    if !(remaining > 0 && timeout > 0) then ReadResult(|buf| - remaining, buf, e)
    else
      var (ok, e1) := SetTimeout(e);
      if !ok then ReadResult(-1, buf, e1)
      else
        var (rc, data, e2) := Read(e1, remaining);
        if rc == -1 then ReadResult(-1, buf, e2)
        else
          var (t, e3) := Time(e2);
          ReadLoop(e3, Store(buf, |buf| - remaining, data), remaining - rc, expire - t, expire)
  }

  /** wxread(fd, buf, len, timeout) with a caller buffer of `len` bytes. */
  function WxReadSpec(e: Env, buf: seq<Byte>, timeout: int): ReadResult
  {
    var len := |buf|;
    if timeout <= 0 || timeout > MaxTimeout || len == 0 || len > MaxRead then ReadResult(-1, buf, e)
    else
      var (now, e1) := Time(e);
      ReadLoop(e1, buf, len, timeout, now + timeout)
  }

  /** wxread, statement by statement. */
  method WxRead(e: Env, buf0: seq<Byte>, timeout0: int) returns (r: ReadResult)
    ensures r == WxReadSpec(e, buf0, timeout0)
  {
    var len := |buf0|;
    if timeout0 <= 0 || timeout0 > MaxTimeout {
      return ReadResult(-1, buf0, e);
    }
    if len == 0 || len > MaxRead {
      return ReadResult(-1, buf0, e);
    }
    var env := e;
    var now;
    now, env := Time(env).0, Time(env).1;
    var expire := now + timeout0;
    var timeout := timeout0;
    var remaining := len;
    var buf := buf0;
    while remaining > 0 && timeout > 0
      invariant 0 <= remaining <= len == |buf|
      invariant ReadLoop(env, buf, remaining, timeout, expire) == WxReadSpec(e, buf0, timeout0)
      decreases |env.input|
    {
      var ok;
      ok, env := SetTimeout(env).0, SetTimeout(env).1;
      if !ok {
        return ReadResult(-1, buf, env);
      }
      var rc, data;
      rc, data, env := Read(env, remaining).0, Read(env, remaining).1, Read(env, remaining).2;
      if rc == -1 {
        return ReadResult(-1, buf, env);
      }
      buf := Store(buf, len - remaining, data);
      remaining := remaining - rc;
      var t;
      t, env := Time(env).0, Time(env).1;
      timeout := expire - t;
    }
    r := ReadResult(len - remaining, buf, env);
  }

  /** Out-of-range arguments: -1 before anything is read, buffer and transport untouched. */
  lemma ReadArgsChecked(e: Env, buf: seq<Byte>, timeout: int)
    requires timeout <= 0 || timeout > MaxTimeout || |buf| == 0 || |buf| > MaxRead
    ensures WxReadSpec(e, buf, timeout) == ReadResult(-1, buf, e)
  {
  }

  /**
   * What the loop can return: -1 or the count of bytes read (short and
   * empty results included); it never writes to the port.
   */
  lemma {:induction false} ReadLoopCount(e: Env, buf: seq<Byte>, remaining: int, timeout: int, expire: int)
    requires 0 <= remaining <= |buf|
    ensures var r := ReadLoop(e, buf, remaining, timeout, expire);
      && |r.buf| == |buf|
      && (r.rc == -1 || |buf| - remaining <= r.rc <= |buf|)
      && r.env.sent == e.sent && r.env.writes == e.writes && r.env.flushes == e.flushes
    decreases |e.input|
  {
    if remaining > 0 && timeout > 0 {
      var (ok, e1) := SetTimeout(e);
      if ok {
        var (rc, data, e2) := Read(e1, remaining);
        if rc != -1 {
          var (t, e3) := Time(e2);
          var b := Store(buf, |buf| - remaining, data);
          assert ReadLoop(e, buf, remaining, timeout, expire) == ReadLoop(e3, b, remaining - rc, expire - t, expire);
          ReadLoopCount(e3, b, remaining - rc, expire - t, expire);
        }
      }
    }
  }

  /** Past the count it returns, the loop leaves the buffer as it was. */
  lemma {:induction false} ReadLoopKeeps(e: Env, buf: seq<Byte>, remaining: int, timeout: int, expire: int)
    requires 0 <= remaining <= |buf|
    ensures var r := ReadLoop(e, buf, remaining, timeout, expire);
      r.rc >= 0 ==> forall i :: r.rc <= i < |buf| ==> r.buf[i] == buf[i]
    decreases |e.input|
  {
    if remaining > 0 && timeout > 0 && SetTimeout(e).0 && Read(SetTimeout(e).1, remaining).0 != -1 {
      var rd := Read(SetTimeout(e).1, remaining);
      var tm := Time(rd.2);
      var b := Store(buf, |buf| - remaining, rd.1);
      var rem := remaining - rd.0;
      ReadLoopStep(e, buf, remaining, timeout, expire);
      StoreKeeps(buf, |buf| - remaining, rd.1);
      ReadLoopKeeps(tm.1, b, rem, expire - tm.0, expire);
      ReadLoopCount(tm.1, b, rem, expire - tm.0, expire);
    }
  }

  /** One round of the loop: a successful read is stored and the loop goes on from there. */
  lemma ReadLoopStep(e: Env, buf: seq<Byte>, remaining: int, timeout: int, expire: int)
    requires 0 <= remaining <= |buf| && remaining > 0 && timeout > 0 && SetTimeout(e).0
    requires Read(SetTimeout(e).1, remaining).0 != -1
    ensures var rd := Read(SetTimeout(e).1, remaining);
      var tm := Time(rd.2);
      ReadLoop(e, buf, remaining, timeout, expire)
        == ReadLoop(tm.1, Store(buf, |buf| - remaining, rd.1), remaining - rd.0, expire - tm.0, expire)
  {
  }

  /** Storing at an offset keeps every byte after the stored range. */
  lemma StoreKeeps(buf: seq<Byte>, off: nat, data: seq<Byte>)
    requires off + |data| <= |buf|
    ensures forall i :: off + |data| <= i < |buf| ==> Store(buf, off, data)[i] == buf[i]
  {
    var b := Store(buf, off, data);
    forall i | off + |data| <= i < |buf|
      ensures b[i] == buf[i]
    {
      assert b[i] == b[off + |data|..][i - off - |data|];
    }
  }

  lemma ReadBounds(e: Env, buf: seq<Byte>, timeout: int)
    ensures var r := WxReadSpec(e, buf, timeout);
      && |r.buf| == |buf|
      && (r.rc == -1 || 0 <= r.rc <= |buf|)
      && (r.rc >= 0 ==> forall i :: r.rc <= i < |buf| ==> r.buf[i] == buf[i])
      && r.env.sent == e.sent
  {
    if !(timeout <= 0 || timeout > MaxTimeout || |buf| == 0 || |buf| > MaxRead) {
      var (now, e1) := Time(e);
      ReadLoopCount(e1, buf, |buf|, timeout, now + timeout);
      ReadLoopKeeps(e1, buf, |buf|, timeout, now + timeout);
    }
  }

  /** One read that delivers all `len` bytes: wxread returns len and the bytes. */
  lemma ReadAtOnce(e: Env, buf: seq<Byte>, timeout: int, data: seq<Byte>)
    requires 0 < timeout <= MaxTimeout && 0 < |buf| <= MaxRead
    requires |e.settimeouts| > 0 && e.settimeouts[0]
    requires |e.input| > 0 && e.input[0] == Bytes(data) && |data| == |buf|
    ensures WxReadSpec(e, buf, timeout).rc == |buf|
    ensures WxReadSpec(e, buf, timeout).buf == data
  {
    var (now, e1) := Time(e);
    var (ok, e2) := SetTimeout(e1);
    var (rc, d, e3) := Read(e2, |buf|);
    assert d == data;
    var (t, e4) := Time(e3);
    assert Store(buf, 0, data) == data;
    assert WxReadSpec(e, buf, timeout) == ReadLoop(e1, buf, |buf|, timeout, now + timeout);
    assert ReadLoop(e1, buf, |buf|, timeout, now + timeout) == ReadLoop(e4, data, 0, now + timeout - t, now + timeout);
  }

  /**
   * A short read followed by the deadline passing is not an error: wxread
   * returns the count it got, with the bytes at the front of the buffer.
   */
  lemma ReadShort(e: Env, buf: seq<Byte>, timeout: int, data: seq<Byte>)
    requires 0 < timeout <= MaxTimeout && 0 < |buf| <= MaxRead
    requires |e.settimeouts| > 0 && e.settimeouts[0]
    requires |e.input| > 0 && e.input[0] == Bytes(data) && |data| < |buf|
    requires |e.ticks| >= 2 && e.ticks[1] >= e.ticks[0] + timeout
    ensures WxReadSpec(e, buf, timeout).rc == |data|
    ensures WxReadSpec(e, buf, timeout).buf == data + buf[|data|..]
  {
    var (now, e1) := Time(e);
    var (ok, e2) := SetTimeout(e1);
    var (rc, d, e3) := Read(e2, |buf|);
    assert d == data;
    var (t, e4) := Time(e3);
    assert t == e.ticks[1] && now == e.ticks[0];
    var b := Store(buf, 0, data);
    assert b == data + buf[|data|..];
    assert WxReadSpec(e, buf, timeout) == ReadLoop(e1, buf, |buf|, timeout, now + timeout);
    assert ReadLoop(e1, buf, |buf|, timeout, now + timeout) == ReadLoop(e4, b, |buf| - |data|, now + timeout - t, now + timeout);
  }

  /** A failing read(2) makes wxread fail. */
  lemma ReadFailure(e: Env, buf: seq<Byte>, timeout: int)
    requires 0 < timeout <= MaxTimeout && 0 < |buf| <= MaxRead
    requires |e.settimeouts| > 0 && e.settimeouts[0]
    requires |e.input| > 0 && e.input[0] == Fail
    ensures WxReadSpec(e, buf, timeout).rc == -1
  {
  }

  /** The console's two reply characters. */
  const CR: Byte := 0x0d
  const LF: Byte := 0x0a

  /** The wakeup reply test: rejected only when neither order of CR and LF matches in either place. */
  predicate ReplyRejected(c0: Byte, c1: Byte)
  {
    (c0 != CR && c1 != LF) && (c0 != LF && c1 != CR)
  }

  /** The reply is accepted as soon as either byte is a CR or an LF, in either place. */
  lemma ReplyAcceptedIff(c0: Byte, c1: Byte)
    ensures !ReplyRejected(c0, c1) <==> c0 == CR || c0 == LF || c1 == CR || c1 == LF
  {
  }

  /** What a call returns to its caller, and the transport after it. */
  datatype Outcome = Outcome(rc: int, env: Env)

  /**
   * wxwakeup: flush, send one newline, read two bytes with a 5-second
   * budget into `resp`, whose bytes start uninitialised, and check them.
   * The count wxread returns is not looked at, only whether it is -1.
   * One value, `junk`, stands for both uninitialised bytes: an empty read
   * is then accepted exactly when `junk` is CR or LF, so a script can reach
   * both outcomes of a read that fills nothing.
   */
  function WakeupSpec(e: Env): Outcome
  {
    var (ok, e1) := Flush(e);
    if !ok then Outcome(-1, e1)
    else
      var (wrc, e2) := Write(e1, [LF]);
      if wrc != 1 then Outcome(-1, e2)
      else
        var r := WxReadSpec(e2, [e2.junk, e2.junk], 5);
        if r.rc == -1 then Outcome(-1, r.env)
        else if |r.buf| != 2 || ReplyRejected(r.buf[0], r.buf[1]) then Outcome(-1, r.env)
        else Outcome(0, r.env)
  }

  method WxWakeup(e: Env) returns (o: Outcome)
    ensures o == WakeupSpec(e)
  {
    var ok, env := Flush(e).0, Flush(e).1;
    if !ok {
      return Outcome(-1, env);
    }
    var rc;
    rc, env := Write(env, [LF]).0, Write(env, [LF]).1;
    if rc != 1 {
      return Outcome(-1, env);
    }
    var resp := [env.junk, env.junk];
    var r := WxRead(env, resp, 5);
    if r.rc == -1 {
      return Outcome(-1, r.env);
    }
    resp := r.buf;
    ReadBounds(env, [env.junk, env.junk], 5);
    if ReplyRejected(resp[0], resp[1]) {
      return Outcome(-1, r.env);
    }
    return Outcome(0, r.env);
  }

  /** A successful wakeup has put exactly one newline on the line. */
  lemma WakeupSendsNewline(e: Env)
    ensures WakeupSpec(e).rc == 0 ==> WakeupSpec(e).env.sent == e.sent + [LF]
    ensures WakeupSpec(e).rc == 0 || WakeupSpec(e).rc == -1
  {
    var (ok, e1) := Flush(e);
    if ok {
      var (wrc, e2) := Write(e1, [LF]);
      if wrc == 1 {
        ReadBounds(e2, [e2.junk, e2.junk], 5);
      }
    }
  }

  /** A failing flush or newline write ends wxwakeup with -1 before anything is read. */
  lemma WakeupFailsEarly(e: Env)
    requires !Flush(e).0 || Write(Flush(e).1, [LF]).0 != 1
    ensures WakeupSpec(e).rc == -1
    ensures WakeupSpec(e).env.input == e.input
  {
  }

  /**
   * The count is not checked: a reply of one byte, CR, is accepted whatever
   * the uninitialised second byte holds, and so is an empty reply when the
   * uninitialised bytes happen to hold a newline.
   */
  lemma WakeupShortReply(e: Env, reply: seq<Byte>)
    requires Flush(e).0 && Write(Flush(e).1, [LF]).0 == 1
    requires var e2 := Write(Flush(e).1, [LF]).1;
      && |e2.settimeouts| > 0 && e2.settimeouts[0]
      && |e2.input| > 0 && e2.input[0] == Bytes(reply)
      && |e2.ticks| >= 2 && e2.ticks[1] >= e2.ticks[0] + 5
    requires reply == [CR] || (reply == [] && e.junk == LF)
    ensures WakeupSpec(e).rc == 0
  {
    var (ok, e1) := Flush(e);
    var (wrc, e2) := Write(e1, [LF]);
    ReadShort(e2, [e2.junk, e2.junk], 5, reply);
  }

  /**
   * The do-while of wxgetack from attempt `i`, with `ackbuf` holding what
   * the last read left in it: read one byte with a 1-second budget; fail on
   * a read error or once five attempts have been made; stop at an ACK.
   */
  function GetAckLoop(e: Env, i: int, ackbuf: Byte): Outcome
    requires 0 <= i <= 5
    decreases 5 - i
  {
    var r := WxReadSpec(e, [ackbuf], 1);
    if r.rc == -1 then Outcome(-1, r.env)
    else if i >= 5 then Outcome(-1, r.env)
    else
      var b := if |r.buf| == 1 then r.buf[0] else ackbuf;
      if b != Ack then GetAckLoop(r.env, i + 1, b) else Outcome(0, r.env)
  }

  /** wxgetack: `ackbuf` starts uninitialised. */
  function GetAckSpec(e: Env): Outcome
  {
    GetAckLoop(e, 0, e.junk)
  }

  method WxGetAck(e: Env) returns (o: Outcome)
    ensures o == GetAckSpec(e)
  {
    var i := 0;
    var ackbuf := e.junk;
    var env := e;
    while true
      invariant 0 <= i <= 5
      invariant GetAckLoop(env, i, ackbuf) == GetAckSpec(e)
      decreases 5 - i
    {
      var r := WxRead(env, [ackbuf], 1);
      if r.rc == -1 {
        return Outcome(-1, r.env);
      }
      ReadBounds(env, [ackbuf], 1);
      ackbuf := r.buf[0];
      env := r.env;
      var attempt := i;
      i := i + 1;
      if attempt >= 5 {
        return Outcome(-1, env);
      }
      if ackbuf == Ack {
        return Outcome(0, env);
      }
    }
  }

  /** The transport after one wxread of one byte that got its byte at the first read. */
  function AfterByte(e: Env): Env
  {
    var e1 := Time(e).1;
    var e2 := SetTimeout(e1).1;
    var e3 := Read(e2, 1).2;
    Time(e3).1
  }

  /** The next |bs| one-byte wxread calls each deliver the next byte of bs. */
  predicate DeliversBytes(e: Env, bs: seq<Byte>)
    decreases |bs|
  {
    |bs| == 0 ||
    (&& |e.settimeouts| > 0 && e.settimeouts[0]
     && |e.input| > 0 && e.input[0] == Bytes([bs[0]])
     && DeliversBytes(AfterByte(e), bs[1..]))
  }

  lemma OneByte(e: Env, x: Byte, b: Byte)
    requires |e.settimeouts| > 0 && e.settimeouts[0]
    requires |e.input| > 0 && e.input[0] == Bytes([b])
    ensures WxReadSpec(e, [x], 1) == ReadResult(1, [b], AfterByte(e))
  {
    ReadAtOnce(e, [x], 1, [b]);
    ReadLoopCount(Time(e).1, [x], 1, 1, Time(e).0 + 1);
  }

  /**
   * When every read delivers a byte, wxgetack succeeds exactly when an ACK
   * is among the bytes of the first five reads; an ACK in the sixth comes
   * too late.
   */
  lemma {:induction false} GetAckIff(e: Env, i: int, ackbuf: Byte, bs: seq<Byte>)
    requires 0 <= i <= 5 && |bs| == 6 - i && DeliversBytes(e, bs)
    ensures GetAckLoop(e, i, ackbuf).rc == 0 <==> exists j :: 0 <= j < 5 - i && bs[j] == Ack
    decreases 5 - i
  {
    OneByte(e, ackbuf, bs[0]);
    if i < 5 && bs[0] != Ack {
      GetAckIff(AfterByte(e), i + 1, bs[0], bs[1..]);
      if exists j :: 0 <= j < 5 - (i + 1) && bs[1..][j] == Ack {
        var j :| 0 <= j < 5 - (i + 1) && bs[1..][j] == Ack;
        assert bs[j + 1] == Ack;
      }
      if exists j :: 0 <= j < 5 - i && bs[j] == Ack {
        var j :| 0 <= j < 5 - i && bs[j] == Ack;
        assert bs[1..][j - 1] == Ack;
      }
    }
  }

  /** A wxread error ends wxgetack with -1 at once. */
  lemma GetAckReadError(e: Env)
    requires WxReadSpec(e, [e.junk], 1).rc == -1
    ensures GetAckSpec(e).rc == -1
  {
  }

  /**
   * wxcmd: write the command; fail if write returns -1 or a short count,
   * or if no ACK comes; otherwise 0.
   */
  function CmdSpec(e: Env, cmd: seq<Byte>): Outcome
  {
    var (rc, e1) := Write(e, cmd);
    if rc == -1 then Outcome(-1, e1)
    else if rc != |cmd| then Outcome(-1, e1)
    else
      var a := GetAckSpec(e1);
      if a.rc != 0 then Outcome(-1, a.env) else Outcome(0, a.env)
  }

  method WxCmd(e: Env, cmd: seq<Byte>) returns (o: Outcome)
    ensures o == CmdSpec(e, cmd)
  {
    var len := |cmd|;
    var rc, env := Write(e, cmd).0, Write(e, cmd).1;
    if rc == -1 {
      return Outcome(-1, env);
    }
    if rc != len {
      return Outcome(-1, env);
    }
    var a := WxGetAck(env);
    if a.rc != 0 {
      return Outcome(-1, a.env);
    }
    return Outcome(0, a.env);
  }

  /** wxcmd succeeds exactly when the whole command was written and then acknowledged. */
  lemma CmdSucceeds(e: Env, cmd: seq<Byte>)
    ensures CmdSpec(e, cmd).rc == 0 <==> Write(e, cmd).0 == |cmd| && GetAckSpec(Write(e, cmd).1).rc == 0
    ensures CmdSpec(e, cmd).rc == 0 ==> CmdSpec(e, cmd).env.sent == e.sent + cmd
    ensures CmdSpec(e, cmd).rc == 0 || CmdSpec(e, cmd).rc == -1
  {
    var (rc, e1) := Write(e, cmd);
    if rc == |cmd| {
      GetAckSent(e1);
    }
  }

  /** Waiting for the ACK writes nothing. */
  lemma {:induction false} GetAckLoopSent(e: Env, i: int, ackbuf: Byte)
    requires 0 <= i <= 5
    ensures GetAckLoop(e, i, ackbuf).env.sent == e.sent
    ensures GetAckLoop(e, i, ackbuf).rc == 0 || GetAckLoop(e, i, ackbuf).rc == -1
    decreases 5 - i
  {
    var r := WxReadSpec(e, [ackbuf], 1);
    ReadBounds(e, [ackbuf], 1);
    if r.rc != -1 && i < 5 {
      var b := if |r.buf| == 1 then r.buf[0] else ackbuf;
      if b != Ack {
        GetAckLoopSent(r.env, i + 1, b);
      }
    }
  }

  lemma GetAckSent(e: Env)
    ensures GetAckSpec(e).env.sent == e.sent
    ensures GetAckSpec(e).rc == 0 || GetAckSpec(e).rc == -1
  {
    GetAckLoopSent(e, 0, e.junk);
  }
}
