/**
 * The serial line and the clock as support.c and fwx.c see them, as a
 * script: what each successive flush, timeout setting, write, read and
 * time() call returns.  A script that has run out answers as a failing
 * call would; the clock stays where it last was.
 */
module Transport {
  import opened Fmt

  /** What one read(2) on the port returns: some bytes (perhaps none), or -1. */
  datatype ReadStep = Bytes(data: seq<Byte>) | Fail

  datatype Env = Env(
    flushes: seq<bool>,      // wxflush: tcgetattr/tcsetattr succeed
    settimeouts: seq<bool>,  // wxsettimeout: tcgetattr/tcsetattr succeed
    writes: seq<int>,        // return values of write(2)
    input: seq<ReadStep>,    // results of read(2)
    ticks: seq<int>,         // values of time(NULL)
    now: int,                // time(NULL) once `ticks` has run out
    junk: Byte,              // what an uninitialised local byte holds
    sent: seq<Byte>)         // every byte write(2) has accepted so far

  function Flush(e: Env): (r: (bool, Env))
    ensures r.1 == e.(flushes := r.1.flushes)
    ensures r.0 <==> |e.flushes| > 0 && e.flushes[0]
  {
    if |e.flushes| == 0 then (false, e) else (e.flushes[0], e.(flushes := e.flushes[1..]))
  }

  function SetTimeout(e: Env): (r: (bool, Env))
    ensures r.1 == e.(settimeouts := r.1.settimeouts)
    ensures r.0 <==> |e.settimeouts| > 0 && e.settimeouts[0]
  {
    if |e.settimeouts| == 0 then (false, e) else (e.settimeouts[0], e.(settimeouts := e.settimeouts[1..]))
  }

  /** write(2): its return value, and the bytes it accepted appended to `sent`. */
  function Write(e: Env, data: seq<Byte>): (r: (int, Env))
    ensures r.1 == e.(writes := r.1.writes, sent := r.1.sent)
    ensures r.0 == |data| ==> r.1.sent == e.sent + data
    ensures r.0 < 0 ==> r.1.sent == e.sent
  {
    if |e.writes| == 0 then (-1, e)
    else
      var rc := e.writes[0];
      var taken := if rc <= 0 then 0 else if rc > |data| then |data| else rc;
      (rc, e.(writes := e.writes[1..], sent := e.sent + data[..taken]))
  }

  /** read(2) of at most n bytes: -1, or the bytes delivered. */
  function Read(e: Env, n: nat): (r: (int, seq<Byte>, Env))
    ensures r.2 == e.(input := r.2.input)
    ensures r.0 == -1 || (r.0 == |r.1| <= n && |r.2.input| < |e.input|)
  {
    if |e.input| == 0 then (-1, [], e)
    else match e.input[0]
      case Fail => (-1, [], e.(input := e.input[1..]))
      case Bytes(data) =>
        var got := if |data| > n then data[..n] else data;
        (|got|, got, e.(input := e.input[1..]))
  }

  /** time(NULL). */
  function Time(e: Env): (r: (int, Env))
    ensures r.1 == e.(ticks := r.1.ticks, now := r.0)
  {
    if |e.ticks| == 0 then (e.now, e) else (e.ticks[0], e.(ticks := e.ticks[1..], now := e.ticks[0]))
  }

  /** An ASCII command string as the bytes that go on the wire. */
  function AsBytes(s: string): (b: seq<Byte>)
    requires forall i :: 0 <= i < |s| ==> s[i] as int < 256
    ensures |b| == |s| && forall i :: 0 <= i < |s| ==> b[i] == s[i] as int
  {
    if s == [] then [] else [s[0] as int] + AsBytes(s[1..])
  }
}
