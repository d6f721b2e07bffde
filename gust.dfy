/**
 * wxcalcwindgust: the 10-minute wind gust.  A ring of wind observations
 * whose length is a power of two, a cursor advanced modulo that length,
 * and a scan of the `tenmin` newest slots, oldest first, that keeps the
 * first maximum it meets.
 */
module Gust {
  import opened Fmt
  import opened WxTypes

  predicate IsPow2(n: int)
    decreases if n < 1 then 0 else n
  {
    n == 1 || (n > 1 && n % 2 == 0 && IsPow2(n / 2))
  }

  /** `tenmin = 10 * 60 / fwxinterval + 1`: observations in ten minutes, plus one. */
  function TenMin(interval: int): (t: int)
    requires interval > 0
    ensures 1 <= t <= 601
  {
    10 * 60 / interval + 1
  }

  /**
   * The sizing loop `walen = 1; do { walen <<= 1; } while (i >>= 1);` with
   * `i = tenmin`: the smallest power of two strictly greater than tenmin.
   */
  method RingLength(tenmin: int) returns (walen: int)
    requires tenmin >= 1
    ensures IsPow2(walen) && tenmin < walen && walen <= 2 * tenmin
  {
    var i := tenmin;
    walen := 1;
    var more := true;
    while more
      invariant IsPow2(walen) && i >= 0
      invariant i * walen <= tenmin < (i + 1) * walen
      invariant walen <= 2 * tenmin
      invariant more ==> walen <= tenmin
      invariant !more ==> i == 0
      decreases i, more
    {
      ghost var w0 := walen;
      HalveStep(i, walen, tenmin);
      walen := walen * 2;
      i := i / 2;
      assert IsPow2(walen) by { assert walen / 2 == w0; }
      more := i != 0;
    }
  }

  /**
   * One round of the sizing loop keeps `i` equal to tenmin / walen, stated
   * without division; a round that leaves `i` at 0 had walen <= tenmin.
   */
  lemma HalveStep(i: int, w: int, tenmin: int)
    requires i >= 0 && w > 0 && i * w <= tenmin < (i + 1) * w
    ensures (i / 2) * (2 * w) <= tenmin < (i / 2 + 1) * (2 * w)
    ensures i / 2 != 0 ==> 2 * w <= tenmin
  {
    HalveParts(i / 2, i % 2, w, tenmin);
  }

  lemma HalveParts(h: int, r: int, w: int, tenmin: int)
    requires h >= 0 && 0 <= r <= 1 && w > 0
    requires (2 * h + r) * w <= tenmin < (2 * h + r + 1) * w
    ensures h * (2 * w) <= tenmin < (h + 1) * (2 * w)
    ensures h != 0 ==> 2 * w <= tenmin
  {
    assert (2 * h + r) * w == h * (2 * w) + r * w;
    assert (2 * h + r + 1) * w == h * (2 * w) + (r + 1) * w;
    assert (h + 1) * (2 * w) == h * (2 * w) + 2 * w;
    if h != 0 {
      assert h * (2 * w) == 2 * w + (h - 1) * (2 * w);
    }
  }

  /** Where the earliest maximum of a window sits: the index the scan settles on. */
  ghost predicate IsEarliestMax(w: seq<Wind>, k: int)
  {
    && 0 <= k < |w|
    && w[k].speed > 0
    && (forall j :: 0 <= j < |w| ==> w[j].speed <= w[k].speed)
    && (forall j :: 0 <= j < k ==> w[j].speed < w[k].speed)
  }

  /** A window has at most one earliest maximum. */
  lemma EarliestMaxUnique(w: seq<Wind>, k1: int, k2: int)
    requires IsEarliestMax(w, k1) && IsEarliestMax(w, k2)
    ensures k1 == k2
  {
  }

  /**
   * `x & (len - 1)` with len a power of two, written as the remainder it
   * equals; for 0 <= x < 2 * len it is one subtraction at most.
   */
  function Wrap(x: int, len: int): (r: int)
    requires len > 0
    ensures 0 <= r < len
    ensures 0 <= x < 2 * len ==> r == if x >= len then x - len else x
  {
    x % len
  }

  /**
   * The static state of wxcalcwindgust.  `History` lists every observation
   * saved so far, oldest first, after the `walen` calm entries the zero
   * fill of the first call puts in the ring.
   */
  class GustTracker {
    var warr: array<Wind>
    var walen: int
    var waidx: int
    var tenmin: int
    ghost var History: seq<Wind>

    /** How many saves ago slot j was written, counted from the oldest slot (0) to the newest (walen - 1). */
    function Distance(j: int): int
      reads this
    {
      if j >= waidx then j - waidx else j - waidx + walen
    }

    ghost predicate Valid()
      reads this, warr
    {
      if walen == 0 then
        waidx == 0 && History == []
      else
        && IsPow2(walen)
        && 1 <= tenmin < walen
        && warr.Length == walen
        && 0 <= waidx < walen
        && |History| >= walen
        && forall j :: 0 <= j < walen ==> warr[j] == History[|History| - walen + Distance(j)]
    }

    /** The static variables before the first call: all zero. */
    constructor ()
      ensures Valid() && walen == 0 && History == []
    {
      warr := new Wind[0];
      walen, waidx, tenmin := 0, 0, 0;
      History := [];
    }

    /** First slot of the window: `(waidx + (walen - tenmin)) & (walen - 1)`. */
    function First(): int
      reads this
      requires walen > 0
    {
      Wrap(waidx + (walen - tenmin), walen)
    }

    /** Slot of window position i: `(f + i) & (walen - 1)`. */
    function Slot(i: int): int
      reads this
      requires walen > 0
    {
      Wrap(First() + i, walen)
    }

    /** The window position i of the scan sits at distance walen - tenmin + i from the cursor. */
    lemma SlotDistance(i: int)
      requires Valid() && walen > 0 && 0 <= i < tenmin
      ensures 0 <= Slot(i) < walen
      ensures Distance(Slot(i)) == walen - tenmin + i
    {
    }

    /** The slots the scan visits hold the newest tenmin observations, oldest first. */
    ghost function Window(): (w: seq<Wind>)
      reads this, warr
      requires Valid() && walen > 0
      ensures |w| == tenmin
    {
      History[|History| - tenmin..]
    }

    lemma SlotHoldsWindow(i: int)
      requires Valid() && walen > 0 && 0 <= i < tenmin
      ensures 0 <= Slot(i) < walen && warr[Slot(i)] == Window()[i]
    {
      SlotDistance(i);
    }

    /**
     * The scan of wxcalcwindgust: over the window, oldest first, a slot
     * replaces the running gust only when its speed is strictly greater.
     * `found` stays unassigned (None) when no speed in the window exceeds 0.
     */
    method Scan() returns (found: Option<int>)
      requires Valid() && walen > 0
      ensures found.None? <==> forall j :: 0 <= j < tenmin ==> Window()[j].speed <= 0
      ensures found.Some? ==> 0 <= found.value < walen
      ensures found.Some? ==> exists k :: IsEarliestMax(Window(), k) && warr[found.value] == Window()[k]
    {
      ghost var w := Window();
      var f := Wrap(waidx + (walen - tenmin), walen);
      forall i | 0 <= i < tenmin
        ensures warr[Wrap(f + i, walen)] == w[i]
      {
        SlotHoldsWindow(i);
      }
      found := ScanSlots(f, w);
    }

    /** The loop of the scan, from window slot f onwards, over a ring whose slots hold `w`. */
    method ScanSlots(f: int, ghost w: seq<Wind>) returns (found: Option<int>)
      requires walen == warr.Length && 0 < tenmin == |w| < walen
      requires forall i :: 0 <= i < tenmin ==> warr[Wrap(f + i, walen)] == w[i]
      ensures found.None? <==> forall j :: 0 <= j < tenmin ==> w[j].speed <= 0
      ensures found.Some? ==> 0 <= found.value < walen
      ensures found.Some? ==> exists k :: IsEarliestMax(w, k) && warr[found.value] == w[k]
    {
      var gust := 0;
      ghost var pos := 0;
      found := None;
      var i := 0;
      while i < tenmin
        invariant 0 <= i <= tenmin && gust >= 0
        invariant forall j :: 0 <= j < i ==> w[j].speed <= gust
        invariant found.None? ==> gust == 0
        invariant found.Some? ==> 0 <= pos < i && 0 <= found.value < walen && warr[found.value] == w[pos]
        invariant found.Some? ==> w[pos].speed == gust > 0 && forall j :: 0 <= j < pos ==> w[j].speed < gust
      {
        var idx := Wrap(f + i, walen);
        if warr[idx].speed > gust {
          gust := warr[idx].speed;
          found := Some(idx);
          pos := i;
        }
        i := i + 1;
      }
      if found.Some? {
        assert IsEarliestMax(w, pos);
      }
    }

    /**
     * wxcalcwindgust: on the first call size the ring from the sampling
     * interval and fill it with calm; save the observation at the cursor,
     * advance the cursor modulo the ring length, and report the earliest
     * maximum of the newest tenmin observations (None when `found` is
     * never assigned).
     */
    method CalcWindGust(wp: Wind, interval: int) returns (gust: Option<Wind>)
      requires Valid() && interval > 0
      modifies this, warr
      ensures Valid() && walen > 0
      ensures old(walen) == 0 ==> tenmin == TenMin(interval) && fresh(warr)
      ensures old(walen) == 0 ==> tenmin < walen <= 2 * tenmin
      ensures old(walen) == 0 ==> History == seq(walen, _ => Calm) + [wp]
      ensures old(walen) != 0 ==> walen == old(walen) && tenmin == old(tenmin) && warr == old(warr)
      ensures old(walen) != 0 ==> History == old(History) + [wp]
      ensures waidx == Wrap(old(waidx) + 1, walen)
      ensures gust.None? <==> forall j :: 0 <= j < tenmin ==> Window()[j].speed <= 0
      ensures gust.Some? ==> exists k :: IsEarliestMax(Window(), k) && gust.value == Window()[k]
    {
      if walen == 0 {
        tenmin := TenMin(interval);
        walen := RingLength(tenmin);
        warr := new Wind[walen](_ => Calm);
        History := seq(walen, _ => Calm);
      }
      Save(wp);
      var found := Scan();
      gust := if found.Some? then Some(warr[found.value]) else None;
    }

    /** `warr[waidx] = *wp; waidx = (waidx + 1) & (walen - 1);` */
    method Save(wp: Wind)
      requires walen > 0 && IsPow2(walen) && 1 <= tenmin < walen && warr.Length == walen
      requires 0 <= waidx < walen && |History| >= walen
      requires forall j :: 0 <= j < walen ==> warr[j] == History[|History| - walen + Distance(j)]
      modifies this`waidx, this`History, warr
      ensures Valid() && History == old(History) + [wp]
      ensures warr[..] == old(warr[..])[old(waidx) := wp]
      ensures waidx == Wrap(old(waidx) + 1, walen)
    {
      warr[waidx] := wp;
      History := History + [wp];
      waidx := Wrap(waidx + 1, walen);
      forall j | 0 <= j < walen
        ensures warr[j] == History[|History| - walen + Distance(j)]
      {
        if j == old(waidx) {
          assert Distance(j) == walen - 1;
        } else {
          assert Distance(j) == old(Distance(j)) - 1;
        }
      }
    }
  }
}
