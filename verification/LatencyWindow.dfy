/** The sliding window of network latencies (vssd_code/rb_nexus.c:99-101, 150-161). The
    oldest value is taken out as a fraction, the newest is added after an integer
    division, so the running figure drifts away from the moving average. */
module LatencyWindows {
  import opened Options

  const WINDOW: int := 100

  /** Sum of h[lo..hi]. */
  function Sum(h: seq<nat>, lo: nat, hi: nat): nat
    requires hi <= |h|
  {
    if lo >= hi then 0 else Sum(h, lo, hi - 1) + h[hi - 1]
  }

  /** Sum of the last hundred latencies. */
  function LastSum(h: seq<nat>): nat {
    Sum(h, if |h| <= WINDOW then 0 else |h| - WINDOW, |h|)
  }

  /** Sum of what the integer divisions cut off, over all latencies so far. */
  function Lost(h: seq<nat>): nat {
    if h == [] then 0 else Lost(h[..|h| - 1]) + h[|h| - 1] % WINDOW
  }

  /** The latency that leaves the window when the next one enters. */
  function Leaving(h: seq<nat>): nat {
    if |h| < WINDOW then 0 else h[|h| - WINDOW]
  }

  /** The running figure, update by update. */
  function Sliding(h: seq<nat>): real {
    if h == [] then 0.0
    else
      var before := h[..|h| - 1];
      Sliding(before) - Leaving(before) as real / 100.0 + (h[|h| - 1] / WINDOW) as real
  }

  lemma {:induction false} SumPrefix(h: seq<nat>, x: nat, lo: nat, hi: nat)
    requires hi <= |h|
    ensures Sum(h + [x], lo, hi) == Sum(h, lo, hi)
  {
    if lo < hi {
      SumPrefix(h, x, lo, hi - 1);
    }
  }

  lemma {:induction false} SumFirst(h: seq<nat>, lo: nat, hi: nat)
    requires lo < hi <= |h|
    ensures Sum(h, lo, hi) == h[lo] + Sum(h, lo + 1, hi)
  {
    if lo < hi - 1 {
      SumFirst(h, lo, hi - 1);
    }
  }

  lemma LastSumStep(h: seq<nat>, x: nat)
    ensures LastSum(h + [x]) + Leaving(h) == LastSum(h) + x
  {
    var lo := if |h| <= WINDOW then 0 else |h| - WINDOW;
    SumPrefix(h, x, lo, |h|);
    if |h| >= WINDOW {
      SumFirst(h, lo, |h|);
      SumPrefix(h, x, lo + 1, |h|);
    }
  }

  /** A hundred times the figure is the sum of the last hundred latencies less everything
      that integer division has ever cut off. */
  lemma {:induction false} SlidingIdentity(h: seq<nat>)
    ensures 100.0 * Sliding(h) == (LastSum(h) - Lost(h)) as real
  {
    if h != [] {
      var before := h[..|h| - 1];
      var x := h[|h| - 1];
      SlidingIdentity(before);
      LastSumStep(before, x);
      assert h == before + [x];
      assert x == WINDOW * (x / WINDOW) + x % WINDOW;
    }
  }

  lemma {:induction false} LostBounds(h: seq<nat>)
    ensures Lost(h) <= 99 * |h|
    ensures Lost(h) == 0 <==> forall i :: 0 <= i < |h| ==> h[i] % WINDOW == 0
  {
    if h != [] {
      LostBounds(h[..|h| - 1]);
      assert forall i :: 0 <= i < |h| - 1 ==> h[..|h| - 1][i] == h[i];
    }
  }

  /** The figure is the moving average (zeros before the first latency) if and only if
      every latency so far was a multiple of 100; otherwise it lags behind it, by at most
      0.99 for each request. */
  lemma AverageIffMultiples(h: seq<nat>)
    ensures Sliding(h) == LastSum(h) as real / 100.0 <==> forall i :: 0 <= i < |h| ==> h[i] % WINDOW == 0
    ensures LastSum(h) as real / 100.0 - 0.99 * |h| as real <= Sliding(h) <= LastSum(h) as real / 100.0
  {
    SlidingIdentity(h);
    LostBounds(h);
  }

  /** What `lat += sliding_window` stores: the sum truncated to an unsigned integer; the
      conversion is undefined at -1 and below. */
  function Combined(h: seq<nat>, lat: nat): Option<nat> {
    var n := WINDOW * lat + LastSum(h) - Lost(h);
    if n <= -WINDOW then None else Some(if n < 0 then 0 else n / WINDOW)
  }

  /** The stored latency is the packet's own plus the running figure, rounded towards zero;
      it is undefined exactly when that sum is -1 or less. */
  lemma CombinedIsTruncatedSum(h: seq<nat>, lat: nat)
    ensures var sum := lat as real + Sliding(h);
            && (Combined(h, lat) == None <==> sum <= -1.0)
            && (-1.0 < sum < 0.0 ==> Combined(h, lat) == Some(0))
            && (0.0 <= sum ==> Combined(h, lat).Some?
                               && Combined(h, lat).value as real <= sum < Combined(h, lat).value as real + 1.0)
  {
    SlidingIdentity(h);
    hide Sliding;
    var n := WINDOW * lat + LastSum(h) - Lost(h);
    assert 100.0 * (lat as real + Sliding(h)) == n as real;
    assert n == WINDOW * (n / WINDOW) + n % WINDOW;
    hide LastSum;
    hide Lost;
  }

  ghost predicate AtMost(h: seq<nat>, M: nat) {
    forall i :: 0 <= i < |h| ==> h[i] <= M
  }

  lemma {:induction false} SumAtMost(h: seq<nat>, M: nat, lo: nat, hi: nat)
    requires lo <= hi <= |h| && AtMost(h, M)
    ensures Sum(h, lo, hi) <= (hi - lo) * M
  {
    if lo < hi {
      SumAtMost(h, M, lo, hi - 1);
      assert (hi - lo) * M == (hi - 1 - lo) * M + M;
    }
  }

  lemma LastSumAtMost(h: seq<nat>, M: nat)
    requires AtMost(h, M)
    ensures LastSum(h) <= WINDOW * M
  {
    var lo := if |h| <= WINDOW then 0 else |h| - WINDOW;
    SumAtMost(h, M, lo, |h|);
    hide Sum;
    hide AtMost;
    MulAtMost(|h| - lo, WINDOW, M);
  }

  lemma MulAtMost(a: nat, b: nat, k: nat)
    requires a <= b
    ensures a * k <= b * k
  {
  }

  lemma HundredthAtMost(n: int, m: nat)
    requires n <= WINDOW * m
    ensures n / WINDOW <= m
  {
  }

  /** The drift only lowers the figure: raw latencies at most M combine to at most 2 * M. */
  lemma CombinedAtMost(h: seq<nat>, lat: nat, M: nat)
    requires AtMost(h, M) && lat <= M
    ensures Combined(h, lat).Some? ==> Combined(h, lat).value <= 2 * M
  {
    LastSumAtMost(h, M);
    HundredthAtMost(WINDOW * lat + LastSum(h) - Lost(h), 2 * M);
    hide LastSum;
    hide Lost;
    hide AtMost;
  }

  lemma {:induction false} ConstantLatency(h: seq<nat>, c: nat)
    requires forall i :: 0 <= i < |h| ==> h[i] == c
    ensures Lost(h) == |h| * (c % WINDOW)
    ensures |h| >= WINDOW ==> LastSum(h) == WINDOW * c
  {
    if h != [] {
      ConstantLatency(h[..|h| - 1], c);
    }
    if |h| >= WINDOW {
      ConstantSum(h, c, |h| - WINDOW, |h|);
    }
  }

  lemma {:induction false} ConstantSum(h: seq<nat>, c: nat, lo: nat, hi: nat)
    requires lo <= hi <= |h| && forall i :: 0 <= i < |h| ==> h[i] == c
    ensures Sum(h, lo, hi) == (hi - lo) * c
  {
    if lo < hi {
      ConstantSum(h, c, lo, hi - 1);
    }
  }

  /** A steady latency of 99 ns drives the figure below zero after a hundred requests and
      makes the combined latency undefined from request 202 on. */
  lemma SteadyLatencyDrifts(h: seq<nat>)
    requires |h| >= WINDOW && forall i :: 0 <= i < |h| ==> h[i] == 99
    ensures Sliding(h) < 0.0 <==> |h| > 100
    ensures Combined(h, 99) == None <==> |h| >= 202
  {
    ConstantLatency(h, 99);
    SlidingIdentity(h);
  }

  /** What a slot of the circular window holds: the last latency written there. */
  function Slot(h: seq<nat>, j: nat): nat {
    if h == [] then 0
    else if (|h| - 1) % WINDOW == j then h[|h| - 1]
    else Slot(h[..|h| - 1], j)
  }

  lemma {:induction false} SlotHolds(h: seq<nat>, i: nat)
    requires |h| - WINDOW <= i < |h|
    ensures Slot(h, i % WINDOW) == h[i]
  {
    if i < |h| - 1 {
      assert i % WINDOW != (|h| - 1) % WINDOW;
      SlotHolds(h[..|h| - 1], i);
    }
  }

  lemma {:induction false} SlotUnused(h: seq<nat>, j: nat)
    requires |h| <= j < WINDOW
    ensures Slot(h, j) == 0
  {
    if h != [] {
      SlotUnused(h[..|h| - 1], j);
    }
  }

  /** The slot about to be overwritten holds the latency that leaves the window. */
  lemma NextSlotIsLeaving(h: seq<nat>)
    ensures Slot(h, |h| % WINDOW) == Leaving(h)
  {
    if |h| < WINDOW {
      SlotUnused(h, |h|);
    } else {
      assert (|h| - WINDOW) % WINDOW == |h| % WINDOW;
      SlotHolds(h, |h| - WINDOW);
    }
  }

  lemma SlidingStep(h: seq<nat>, x: nat)
    ensures Sliding(h + [x]) == Sliding(h) - Leaving(h) as real / 100.0 + (x / WINDOW) as real
  {
    assert (h + [x])[..|h|] == h;
  }

  lemma SlotStep(h: seq<nat>, x: nat, j: nat)
    ensures Slot(h + [x], j) == if |h| % WINDOW == j then x else Slot(h, j)
  {
    assert (h + [x])[..|h|] == h;
  }

  lemma NextSlot(n: nat)
    ensures (n + 1) % WINDOW == (n % WINDOW + 1) % WINDOW
  {
  }

  lemma FloorOfHundredth(x: real, n: int)
    requires 100.0 * x == n as real
    ensures x.Floor == n / WINDOW
  {
    var q := n / WINDOW;
    assert n == WINDOW * q + n % WINDOW;
    assert q as real <= x < q as real + 1.0;
  }

  class LatencyWindow {
    const vals: array<real>
    var ptr: nat
    var sliding: real
    ghost var hist: seq<nat>

    ghost predicate Valid()
      reads this, vals
    {
      && vals.Length == WINDOW
      && ptr == |hist| % WINDOW
      && sliding == Sliding(hist)
      && (forall j :: 0 <= j < WINDOW ==> vals[j] == Slot(hist, j) as real)
    }

    constructor ()
      ensures Valid() && hist == [] && fresh(vals)
    {
      vals := new real[WINDOW](_ => 0.0);
      ptr := 0;
      sliding := 0.0;
      hist := [];
    }

    /** The window update run_net makes for every read or write it receives. */
    method Update(lat: nat)
      requires Valid()
      modifies this, vals
      ensures Valid() && hist == old(hist) + [lat]
    {
      hide Sliding;
      hide Slot;
      hide Leaving;
      NextSlotIsLeaving(hist);
      SlidingStep(hist, lat);
      NextSlot(|hist|);
      forall j ensures Slot(hist + [lat], j) == if |hist| % WINDOW == j then lat else Slot(hist, j) {
        SlotStep(hist, lat, j);
      }
      sliding := sliding - vals[ptr] / 100.0;
      vals[ptr] := lat as real;
      sliding := sliding + (lat / WINDOW) as real;
      hist := hist + [lat];
      ptr := (ptr + 1) % WINDOW;
    }

    /** ... and the combined latency it then stores in the message. */
    method Admit(lat: nat) returns (combined: Option<nat>)
      requires Valid()
      modifies this, vals
      ensures Valid() && hist == old(hist) + [lat]
      ensures combined == Combined(hist, lat)
    {
      Update(lat);
      SlidingIdentity(hist);
      var total := lat as real + sliding;
      if total <= -1.0 {
        return None;
      }
      FloorOfHundredth(total, WINDOW * lat + LastSum(hist) - Lost(hist));
      return Some(if total < 0.0 then 0 else total.Floor);
    }
  }
}
