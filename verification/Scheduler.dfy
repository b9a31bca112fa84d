/** Coordinated I/O scheduling (vssd_code/rb_nexus.c:53-90, 151-171, 254-258): requests
    wait in a list sorted by the fixed key latency - arrival time and leave at its tail. */
module Scheduler {
  import opened Options
  import opened CommLists
  import opened Switches

  /** An accepted packet: id numbers the arrivals, lat is the latency after the sliding
      window has been added, arrived the clock when the key was computed (ns). */
  datatype Request = Request(id: nat, op: Op, lat: nat, arrived: nat)

  type Queue = seq<Entry<Request>>

  const TWO63: int := 0x8000_0000_0000_0000
  const TWO64: int := 0x1_0000_0000_0000_0000

  /** The 64-bit key: an unsigned difference stored in a signed field. */
  function Key(lat: nat, now: nat): int {
    var u := (lat - now) % TWO64;
    if u < TWO63 then u else u - TWO64
  }

  /** The key is the true difference if and only if that fits 64 signed bits. */
  lemma KeyIsExact(lat: nat, now: nat)
    ensures Key(lat, now) == lat - now <==> -TWO63 <= lat - now < TWO63
  {
  }

  /** Whatever the difference, the key is its 64-bit two's complement value. */
  lemma KeyIsResidue(lat: nat, now: nat)
    ensures -TWO63 <= Key(lat, now) < TWO63
    ensures exists k: int :: lat - now == Key(lat, now) + k * TWO64
  {
    var d := lat - now;
    var k := if d % TWO64 < TWO63 then d / TWO64 else d / TWO64 + 1;
    assert d == Key(lat, now) + k * TWO64;
  }

  function EntryOf(r: Request): Entry<Request> {
    Entry(Key(r.lat, r.arrived), r)
  }

  /** The difference of latency and clock fits the signed field. */
  predicate Fits(r: Request) {
    -TWO63 <= r.lat - r.arrived < TWO63
  }

  /** The node of a packet carries the packet and ages with the clock: its key is the
      latency less the arrival time. */
  lemma NodeAges(r: Request)
    requires Fits(r)
    ensures EntryOf(r).prio == r.lat - r.arrived && EntryOf(r).msg == r
  {
    KeyIsExact(r.lat, r.arrived);
  }

  predicate Exact(e: Entry<Request>) {
    e.prio == e.msg.lat - e.msg.arrived
  }

  /** a stands nearer to the head than b: smaller key, or equal keys and b is older. */
  predicate Behind(a: Entry<Request>, b: Entry<Request>) {
    a.prio < b.prio || (a.prio == b.prio && a.msg.id > b.msg.id)
  }

  ghost predicate QInv(q: Queue) {
    && (forall i, j :: 0 <= i < j < |q| ==> Behind(q[i], q[j]))
    && (forall i :: 0 <= i < |q| ==> Exact(q[i]))
  }

  ghost predicate Newer(r: Request, q: Queue) {
    && Fits(r)
    && forall i :: 0 <= i < |q| ==> q[i].msg.id < r.id
  }

  lemma PlaceKeepsQInv(q: Queue, r: Request)
    requires QInv(q) && Newer(r, q)
    ensures QInv(InsertByPrio(q, EntryOf(r)))
  {
    NodeAges(r);
    hide Key;
    var e := EntryOf(r);
    var k := InsertPos(q, e.prio);
    var q' := InsertByPrio(q, e);
    InsertedAt(q, e);
    forall i, j | 0 <= i < j < |q'| ensures Behind(q'[i], q'[j]) {
      if i == k {
        assert e.prio <= q[k].prio <= q[j - 1].prio;
      } else if j == k {
        assert e.prio > q[i].prio;
      }
    }
  }

  /** The aged priority of an entry at an instant: latency plus time waited. */
  function Aged(e: Entry<Request>, t: int): int {
    e.msg.lat + (t - e.msg.arrived)
  }

  /** At every instant the fixed keys order the queue by aged priority: the tail has the
      largest one, and is the oldest of those that share it. */
  lemma TailIsMostUrgent(q: Queue, t: int, i: nat)
    requires QInv(q) && i < |q|
    ensures Aged(q[i], t) <= Aged(q[|q| - 1], t)
    ensures Aged(q[i], t) == Aged(q[|q| - 1], t) ==> q[|q| - 1].msg.id <= q[i].msg.id
  {
    assert Exact(q[i]) && Exact(q[|q| - 1]);
    assert i < |q| - 1 ==> Behind(q[i], q[|q| - 1]);
  }

  // ---------- runs ----------

  datatype Event = Arrive(r: Request) | Serve

  /** Arrivals are numbered in order from lo on, and their keys fit. */
  ghost predicate Numbered(es: seq<Event>, lo: nat) {
    es != [] ==>
      match es[0]
      case Arrive(r) => lo <= r.id && Fits(r) && Numbered(es[1..], r.id + 1)
      case Serve => Numbered(es[1..], lo)
  }

  ghost predicate Below(q: Queue, lo: nat) {
    forall i :: 0 <= i < |q| ==> q[i].msg.id < lo
  }

  /** The requests the worker takes, in order. Serving an empty queue does nothing. */
  function Served(q: Queue, es: seq<Event>): seq<Request>
    decreases |es|
  {
    if es == [] then []
    else match es[0]
      case Arrive(r) => Served(InsertByPrio(q, EntryOf(r)), es[1..])
      case Serve =>
        if q == [] then Served(q, es[1..])
        else [q[|q| - 1].msg] + Served(q[..|q| - 1], es[1..])
  }

  function Serves(es: seq<Event>): nat {
    if es == [] then 0 else (if es[0].Serve? then 1 else 0) + Serves(es[1..])
  }

  /** Arrivals in the window [from, to). */
  function Arrivals(es: seq<Event>, from: int, to: int): nat {
    if es == [] then 0
    else (if es[0].Arrive? && from <= es[0].r.arrived < to then 1 else 0) + Arrivals(es[1..], from, to)
  }

  /** Both count event by event. */
  lemma {:induction false} CountsAddUp(es: seq<Event>, e: Event, from: int, to: int)
    ensures Serves(es + [e]) == Serves(es) + (if e == Serve then 1 else 0)
    ensures Arrivals(es + [e], from, to)
         == Arrivals(es, from, to) + (if e.Arrive? && from <= e.r.arrived < to then 1 else 0)
  {
    if es == [] {
      assert [] + [e] == [e] && [e][1..] == [];
    } else {
      assert (es + [e])[0] == es[0] && (es + [e])[1..] == es[1..] + [e];
      CountsAddUp(es[1..], e, from, to);
    }
  }

  /** Where an arrival leaves the entry at position p. */
  function Shifted(q: Queue, p: nat, r: Request): nat {
    if InsertPos(q, EntryOf(r).prio) <= p then p + 1 else p
  }

  /** Where the entry at position p is after the events, None once it has been served. */
  function Track(q: Queue, p: nat, es: seq<Event>): Option<nat>
    requires p < |q|
    decreases |es|
  {
    if es == [] then Some(p)
    else match es[0]
      case Arrive(r) =>
        Track(InsertByPrio(q, EntryOf(r)), Shifted(q, p, r), es[1..])
      case Serve =>
        if p == |q| - 1 then None else Track(q[..|q| - 1], p, es[1..])
  }

  lemma {:induction false} TrackedIsServed(q: Queue, p: nat, es: seq<Event>)
    requires p < |q| && Track(q, p, es).None?
    ensures q[p].msg in Served(q, es)
    decreases |es|
  {
    hide Key;
    match es[0]
    case Arrive(r) =>
      InsertedAt(q, EntryOf(r));
      assert InsertByPrio(q, EntryOf(r))[Shifted(q, p, r)] == q[p];
      hide InsertByPrio;
      hide EntryOf;
      TrackedIsServed(InsertByPrio(q, EntryOf(r)), Shifted(q, p, r), es[1..]);
    case Serve =>
      if p < |q| - 1 {
        TrackedIsServed(q[..|q| - 1], p, es[1..]);
      }
  }

  ghost predicate LatenciesAtMost(es: seq<Event>, L: nat) {
    forall k :: 0 <= k < |es| && es[k].Arrive? ==> es[k].r.lat <= L
  }

  /** Every waiting request older than e arrived after e.arrived - L. */
  ghost predicate OlderAreRecent(q: Queue, e: Request, L: nat) {
    forall i :: 0 <= i < |q| && q[i].msg.id < e.id ==> e.arrived < q[i].msg.arrived + L
  }

  /** The most urgent request leaves behind only older ones that are recent enough. */
  lemma TailLeavesRecent(q: Queue, L: nat)
    requires QInv(q) && q != [] && q[|q| - 1].msg.lat <= L
    ensures OlderAreRecent(q[..|q| - 1], q[|q| - 1].msg, L)
  {
    forall i | 0 <= i < |q| - 1 && q[i].msg.id < q[|q| - 1].msg.id
      ensures q[|q| - 1].msg.arrived < q[i].msg.arrived + L
    {
      assert Behind(q[i], q[|q| - 1]) && Exact(q[i]) && Exact(q[|q| - 1]);
    }
  }

  /** What is served later and is older than e was already waiting: it is recent enough. */
  lemma {:induction false} LaterOlderAreRecent(q: Queue, es: seq<Event>, lo: nat, e: Request, L: nat, k: nat)
    requires OlderAreRecent(q, e, L) && Numbered(es, lo) && e.id < lo
    requires k < |Served(q, es)| && Served(q, es)[k].id < e.id
    ensures e.arrived < Served(q, es)[k].arrived + L
    decreases |es|
  {
    match es[0]
    case Arrive(r) =>
      InsertedAt(q, EntryOf(r));
      LaterOlderAreRecent(InsertByPrio(q, EntryOf(r)), es[1..], r.id + 1, e, L, k);
    case Serve =>
      if q == [] {
        LaterOlderAreRecent(q, es[1..], lo, e, L, k);
      } else if k > 0 {
        LaterOlderAreRecent(q[..|q| - 1], es[1..], lo, e, L, k - 1);
      }
  }

  ghost predicate WaitingAtMost(q: Queue, L: nat) {
    forall i :: 0 <= i < |q| ==> q[i].msg.lat <= L
  }

  lemma ArrivalKeeps(q: Queue, r: Request, L: nat)
    requires QInv(q) && Newer(r, q) && WaitingAtMost(q, L) && r.lat <= L
    ensures var q' := InsertByPrio(q, EntryOf(r));
            QInv(q') && Below(q', r.id + 1) && WaitingAtMost(q', L)
  {
    PlaceKeepsQInv(q, r);
    InsertedAt(q, EntryOf(r));
    hide QInv;
    hide InsertByPrio;
  }

  lemma ServiceKeeps(q: Queue, lo: nat, L: nat)
    requires QInv(q) && Below(q, lo) && WaitingAtMost(q, L) && q != []
    ensures var q' := q[..|q| - 1];
            QInv(q') && Below(q', lo) && WaitingAtMost(q', L)
  {
  }

  /** Overtaking is bounded, on every run: with all latencies at most L, a request is served
      before one that arrived earlier only if it arrived less than L after it. */
  lemma {:induction false} OvertakingIsBounded(q: Queue, es: seq<Event>, lo: nat, L: nat, j: nat, k: nat)
    requires QInv(q) && Below(q, lo) && Numbered(es, lo) && LatenciesAtMost(es, L) && WaitingAtMost(q, L)
    requires j < k < |Served(q, es)| && Served(q, es)[k].id < Served(q, es)[j].id
    ensures Served(q, es)[j].arrived < Served(q, es)[k].arrived + L
    decreases |es|
  {
    hide QInv;
    hide Key;
    hide InsertByPrio;
    assert LatenciesAtMost(es[1..], L);
    match es[0]
    case Arrive(r) =>
      assert es[0].r.lat <= L && Newer(r, q);
      ArrivalKeeps(q, r, L);
      hide LatenciesAtMost;
      hide WaitingAtMost;
      hide Below;
      OvertakingIsBounded(InsertByPrio(q, EntryOf(r)), es[1..], r.id + 1, L, j, k);
    case Serve =>
      if q == [] {
        OvertakingIsBounded(q, es[1..], lo, L, j, k);
      } else {
        ServiceKeeps(q, lo, L);
        assert q[|q| - 1].msg.id < lo && q[|q| - 1].msg.lat <= L;
        TailLeavesRecent(q, L);
        hide LatenciesAtMost;
        hide WaitingAtMost;
        hide Below;
        if j > 0 {
          OvertakingIsBounded(q[..|q| - 1], es[1..], lo, L, j - 1, k - 1);
        } else {
          LaterOlderAreRecent(q[..|q| - 1], es[1..], lo, q[|q| - 1].msg, L, k - 1);
        }
      }
  }

  ghost predicate ArrivedSince(es: seq<Event>, t: int) {
    forall k :: 0 <= k < |es| && es[k].Arrive? ==> t <= es[k].r.arrived
  }

  function InWindow(es: seq<Event>, t: int, L: nat): nat {
    Arrivals(es, t, t + L)
  }

  /** An arrival gets between an entry and the tail only if it came less than L later. */
  lemma ArrivalPushesBack(q: Queue, p: nat, r: Request, L: nat)
    requires QInv(q) && Newer(r, q) && p < |q| && r.lat <= L && q[p].msg.arrived <= r.arrived
    ensures var (q', p') := (InsertByPrio(q, EntryOf(r)), Shifted(q, p, r));
            && p' < |q'| && q'[p'] == q[p]
            && |q'| - p' <= |q| - p + (if r.arrived < q[p].msg.arrived + L then 1 else 0)
  {
    NodeAges(r);
    hide Key;
    InsertedAt(q, EntryOf(r));
    assert Exact(q[p]);
    hide InsertByPrio;
  }

  lemma NumberedArrival(q: Queue, es: seq<Event>, lo: nat)
    requires es != [] && es[0].Arrive? && Below(q, lo) && Numbered(es, lo)
    ensures Newer(es[0].r, q) && Numbered(es[1..], es[0].r.id + 1)
    ensures Below(InsertByPrio(q, EntryOf(es[0].r)), es[0].r.id + 1)
  {
    InsertedAt(q, EntryOf(es[0].r));
    hide InsertByPrio;
  }

  lemma TailLeaves(q: Queue, lo: nat)
    requires QInv(q) && Below(q, lo) && q != []
    ensures QInv(q[..|q| - 1]) && Below(q[..|q| - 1], lo)
  {
  }

  /** While an entry waits, every serve brings it one place nearer to the tail, and only
      an arrival less than L after its own can push it back. */
  lemma {:induction false} WaitingIsPaidFor(q: Queue, p: nat, es: seq<Event>, lo: nat, L: nat)
    requires QInv(q) && Below(q, lo) && p < |q| && Numbered(es, lo) && LatenciesAtMost(es, L)
    requires ArrivedSince(es, q[p].msg.arrived)
    requires Track(q, p, es).Some?
    ensures Serves(es) <= |q| - 1 - p + InWindow(es, q[p].msg.arrived, L)
    decreases |es|
  {
    hide QInv;
    hide Key;
    hide InsertByPrio;
    if es != [] {
      assert LatenciesAtMost(es[1..], L) && ArrivedSince(es[1..], q[p].msg.arrived);
      match es[0]
      case Arrive(r) =>
        assert es[0].r.lat <= L && q[p].msg.arrived <= r.arrived;
        NumberedArrival(q, es, lo);
        ArrivalPushesBack(q, p, r, L);
        PlaceKeepsQInv(q, r);
        hide Newer;
        hide Below;
        hide LatenciesAtMost;
        hide ArrivedSince;
        WaitingIsPaidFor(InsertByPrio(q, EntryOf(r)), Shifted(q, p, r), es[1..], r.id + 1, L);
      case Serve =>
        TailLeaves(q, lo);
        WaitingIsPaidFor(q[..|q| - 1], p, es[1..], lo, L);
    }
  }

  /** Bounded waiting. With a monotone clock, latencies at most L and at most K arrivals
      in any window of length L, a request that meets n waiting requests is among those
      served as soon as n + K + 1 requests have been taken. */
  lemma WaitingIsBounded(q: Queue, r: Request, es: seq<Event>, L: nat, K: nat)
    requires QInv(q) && Newer(r, q) && Numbered(es, r.id + 1)
    requires LatenciesAtMost(es, L) && ArrivedSince(es, r.arrived)
    requires forall t: int :: InWindow(es, t, L) <= K
    requires Serves(es) >= |q| + K + 1
    ensures r in Served(InsertByPrio(q, EntryOf(r)), es)
  {
    var q' := InsertByPrio(q, EntryOf(r));
    var p := InsertPos(q, EntryOf(r).prio);
    PlaceKeepsQInv(q, r);
    assert q'[p].msg == r;
    assert InWindow(es, r.arrived, L) <= K;
    if Track(q', p, es).Some? {
      WaitingIsPaidFor(q', p, es, r.id + 1, L);
    }
    TrackedIsServed(q', p, es);
  }

  // ---------- refinement of a stable priority queue ----------

  /** The reference: entries in arrival order; the one to serve is the first with the
      largest key. */
  function Best(bag: Queue): (k: nat)
    requires bag != []
    ensures k < |bag|
    ensures forall i :: 0 <= i < |bag| ==> bag[i].prio <= bag[k].prio
    ensures forall i :: 0 <= i < k ==> bag[i].prio < bag[k].prio
  {
    if |bag| == 1 then 0
    else
      var k := Best(bag[1..]) + 1;
      if bag[0].prio >= bag[k].prio then 0 else k
  }

  function Without(bag: Queue, k: nat): Queue
    requires k < |bag|
  {
    bag[..k] + bag[k + 1..]
  }

  function RefServed(bag: Queue, es: seq<Event>): seq<Request>
    decreases |es|
  {
    if es == [] then []
    else match es[0]
      case Arrive(r) => RefServed(bag + [EntryOf(r)], es[1..])
      case Serve =>
        if bag == [] then RefServed(bag, es[1..])
        else [bag[Best(bag)].msg] + RefServed(Without(bag, Best(bag)), es[1..])
  }

  ghost predicate InArrivalOrder(bag: Queue) {
    forall i, j :: 0 <= i < j < |bag| ==> bag[i].msg.id < bag[j].msg.id
  }

  ghost predicate Represents(q: Queue, bag: Queue) {
    QInv(q) && InArrivalOrder(bag) && multiset(q) == multiset(bag)
  }

  lemma TailIsBest(q: Queue, bag: Queue)
    requires Represents(q, bag) && q != []
    ensures bag != [] && q[|q| - 1] == bag[Best(bag)]
  {
    var n := |q| - 1;
    assert q[n] in multiset(q);
    var j :| 0 <= j < |bag| && bag[j] == q[n];
    var b := Best(bag);
    assert bag[b] in multiset(bag);
    var i :| 0 <= i < |q| && q[i] == bag[b];
    assert b <= j ==> bag[b].msg.id <= bag[j].msg.id;
    assert i == n || Behind(q[i], q[n]);
  }

  lemma WithoutMultiset(s: Queue, k: nat)
    requires k < |s|
    ensures multiset(Without(s, k)) == multiset(s) - multiset{s[k]}
  {
    assert s == s[..k] + ([s[k]] + s[k + 1..]);
  }

  lemma WithoutInOrder(bag: Queue, k: nat)
    requires k < |bag| && InArrivalOrder(bag)
    ensures InArrivalOrder(Without(bag, k))
  {
    var rest := Without(bag, k);
    forall i, j | 0 <= i < j < |rest| ensures rest[i].msg.id < rest[j].msg.id {
      assert rest[i] == bag[if i < k then i else i + 1] && rest[j] == bag[if j < k then j else j + 1];
    }
  }

  lemma SameWithout(q: Queue, bag: Queue, k: nat)
    requires multiset(q) == multiset(bag) && q != [] && k < |bag| && q[|q| - 1] == bag[k]
    ensures multiset(q[..|q| - 1]) == multiset(Without(bag, k))
  {
    WithoutMultiset(bag, k);
    WithoutMultiset(q, |q| - 1);
    assert Without(q, |q| - 1) == q[..|q| - 1];
    hide Without;
  }

  lemma ServeIsRepresented(q: Queue, bag: Queue)
    requires Represents(q, bag) && q != []
    ensures bag != [] && Represents(q[..|q| - 1], Without(bag, Best(bag)))
  {
    assert QInv(q[..|q| - 1]);
    hide QInv;
    TailIsBest(q, bag);
    SameWithout(q, bag, Best(bag));
    WithoutInOrder(bag, Best(bag));
    hide InArrivalOrder;
    hide Without;
    hide Best;
  }

  lemma ArrivalIsRepresented(q: Queue, bag: Queue, r: Request)
    requires Represents(q, bag) && Newer(r, q)
    ensures Represents(InsertByPrio(q, EntryOf(r)), bag + [EntryOf(r)])
  {
    PlaceKeepsQInv(q, r);
    var k := InsertPos(q, EntryOf(r).prio);
    assert q == q[..k] + q[k..];
    forall i | 0 <= i < |bag| ensures bag[i].msg.id < r.id {
      assert bag[i] in multiset(q);
    }
  }

  lemma ArrivalStep(q: Queue, bag: Queue, r: Request, rest: seq<Event>)
    requires Served(InsertByPrio(q, EntryOf(r)), rest) == RefServed(bag + [EntryOf(r)], rest)
    ensures Served(q, [Arrive(r)] + rest) == RefServed(bag, [Arrive(r)] + rest)
  {
    hide InsertByPrio;
    hide EntryOf;
    assert ([Arrive(r)] + rest)[1..] == rest;
  }

  lemma ServeStep(q: Queue, bag: Queue, rest: seq<Event>)
    requires Represents(q, bag)
    requires q == [] ==> Served(q, rest) == RefServed(bag, rest)
    requires q != [] && bag != [] ==> Served(q[..|q| - 1], rest) == RefServed(Without(bag, Best(bag)), rest)
    ensures Served(q, [Serve] + rest) == RefServed(bag, [Serve] + rest)
  {
    assert ([Serve] + rest)[1..] == rest;
    assert |q| == |multiset(q)| == |multiset(bag)| == |bag|;
    if q != [] {
      TailIsBest(q, bag);
    }
    hide Represents;
    hide Best;
    hide Without;
  }

  /** On every run the list serves exactly what the stable priority queue serves. */
  lemma {:induction false} ListRefinesPriorityQueue(q: Queue, bag: Queue, es: seq<Event>, lo: nat)
    requires Represents(q, bag) && Below(q, lo) && Numbered(es, lo)
    ensures Served(q, es) == RefServed(bag, es)
    decreases |es|
  {
    if es != [] {
      var rest := es[1..];
      assert es == [es[0]] + rest;
      hide Served;
      hide RefServed;
      match es[0]
      case Arrive(r) =>
        NumberedArrival(q, es, lo);
        hide Numbered;
        ArrivalIsRepresented(q, bag, r);
        hide Newer;
        hide Below;
        hide Represents;
        hide InsertByPrio;
        hide EntryOf;
        ListRefinesPriorityQueue(InsertByPrio(q, EntryOf(r)), bag + [EntryOf(r)], rest, r.id + 1);
        ArrivalStep(q, bag, r, rest);
      case Serve =>
        assert Numbered(rest, lo);
        hide Numbered;
        if q == [] {
          ListRefinesPriorityQueue(q, bag, rest, lo);
        } else {
          ServeIsRepresented(q, bag);
          assert Below(q[..|q| - 1], lo);
          hide Below;
          hide Represents;
          hide Best;
          hide Without;
          ListRefinesPriorityQueue(q[..|q| - 1], Without(bag, Best(bag)), rest, lo);
        }
        ServeStep(q, bag, rest);
    }
  }
}
