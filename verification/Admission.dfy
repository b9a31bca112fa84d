/** From the latency the network measured to the order of service (vssd_code/rb_nexus.c:148-168,
    254-258): the scheduling bounds in terms of what the packets bring, before the sliding
    window is added to it. */
module Admissions {
  import opened Options
  import opened CommLists
  import opened Scheduler
  import opened LatencyWindows
  import opened Pipelines

  /** The arrivals carry the combined latencies of the raw ones, in order, where h are the
      raw latencies received before. */
  ghost predicate Admitted(es: seq<Event>, h: seq<nat>, raw: seq<nat>)
    decreases |es|
  {
    es != [] ==>
      match es[0]
      case Arrive(r) =>
        && raw != [] && Combined(h + [raw[0]], raw[0]) == Some(r.lat)
        && Admitted(es[1..], h + [raw[0]], raw[1..])
      case Serve => Admitted(es[1..], h, raw)
  }

  /** Raw latencies at most M admit requests of latency at most 2 * M. */
  lemma {:induction false} AdmittedAtMost(es: seq<Event>, h: seq<nat>, raw: seq<nat>, M: nat)
    requires Admitted(es, h, raw) && AtMost(h, M) && AtMost(raw, M)
    ensures LatenciesAtMost(es, 2 * M)
    decreases |es|
  {
    if es != [] {
      if es[0].Arrive? {
        CombinedAtMost(h + [raw[0]], raw[0], M);
        AdmittedAtMost(es[1..], h + [raw[0]], raw[1..], M);
      } else {
        AdmittedAtMost(es[1..], h, raw, M);
      }
      assert forall k :: 0 < k < |es| ==> es[k] == es[1..][k - 1];
    }
  }

  /** Bounded overtaking in raw latencies, for the threads as a whole: if no packet brings a
      latency above M, a request is taken before an earlier one only if it arrived less than
      2 * M after it. */
  lemma RawOvertakingIsBounded(acts: seq<Act>, raw: seq<nat>, M: nat, j: nat, k: nat)
    requires Numbered(Events(IDLE, acts), 0) && Admitted(Events(IDLE, acts), [], raw) && AtMost(raw, M)
    requires j < k < |Exec(IDLE, acts).taken| && Exec(IDLE, acts).taken[k].id < Exec(IDLE, acts).taken[j].id
    ensures Exec(IDLE, acts).taken[j].arrived < Exec(IDLE, acts).taken[k].arrived + 2 * M
  {
    hide Exec;
    hide Events;
    hide Numbered;
    AdmittedAtMost(Events(IDLE, acts), [], raw, M);
    hide Admitted;
    hide LatenciesAtMost;
    TakenWithBoundedOvertaking(acts, 2 * M, j, k);
  }

  /** Bounded waiting in raw latencies: with at most K arrivals in any window of 2 * M, a
      request that meets n others is served within n + K + 1 removals. */
  lemma RawWaitingIsBounded(q: Queue, r: Request, es: seq<Event>, h: seq<nat>, raw: seq<nat>, M: nat, K: nat)
    requires QInv(q) && Newer(r, q) && Numbered(es, r.id + 1) && ArrivedSince(es, r.arrived)
    requires Admitted(es, h, raw) && AtMost(h, M) && AtMost(raw, M)
    requires forall t: int :: InWindow(es, t, 2 * M) <= K
    requires Serves(es) >= |q| + K + 1
    ensures r in Served(InsertByPrio(q, EntryOf(r)), es)
  {
    AdmittedAtMost(es, h, raw, M);
    hide Admitted;
    hide LatenciesAtMost;
    WaitingIsBounded(q, r, es, 2 * M, K);
  }
}
