/** The way of a packet through the net and worker threads (vssd_code/rb_nexus.c:137-192 and
    248-293): received, queued by priority, taken by the worker, turned into its reply,
    queued again and sent. Each locked section is one step. */
module Pipelines {
  import opened Options
  import opened CommLists
  import opened Switches
  import opened Scheduler

  /** The queues and the worker, with what has been accepted, taken and sent so far. */
  datatype Pipe = Pipe(dev: Queue, worker: Option<Entry<Request>>, reply: Queue, gcresp: Queue,
                       accepted: seq<Request>, taken: seq<Request>, sent: seq<Request>)

  const IDLE := Pipe([], None, [], [], [], [], [])

  /** junk is the priority a GC answer has, since none is computed for it. */
  datatype Act = Receive(r: Request, junk: int) | Fetch | Complete | Send

  predicate IsIo(op: Op) {
    op == Read || op == Write
  }

  predicate IsGcAnswer(op: Op) {
    op == GcDeny || op == GcSuccess || op == GcFinSuc
  }

  /** What the worker makes of a request. */
  function Answer(r: Request): Request {
    r.(op := if r.op == Read then ReadReply else WriteReply)
  }

  function Step(p: Pipe, a: Act): Pipe {
    match a
    case Receive(r, junk) =>
      if IsIo(r.op) then p.(dev := InsertByPrio(p.dev, EntryOf(r)), accepted := p.accepted + [r])
      else if IsGcAnswer(r.op) then p.(gcresp := InsertByPrio(p.gcresp, Entry(junk, r)))
      else p
    case Fetch =>
      if p.worker.Some? || p.dev == [] then p
      else
        var e := p.dev[|p.dev| - 1];
        p.(dev := p.dev[..|p.dev| - 1], worker := Some(e), taken := p.taken + [e.msg])
    case Complete =>
      if p.worker.None? then p
      else p.(worker := None, reply := [p.worker.value.(msg := Answer(p.worker.value.msg))] + p.reply)
    case Send =>
      if p.reply == [] then p
      else p.(reply := p.reply[..|p.reply| - 1], sent := p.sent + [p.reply[|p.reply| - 1].msg])
  }

  /** The scheduling event of a step, if it is one. */
  function EventOf(p: Pipe, a: Act): seq<Event> {
    match a
    case Receive(r, _) => if IsIo(r.op) then [Arrive(r)] else []
    case Fetch => if p.worker.Some? || p.dev == [] then [] else [Serve]
    case _ => []
  }

  function Exec(p: Pipe, acts: seq<Act>): Pipe
    decreases |acts|
  {
    if acts == [] then p else Exec(Step(p, acts[0]), acts[1..])
  }

  function Events(p: Pipe, acts: seq<Act>): seq<Event>
    decreases |acts|
  {
    if acts == [] then [] else EventOf(p, acts[0]) + Events(Step(p, acts[0]), acts[1..])
  }

  // ---------- the invariant ----------

  function Msgs(q: Queue): (s: seq<Request>)
    ensures |s| == |q| && forall i :: 0 <= i < |s| ==> s[i] == q[i].msg
  {
    seq(|q|, i requires 0 <= i < |q| => q[i].msg)
  }

  function Answers(rs: seq<Request>): (s: seq<Request>)
    ensures |s| == |rs| && forall i :: 0 <= i < |s| ==> s[i] == Answer(rs[i])
  {
    seq(|rs|, i requires 0 <= i < |rs| => Answer(rs[i]))
  }

  /** The messages of a queue from the tail to the head: the order in which they leave. */
  function Leaving(q: Queue): (s: seq<Request>)
    ensures |s| == |q| && forall i :: 0 <= i < |s| ==> s[i] == q[|q| - 1 - i].msg
  {
    seq(|q|, i requires 0 <= i < |q| => q[|q| - 1 - i].msg)
  }

  function InHand(p: Pipe): seq<Request> {
    if p.worker.Some? then [Answer(p.worker.value.msg)] else []
  }

  ghost predicate PInv(p: Pipe) {
    // every accepted request waits or has been taken, once
    && multiset(p.accepted) == multiset(Msgs(p.dev)) + multiset(p.taken)
    // every taken request has one reply of its type, and replies leave in the order taken
    && Answers(p.taken) == p.sent + Leaving(p.reply) + InHand(p)
    // the worker only ever sees reads and writes
    && (forall r :: r in p.accepted ==> IsIo(r.op))
    && (p.worker.Some? ==> p.taken != [] && p.worker.value.msg == p.taken[|p.taken| - 1])
  }

  lemma MsgsConcat(a: Queue, b: Queue)
    ensures Msgs(a + b) == Msgs(a) + Msgs(b)
  {
  }

  lemma MsgsAfterInsert(q: Queue, e: Entry<Request>)
    ensures multiset(Msgs(InsertByPrio(q, e))) == multiset(Msgs(q)) + multiset{e.msg}
  {
    var k := InsertPos(q, e.prio);
    MsgsConcat(q[..k] + [e], q[k..]);
    MsgsConcat(q[..k], [e]);
    MsgsConcat(q[..k], q[k..]);
    assert q == q[..k] + q[k..];
    assert Msgs([e]) == [e.msg];
    hide Msgs;
  }

  lemma ReceiveKeepsPInv(p: Pipe, r: Request, junk: int)
    requires PInv(p)
    ensures PInv(Step(p, Receive(r, junk)))
  {
    hide InsertByPrio;
    hide Key;
    MsgsAfterInsert(p.dev, EntryOf(r));
    assert EntryOf(r).msg == r;
    hide EntryOf;
    hide Msgs;
    hide Answers;
    hide Leaving;
    var p' := Step(p, Receive(r, junk));
    assert InHand(p') == InHand(p);
    hide InHand;
    if IsIo(r.op) {
      assert multiset(p'.accepted) == multiset(p.accepted) + multiset{r};
      forall x | x in p'.accepted ensures IsIo(x.op) {
      }
    }
  }

  lemma AnswersAppend(rs: seq<Request>, r: Request)
    ensures Answers(rs + [r]) == Answers(rs) + [Answer(r)]
  {
  }

  lemma FetchKeepsPInv(p: Pipe)
    requires PInv(p)
    ensures PInv(Step(p, Fetch))
  {
    if p.worker.None? && p.dev != [] {
      var n := |p.dev| - 1;
      var r := p.dev[n].msg;
      assert p.dev == p.dev[..n] + [p.dev[n]];
      MsgsConcat(p.dev[..n], [p.dev[n]]);
      assert Msgs([p.dev[n]]) == [r];
      AnswersAppend(p.taken, r);
      hide Msgs;
      hide Answers;
      hide Leaving;
      assert p.sent + Leaving(p.reply) + [] == p.sent + Leaving(p.reply);
      assert InHand(Step(p, Fetch)) == [Answer(r)];
      assert r in multiset(Msgs(p.dev));
      assert r in multiset(p.accepted);
    }
  }

  lemma CompleteKeepsPInv(p: Pipe)
    requires PInv(p)
    ensures PInv(Step(p, Complete))
  {
    if p.worker.Some? {
      var p' := Step(p, Complete);
      assert Leaving(p'.reply) == Leaving(p.reply) + InHand(p);
      assert p.sent + Leaving(p'.reply) + [] == p.sent + Leaving(p.reply) + InHand(p);
    }
  }

  lemma TailLeavesFirst(q: Queue)
    requires q != []
    ensures Leaving(q) == [q[|q| - 1].msg] + Leaving(q[..|q| - 1])
  {
  }

  lemma Regroup(a: seq<Request>, x: Request, b: seq<Request>, c: seq<Request>)
    ensures a + ([x] + b) + c == (a + [x]) + b + c
  {
  }

  lemma SendKeepsPInv(p: Pipe)
    requires PInv(p)
    ensures PInv(Step(p, Send))
  {
    if p.reply != [] {
      var n := |p.reply| - 1;
      TailLeavesFirst(p.reply);
      Regroup(p.sent, p.reply[n].msg, Leaving(p.reply[..n]), InHand(p));
      hide Leaving;
      hide Answers;
      hide Msgs;
      hide IsIo;
    }
  }

  lemma StepKeepsPInv(p: Pipe, a: Act)
    requires PInv(p)
    ensures PInv(Step(p, a))
  {
    match a
    case Receive(r, junk) => ReceiveKeepsPInv(p, r, junk);
    case Fetch => FetchKeepsPInv(p);
    case Complete => CompleteKeepsPInv(p);
    case Send => SendKeepsPInv(p);
  }

  /** Nothing accepted is lost or duplicated: on every run an accepted request is in exactly
      one of dev queue, worker, reply queue and sent, and its reply has the matching type. */
  lemma {:induction false} RunKeepsPInv(p: Pipe, acts: seq<Act>)
    requires PInv(p)
    ensures PInv(Exec(p, acts))
    decreases |acts|
  {
    if acts != [] {
      StepKeepsPInv(p, acts[0]);
      RunKeepsPInv(Step(p, acts[0]), acts[1..]);
    }
  }

  /** The worker's else-branch only ever sees writes. */
  lemma WorkerSeesIo(acts: seq<Act>)
    ensures var p := Exec(IDLE, acts);
            p.worker.Some? && p.worker.value.msg.op != Read ==> p.worker.value.msg.op == Write
  {
    var p := Exec(IDLE, acts);
    RunKeepsPInv(IDLE, acts);
    if p.worker.Some? {
      assert p.worker.value.msg in multiset(p.taken);
      assert p.worker.value.msg in multiset(p.accepted);
    }
  }

  // ---------- the service order is the scheduler's ----------

  lemma StepIsServed(p: Pipe, a: Act, rest: seq<Event>)
    ensures p.taken + Served(p.dev, EventOf(p, a) + rest) == Step(p, a).taken + Served(Step(p, a).dev, rest)
  {
    hide InsertByPrio;
    hide Key;
    var now := EventOf(p, a);
    if now == [] {
      assert now + rest == rest;
    } else {
      assert (now + rest)[0] == now[0] && (now + rest)[1..] == rest;
    }
  }

  /** On every run the taken requests are those the scheduler serves for the same events. */
  lemma {:induction false} TakenIsServed(p: Pipe, acts: seq<Act>)
    ensures Exec(p, acts).taken == p.taken + Served(p.dev, Events(p, acts))
    decreases |acts|
  {
    if acts == [] {
      assert p.taken + [] == p.taken;
    } else {
      hide Step;
      hide EventOf;
      hide Served;
      TakenIsServed(Step(p, acts[0]), acts[1..]);
      StepIsServed(p, acts[0], Events(Step(p, acts[0]), acts[1..]));
    }
  }

  lemma SentIsAnswered(p: Pipe)
    requires PInv(p)
    ensures p.sent <= Answers(p.taken)
  {
    assert p.sent + Leaving(p.reply) + InHand(p) == p.sent + (Leaving(p.reply) + InHand(p));
  }

  lemma TakenInPriorityOrder(acts: seq<Act>)
    requires Numbered(Events(IDLE, acts), 0)
    ensures Exec(IDLE, acts).taken == RefServed([], Events(IDLE, acts))
  {
    hide Exec;
    hide Events;
    hide Served;
    hide RefServed;
    hide Numbered;
    hide Key;
    var es := Events(IDLE, acts);
    TakenIsServed(IDLE, acts);
    ListRefinesPriorityQueue([], [], es, 0);
    assert [] + Served([], es) == Served([], es);
  }

  /** End to end: with requests numbered as they arrive, the replies sent are the first of
      the answers a stable priority queue would give, in its order. */
  lemma RepliesInPriorityOrder(acts: seq<Act>)
    requires Numbered(Events(IDLE, acts), 0)
    ensures Exec(IDLE, acts).sent <= Answers(RefServed([], Events(IDLE, acts)))
  {
    hide Exec;
    hide Events;
    hide RefServed;
    hide Numbered;
    hide Answers;
    RunKeepsPInv(IDLE, acts);
    hide PInv;
    SentIsAnswered(Exec(IDLE, acts));
    TakenInPriorityOrder(acts);
  }

  /** End to end: with all latencies at most L, a reply is made before that of an earlier
      request only if its own request arrived less than L after it. */
  lemma TakenWithBoundedOvertaking(acts: seq<Act>, L: nat, j: nat, k: nat)
    requires Numbered(Events(IDLE, acts), 0) && LatenciesAtMost(Events(IDLE, acts), L)
    requires j < k < |Exec(IDLE, acts).taken| && Exec(IDLE, acts).taken[k].id < Exec(IDLE, acts).taken[j].id
    ensures Exec(IDLE, acts).taken[j].arrived < Exec(IDLE, acts).taken[k].arrived + L
  {
    hide Exec;
    hide Events;
    hide Served;
    hide Numbered;
    hide LatenciesAtMost;
    var es := Events(IDLE, acts);
    TakenIsServed(IDLE, acts);
    assert [] + Served([], es) == Served([], es);
    OvertakingIsBounded([], es, 0, L, j, k);
  }

  /** Once nothing waits, every accepted request has been answered, once. */
  lemma DrainedIsAnswered(acts: seq<Act>)
    ensures var p := Exec(IDLE, acts);
            p.dev == [] && p.worker.None? && p.reply == [] ==>
              p.sent == Answers(p.taken) && multiset(p.taken) == multiset(p.accepted)
  {
    RunKeepsPInv(IDLE, acts);
    var p := Exec(IDLE, acts);
    if p.dev == [] && p.worker.None? && p.reply == [] {
      assert p.sent + Leaving(p.reply) + InHand(p) == p.sent;
    }
  }

  // ---------- what becomes of every packet ----------

  function ReadOrWrite(a: Act): seq<Request> {
    if a.Receive? && (a.r.op == Read || a.r.op == Write) then [a.r] else []
  }

  /** The reads and writes among the packets received, in order. */
  function ReadsAndWrites(acts: seq<Act>): seq<Request> {
    if acts == [] then [] else ReadOrWrite(acts[0]) + ReadsAndWrites(acts[1..])
  }

  function GcAnswer(a: Act): multiset<Request> {
    if a.Receive? && a.r.op in {GcDeny, GcSuccess, GcFinSuc} then multiset{a.r} else multiset{}
  }

  /** The answers of the switch among them. */
  function GcAnswers(acts: seq<Act>): multiset<Request> {
    if acts == [] then multiset{} else GcAnswer(acts[0]) + GcAnswers(acts[1..])
  }

  lemma AcceptedStep(p: Pipe, a: Act)
    ensures Step(p, a).accepted == p.accepted + ReadOrWrite(a)
  {
    hide InsertByPrio;
    hide EntryOf;
  }

  lemma GcRespStep(p: Pipe, a: Act)
    ensures multiset(Msgs(Step(p, a).gcresp)) == multiset(Msgs(p.gcresp)) + GcAnswer(a)
  {
    hide InsertByPrio;
    hide EntryOf;
    hide Msgs;
    if a.Receive? && IsGcAnswer(a.r.op) {
      MsgsAfterInsert(p.gcresp, Entry(a.junk, a.r));
    }
  }

  /** Every read and write received is accepted, in order, ... */
  lemma {:induction false} EveryRequestIsAccepted(p: Pipe, acts: seq<Act>)
    ensures Exec(p, acts).accepted == p.accepted + ReadsAndWrites(acts)
    decreases |acts|
  {
    hide Step;
    hide ReadOrWrite;
    if acts == [] {
      assert p.accepted + [] == p.accepted;
    } else {
      AcceptedStep(p, acts[0]);
      EveryRequestIsAccepted(Step(p, acts[0]), acts[1..]);
      assert p.accepted + ReadOrWrite(acts[0]) + ReadsAndWrites(acts[1..]) == p.accepted + ReadsAndWrites(acts);
    }
  }

  /** ... and every answer of the switch, and nothing else, goes to the thread that collects
      garbage. */
  lemma {:induction false} EveryGcAnswerIsKept(p: Pipe, acts: seq<Act>)
    ensures multiset(Msgs(Exec(p, acts).gcresp)) == multiset(Msgs(p.gcresp)) + GcAnswers(acts)
    decreases |acts|
  {
    hide Step;
    hide GcAnswer;
    hide Msgs;
    if acts != [] {
      GcRespStep(p, acts[0]);
      EveryGcAnswerIsKept(Step(p, acts[0]), acts[1..]);
    }
  }

  /** Reply k is the reply to the k-th request taken: a read reply for a read, a write reply
      for a write, with everything else as the request had it. */
  lemma RepliesAnswerRequests(acts: seq<Act>, k: nat)
    requires k < |Exec(IDLE, acts).sent|
    ensures var p := Exec(IDLE, acts);
            && k < |p.taken|
            && p.sent[k].id == p.taken[k].id && p.sent[k].lat == p.taken[k].lat
            && p.sent[k].arrived == p.taken[k].arrived
            && (p.taken[k].op == Read || p.taken[k].op == Write)
            && (p.taken[k].op == Read ==> p.sent[k].op == ReadReply)
            && (p.taken[k].op == Write ==> p.sent[k].op == WriteReply)
  {
    var p := Exec(IDLE, acts);
    RunKeepsPInv(IDLE, acts);
    hide Exec;
    SentIsAnswered(p);
    assert p.taken[k] in multiset(p.taken);
    assert p.taken[k] in multiset(p.accepted);
  }

  /** How many steps of the worker and the sender the waiting requests still need. */
  function Work(p: Pipe): nat {
    3 * |p.dev| + (if p.worker.Some? then 2 else 0) + |p.reply|
  }

  ghost predicate NoPacket(acts: seq<Act>) {
    forall k :: 0 <= k < |acts| ==> !acts[k].Receive?
  }

  /** A step of the worker or the sender does nothing, or one piece of the work. */
  lemma StepDoesWork(p: Pipe, a: Act)
    requires !a.Receive?
    ensures Step(p, a) == p || Work(Step(p, a)) == Work(p) - 1
    ensures Step(p, a).accepted == p.accepted
  {
  }

  /** While there is work some step does it. */
  lemma SomeStepWorks(p: Pipe) returns (a: Act)
    requires Work(p) > 0
    ensures !a.Receive? && Work(Step(p, a)) == Work(p) - 1
  {
    a := if p.worker.Some? then Complete else if p.dev != [] then Fetch else Send;
  }

  lemma {:induction false} Drain(p: Pipe) returns (acts: seq<Act>)
    ensures NoPacket(acts) && |acts| == Work(p) && Work(Exec(p, acts)) == 0
    decreases Work(p)
  {
    acts := [];
    if Work(p) > 0 {
      var a := SomeStepWorks(p);
      var rest := Drain(Step(p, a));
      acts := [a] + rest;
      hide Step;
      hide Work;
      assert acts[1..] == rest;
    }
  }

  lemma {:induction false} ExecAppend(p: Pipe, acts: seq<Act>, more: seq<Act>)
    ensures Exec(p, acts + more) == Exec(Exec(p, acts), more)
    decreases |acts|
  {
    if acts == [] {
      assert [] + more == more;
    } else {
      hide Step;
      assert (acts + more)[0] == acts[0] && (acts + more)[1..] == acts[1..] + more;
      ExecAppend(Step(p, acts[0]), acts[1..], more);
    }
  }

  lemma {:induction false} NothingReceived(more: seq<Act>)
    requires NoPacket(more)
    ensures ReadsAndWrites(more) == []
  {
    if more != [] {
      NothingReceived(more[1..]);
    }
  }

  /** The threads never get stuck: after any run, as many steps of worker and sender as there
      is work take and answer every read and write ever received. */
  lemma EveryRequestCanBeAnswered(acts: seq<Act>) returns (more: seq<Act>)
    ensures NoPacket(more) && |more| == Work(Exec(IDLE, acts))
    ensures var p := Exec(IDLE, acts + more);
            |p.sent| == |ReadsAndWrites(acts)| && multiset(p.taken) == multiset(ReadsAndWrites(acts))
  {
    hide Exec;
    hide Step;
    hide ReadsAndWrites;
    hide Answers;
    more := Drain(Exec(IDLE, acts));
    ExecAppend(IDLE, acts, more);
    DrainedIsAnswered(acts + more);
    EveryRequestIsAccepted(IDLE, acts);
    EveryRequestIsAccepted(Exec(IDLE, acts), more);
    NothingReceived(more);
    var p := Exec(IDLE, acts + more);
    assert [] + ReadsAndWrites(acts) + [] == ReadsAndWrites(acts);
    assert |p.taken| == |multiset(p.taken)| == |ReadsAndWrites(acts)|;
  }

  // ---------- the queues in place ----------

  ghost predicate Apart(a: CommList<Request>, b: CommList<Request>)
    reads a, b
  {
    a != b && a.footprint !! b.footprint
  }

  /** A new node for a packet, inserted by priority. */
  method Enqueue(q: CommList<Request>, r: Request, prio: int)
    requires q.Valid()
    modifies q, q.footprint
    ensures q.Valid() && q.entries == InsertByPrio(old(q.entries), Entry(prio, r))
    ensures fresh(q.footprint - old(q.footprint))
  {
    var node := new Node(r, prio);
    var k := q.InsertSorted(node);
  }

  /** The three queues and the node the worker holds. A node allocated on arrival carries
      the request to the worker and the reply back. */
  class Threads {
    const devQ: CommList<Request>
    const replyQ: CommList<Request>
    const gcrespQ: CommList<Request>
    var inHand: Node?<Request>
    ghost var accepted: seq<Request>
    ghost var taken: seq<Request>
    ghost var sent: seq<Request>

    ghost predicate Valid()
      reads this, devQ, devQ.footprint, replyQ, replyQ.footprint, gcrespQ, gcrespQ.footprint
    {
      && devQ.Valid() && replyQ.Valid() && gcrespQ.Valid()
      && Apart(devQ, replyQ) && Apart(devQ, gcrespQ) && Apart(replyQ, gcrespQ)
      && inHand !in devQ.footprint && inHand !in replyQ.footprint && inHand !in gcrespQ.footprint
    }

    ghost function Abs(): Pipe
      reads this, devQ, replyQ, gcrespQ, inHand
    {
      Pipe(devQ.entries, if inHand == null then None else Some(Entry(inHand.prio, inHand.msg)), replyQ.entries,
           gcrespQ.entries, accepted, taken, sent)
    }

    constructor (dev: CommList<Request>, reply: CommList<Request>, gcresp: CommList<Request>)
      requires dev.Valid() && reply.Valid() && gcresp.Valid()
      requires Apart(dev, reply) && Apart(dev, gcresp) && Apart(reply, gcresp)
      requires dev.entries == reply.entries == gcresp.entries == []
      ensures Valid() && Abs() == IDLE
    {
      devQ, replyQ, gcrespQ := dev, reply, gcresp;
      inHand := null;
      accepted, taken, sent := [], [], [];
    }

    /** The first half of the net loop: a packet has been received and its latency updated. */
    method Receive(r: Request, junk: int)
      requires Valid()
      modifies this`accepted, devQ, devQ.footprint, gcrespQ, gcrespQ.footprint
      ensures Valid() && Abs() == Step(old(Abs()), Act.Receive(r, junk))
    {
      hide CommList.Valid;
      hide InsertByPrio;
      hide Key;
      if r.op == Read || r.op == Write {
        Enqueue(devQ, r, Key(r.lat, r.arrived));
        accepted := accepted + [r];
      } else if r.op == GcDeny || r.op == GcSuccess || r.op == GcFinSuc {
        Enqueue(gcrespQ, r, junk);
      }
    }

    /** The worker's guarded removal from the device queue. */
    method Fetch()
      requires Valid() && inHand == null
      modifies this`inHand, this`taken, devQ, devQ.footprint
      ensures Valid() && Abs() == Step(old(Abs()), Act.Fetch)
    {
      hide CommList.Valid;
      if !devQ.IsEmpty() {
        inHand := devQ.RemoveTail();
        taken := taken + [inHand.msg];
      }
    }

    /** The worker executes the request it holds and queues the reply. */
    method Complete()
      requires Valid() && inHand != null
      modifies this`inHand, inHand, replyQ, replyQ.footprint
      ensures Valid() && Abs() == Step(old(Abs()), Act.Complete)
    {
      hide CommList.Valid;
      var node := inHand;
      if node.msg.op == Read {
        node.msg := node.msg.(op := ReadReply);
      } else {
        node.msg := node.msg.(op := WriteReply);
      }
      replyQ.InsertHead(node);
      inHand := null;
    }

    /** The second half of the net loop: one reply leaves for the client. */
    method Send()
      requires Valid()
      modifies this`sent, replyQ, replyQ.footprint
      ensures Valid() && Abs() == Step(old(Abs()), Act.Send)
    {
      hide CommList.Valid;
      if !replyQ.IsEmpty() {
        var node := replyQ.RemoveTail();
        sent := sent + [node.msg];
      }
    }
  }
}
