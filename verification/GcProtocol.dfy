/** The coordinated garbage collection protocol: the vSSD threads run_gc and run_net
    (vssd_code/rb_nexus.c:92-214, 299-366) and the switch ingress, as one transition
    system. Every GC message is one token that travels vSSD, switch, vSSD; a granted
    token is turned into the finish message and makes the round once more. Tokens move
    in any order, so every delivery order of the network and of the queues is covered. */
module GcProtocol {
  import opened Options
  import opened Switches

  datatype Loc =
    | GcQueue      // gc_q of the vSSD, waiting to be sent
    | ToSwitch     // in flight to the switch
    | Recirc       // in the switch's recirculation port
    | ToVssd       // in flight back
    | RespQueue    // gcresp_q of the vSSD
    | Collecting   // consumed by run_gc, do_gc running (doing_gc = 1)
    | Done         // consumed and freed
    | Astray       // sent out on a port that is not the vSSD's

  datatype Token = Token(v: VssdId, op: Op, loc: Loc)

  /** entered and answered count the packets that came in from vSSDs and the answers sent. */
  datatype State = State(regs: Regs, pool: seq<Token>, entered: nat, answered: nat)

  datatype Act =
    | Trigger(v: VssdId, hard: bool)   // run_gc sends a GC (hard, background) or a request (soft)
    | Advance(i: nat)                  // token i takes its next step

  function Init(): State {
    State(Cleared(), [], 0, 0)
  }

  ghost predicate Busy(s: State, v: VssdId) {
    exists i :: 0 <= i < |s.pool| && s.pool[i].v == v && s.pool[i].loc == Collecting
  }

  /** run_gc is one thread: while it collects it neither sends nor reads responses. */
  ghost predicate Enabled(t: Tables, s: State, act: Act) {
    match act
    case Trigger(v, _) => v in t.Ids() && !Busy(s, v)
    case Advance(i) =>
      && i < |s.pool|
      && s.pool[i].loc != Done
      && (s.pool[i].loc == RespQueue ==> !Busy(s, s.pool[i].v))
  }

  function Move(s: State, i: nat, tok: Token): State
    requires i < |s.pool|
  {
    s.(pool := s.pool[i := tok])
  }

  /** Where a packet of v ends up that leaves the switch on a port. */
  function Landing(t: Tables, v: VssdId, port: Option<Port>): Loc {
    if port == Some(RECIRC_PORT) then Recirc
    else if v in t.redirectPort && port == Some(t.redirectPort[v]) then ToVssd
    else Astray
  }

  function AtSwitch(t: Tables, s: State, i: nat): State
    requires t.InBounds() && s.regs.Valid() && i < |s.pool|
  {
    var tok := s.pool[i];
    var out := Ingress(t, s.regs, Header(tok.op, tok.v, 0), 0);
    var tok' := Token(out.hdr.vssd, out.hdr.op, Landing(t, out.hdr.vssd, out.port));
    State(out.regs, s.pool[i := tok'],
          s.entered + (if tok.loc == ToSwitch then 1 else 0),
          s.answered + (if IsAnswer(out.hdr.op) then 1 else 0))
  }

  function Step(t: Tables, s: State, act: Act): State
    requires t.InBounds() && s.regs.Valid()
    requires act.Advance? ==> act.i < |s.pool|
  {
    match act
    case Trigger(v, hard) => s.(pool := s.pool + [Token(v, if hard then Gc else GcRequest, GcQueue)])
    case Advance(i) =>
      var tok := s.pool[i];
      match tok.loc
      case GcQueue => Move(s, i, tok.(loc := ToSwitch))
      case ToSwitch => AtSwitch(t, s, i)
      case Recirc => AtSwitch(t, s, i)
      case ToVssd => Move(s, i, tok.(loc := RespQueue))
      case RespQueue => Move(s, i, tok.(loc := if tok.op == GcSuccess then Collecting else Done))
      case Collecting => Move(s, i, Token(tok.v, GcFinish, GcQueue))
      case Done => s
      case Astray => s
  }

  /** The state after a run, None when some action was not enabled. */
  ghost function Exec(t: Tables, s: State, acts: seq<Act>): (r: Option<State>)
    requires t.InBounds() && s.regs.Valid()
    ensures r.Some? ==> r.value.regs.Valid()
  {
    if acts == [] then Some(s)
    else
      var before := Exec(t, s, acts[..|acts| - 1]);
      var act := acts[|acts| - 1];
      if before.Some? && Enabled(t, before.value, act) then Some(Step(t, before.value, act)) else None
  }

  // ---------- invariants ----------

  predicate IsSent(op: Op) {
    op == Gc || op == GcRequest || op == GcFinish
  }

  predicate TokenOk(t: Tables, tok: Token) {
    && tok.v in t.Ids()
    && match tok.loc
       case GcQueue => IsSent(tok.op)
       case ToSwitch => IsSent(tok.op)
       case Recirc => tok.op == Gc
       case ToVssd => IsAnswer(tok.op)
       case RespQueue => IsAnswer(tok.op)
       case Collecting => tok.op == GcSuccess
       case Done => tok.op == GcDeny || tok.op == GcFinSuc
       case Astray => false
  }

  /** A grant that has been answered with success and not yet finished at the switch. */
  predicate IsGrant(tok: Token) {
    || (tok.op == GcSuccess && (tok.loc == ToVssd || tok.loc == RespQueue || tok.loc == Collecting))
    || (tok.op == GcFinish && (tok.loc == GcQueue || tok.loc == ToSwitch))
  }

  ghost predicate HasGrant(s: State, v: VssdId) {
    exists i :: 0 <= i < |s.pool| && s.pool[i].v == v && IsGrant(s.pool[i])
  }

  predicate Bit(s: State, v: VssdId)
    requires s.regs.Valid()
  {
    v < REGISTER_LENGTH && s.regs.replica[v]
  }

  ghost predicate Inv(t: Tables, s: State) {
    && s.regs.Valid()
    && s.regs.replica == s.regs.destination
    && (forall i :: 0 <= i < |s.pool| ==> TokenOk(t, s.pool[i]))
    && (forall v {:trigger HasGrant(s, v)} :: v in t.Ids() && Bit(s, v) ==> HasGrant(s, v))
    && (forall v :: Bit(s, v) ==> v in t.Ids())
  }

  /** What the switch does to the registers and to the token it holds. */
  lemma SwitchEffect(t: Tables, s: State, i: nat)
    requires t.Consistent() && Inv(t, s) && i < |s.pool|
    requires s.pool[i].loc == ToSwitch || s.pool[i].loc == Recirc
    ensures var tok := s.pool[i];
            var v := tok.v;
            var s' := AtSwitch(t, s, i);
            && v < REGISTER_LENGTH && t.replica[v] < REGISTER_LENGTH
            && s'.regs.Valid() && s'.regs.replica == s'.regs.destination
            && s'.regs.replica == (if tok.op == Gc then s.regs.replica[v := true]
                                   else if tok.op == GcFinish then s.regs.replica[v := false]
                                   else s.regs.replica)
            && s'.pool == s.pool[i :=
                 if tok.op == Gc then Token(v, GcSuccess, ToVssd)
                 else if tok.op == GcFinish then Token(v, GcFinSuc, ToVssd)
                 else if s.regs.replica[t.replica[v]] then Token(v, GcDeny, ToVssd)
                 else Token(v, Gc, Recirc)]
  {
    var v := s.pool[i].v;
    assert TokenOk(t, s.pool[i]);
    assert t.Wired(v) && t.CellsInBounds(v) && t.Wired(t.replica[v]);
  }

  /** A grant survives a step that leaves all other tokens alone and, if it concerns the
      moved token itself, keeps that token a grant. */
  lemma GrantKept(s: State, s': State, i: nat, v: VssdId)
    requires |s.pool| <= |s'.pool|
    requires forall j :: 0 <= j < |s.pool| && j != i ==> s'.pool[j] == s.pool[j]
    requires HasGrant(s, v)
    requires i < |s.pool| && s.pool[i].v == v && IsGrant(s.pool[i]) ==> s'.pool[i].v == v && IsGrant(s'.pool[i])
    ensures HasGrant(s', v)
  {
    var j :| 0 <= j < |s.pool| && s.pool[j].v == v && IsGrant(s.pool[j]);
    assert s'.pool[j].v == v && IsGrant(s'.pool[j]);
  }

  predicate IsSwitchStep(s: State, act: Act) {
    act.Advance? && act.i < |s.pool| && (s.pool[act.i].loc == ToSwitch || s.pool[act.i].loc == Recirc)
  }

  lemma SwitchStepKeepsInv(t: Tables, s: State, act: Act)
    requires t.Consistent() && Inv(t, s) && Enabled(t, s, act) && IsSwitchStep(s, act)
    ensures Inv(t, Step(t, s, act))
  {
    var i := act.i;
    var tok := s.pool[i];
    var s' := Step(t, s, act);
    assert TokenOk(t, tok);
    SwitchEffect(t, s, i);
    forall v | v in t.Ids() && Bit(s', v) ensures HasGrant(s', v) {
      if v == tok.v && tok.op == Gc {
        assert IsGrant(s'.pool[i]);
      } else {
        assert HasGrant(s, v);
        GrantKept(s, s', i, v);
      }
    }
  }

  lemma LocalStepKeepsInv(t: Tables, s: State, act: Act)
    requires t.Consistent() && Inv(t, s) && Enabled(t, s, act) && !IsSwitchStep(s, act)
    ensures Inv(t, Step(t, s, act))
  {
    var s' := Step(t, s, act);
    var i := if act.Advance? then act.i else |s.pool|;
    assert act.Advance? ==> TokenOk(t, s.pool[i]);
    forall v | v in t.Ids() && Bit(s', v) ensures HasGrant(s', v) {
      assert HasGrant(s, v);
      GrantKept(s, s', i, v);
    }
  }

  lemma StepKeepsInv(t: Tables, s: State, act: Act)
    requires t.Consistent() && Inv(t, s) && Enabled(t, s, act)
    ensures Inv(t, Step(t, s, act))
  {
    if IsSwitchStep(s, act) {
      SwitchStepKeepsInv(t, s, act);
    } else {
      LocalStepKeepsInv(t, s, act);
    }
  }

  /** No leaked GC bit: in every reachable state a set bit is owed to an outstanding
      grant (success on its way, v collecting, or its finish on its way). */
  lemma {:induction false} NoLeakedBit(t: Tables, acts: seq<Act>, s: State)
    requires t.Consistent() && Exec(t, Init(), acts) == Some(s)
    ensures Inv(t, s)
    ensures forall v :: Bit(s, v) ==> HasGrant(s, v)
  {
    if acts != [] {
      var before := Exec(t, Init(), acts[..|acts| - 1]);
      NoLeakedBit(t, acts[..|acts| - 1], before.value);
      StepKeepsInv(t, before.value, acts[|acts| - 1]);
    }
  }

  /** No answer is sent out on a port that is not its vSSD's. */
  lemma NothingGoesAstray(t: Tables, acts: seq<Act>, s: State)
    requires t.Consistent() && Exec(t, Init(), acts) == Some(s)
    ensures forall i :: 0 <= i < |s.pool| ==> s.pool[i].loc != Astray && s.pool[i].v in t.Ids()
  {
    NoLeakedBit(t, acts, s);
    forall i | 0 <= i < |s.pool| ensures s.pool[i].loc != Astray && s.pool[i].v in t.Ids() {
      assert TokenOk(t, s.pool[i]);
    }
  }

  // ---------- conservation and quiescence ----------

  /** Total weight of a pool of tokens. */
  ghost function Sum(pool: seq<Token>, w: Token -> nat): nat {
    if pool == [] then 0 else Sum(pool[..|pool| - 1], w) + w(pool[|pool| - 1])
  }

  lemma {:induction false} SumUpdate(pool: seq<Token>, w: Token -> nat, i: nat, tok: Token)
    requires i < |pool|
    ensures Sum(pool[i := tok], w) + w(pool[i]) == Sum(pool, w) + w(tok)
  {
    var n := |pool| - 1;
    if i < n {
      SumUpdate(pool[..n], w, i, tok);
      assert pool[i := tok][..n] == pool[..n][i := tok];
    } else {
      assert pool[i := tok][..n] == pool[..n];
    }
  }

  lemma SumAppend(pool: seq<Token>, w: Token -> nat, tok: Token)
    ensures Sum(pool + [tok], w) == Sum(pool, w) + w(tok)
  {
    assert (pool + [tok])[..|pool|] == pool;
  }

  function RecircWeight(tok: Token): nat {
    if tok.loc == Recirc then 1 else 0
  }

  /** Packets that entered the switch are answered or recirculating, never lost and
      never answered twice. */
  lemma {:induction false} EnteredIsAnsweredOrRecirculating(t: Tables, acts: seq<Act>, s: State)
    requires t.Consistent() && Exec(t, Init(), acts) == Some(s)
    ensures s.entered == s.answered + Sum(s.pool, RecircWeight)
  {
    if acts != [] {
      var b := Exec(t, Init(), acts[..|acts| - 1]).value;
      var act := acts[|acts| - 1];
      EnteredIsAnsweredOrRecirculating(t, acts[..|acts| - 1], b);
      NoLeakedBit(t, acts[..|acts| - 1], b);
      if act.Trigger? {
        SumAppend(b.pool, RecircWeight, s.pool[|b.pool|]);
      } else {
        assert TokenOk(t, b.pool[act.i]);
        SumUpdate(b.pool, RecircWeight, act.i, s.pool[act.i]);
        if IsSwitchStep(b, act) {
          SwitchEffect(t, b, act.i);
        }
      }
    }
  }

  /** How many steps a token can still take. */
  function StepsLeft(tok: Token): nat {
    match tok.loc
    case GcQueue => if tok.op == GcFinish then 4 else 10
    case ToSwitch => if tok.op == GcFinish then 3 else 9
    case Recirc => 8
    case ToVssd => if tok.op == GcSuccess then 7 else 2
    case RespQueue => if tok.op == GcSuccess then 6 else 1
    case Collecting => 5
    case Done => 0
    case Astray => 0
  }

  lemma AdvanceUsesAStep(t: Tables, s: State, i: nat)
    requires t.Consistent() && Inv(t, s) && Enabled(t, s, Advance(i))
    ensures Sum(Step(t, s, Advance(i)).pool, StepsLeft) < Sum(s.pool, StepsLeft)
  {
    var s' := Step(t, s, Advance(i));
    assert TokenOk(t, s.pool[i]);
    if IsSwitchStep(s, Advance(i)) {
      SwitchEffect(t, s, i);
    }
    assert StepsLeft(s'.pool[i]) < StepsLeft(s.pool[i]);
    assert s'.pool == s.pool[i := s'.pool[i]];
    SumUpdate(s.pool, StepsLeft, i, s'.pool[i]);
  }

  ghost predicate NoTrigger(acts: seq<Act>) {
    forall k :: 0 <= k < |acts| ==> acts[k].Advance?
  }

  /** Once triggers stop, the protocol runs down: only finitely many steps remain. */
  lemma {:induction false} RunsDown(t: Tables, s: State, acts: seq<Act>, s': State)
    requires t.Consistent() && Inv(t, s) && NoTrigger(acts) && Exec(t, s, acts) == Some(s')
    ensures Inv(t, s') && |acts| + Sum(s'.pool, StepsLeft) <= Sum(s.pool, StepsLeft)
  {
    if acts != [] {
      var before := acts[..|acts| - 1];
      var act := acts[|acts| - 1];
      RunsDown(t, s, before, Exec(t, s, before).value);
      assert act.Advance?;
      StepKeepsInv(t, Exec(t, s, before).value, act);
      AdvanceUsesAStep(t, Exec(t, s, before).value, act.i);
    }
  }

  /** While some token is not consumed, some step is enabled ... */
  lemma Progress(t: Tables, s: State, k: nat) returns (i: nat)
    requires k < |s.pool| && s.pool[k].loc != Done
    ensures Enabled(t, s, Advance(i))
  {
    i := k;
    if s.pool[k].loc == RespQueue && Busy(s, s.pool[k].v) {
      i :| 0 <= i < |s.pool| && s.pool[i].v == s.pool[k].v && s.pool[i].loc == Collecting;
    }
  }

  /** ... so the protocol stops only with every token consumed, and then every GC bit
      is clear. */
  lemma StuckIsQuiescent(t: Tables, s: State)
    requires t.Consistent() && Inv(t, s)
    requires forall i: nat :: !Enabled(t, s, Advance(i))
    ensures forall i :: 0 <= i < |s.pool| ==> s.pool[i].loc == Done
    ensures forall v :: !Bit(s, v)
  {
    if k: nat :| k < |s.pool| && s.pool[k].loc != Done {
      var i := Progress(t, s, k);
      assert false;
    }
    forall v ensures !Bit(s, v) {
      assert !HasGrant(s, v);
    }
  }
}
