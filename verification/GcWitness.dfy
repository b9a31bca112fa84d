/** Runs in which both vSSDs of a pair collect at once: exclusion is not a law of the
    protocol as it stands. There is one for each way to contest a grant, for every pair of
    every rack. */
module GcWitness {
  import opened Options
  import opened Switches
  import opened GcProtocol
  import opened GcExclusion

  ghost predicate At(t: Tables, acts: seq<Act>, s: State) {
    && t.Consistent() && t.Paired()
    && Exec(t, Init(), acts) == Some(s)
    && Inv(t, s)
  }

  /** One more step of a run. */
  lemma Go(t: Tables, acts: seq<Act>, s: State, act: Act) returns (acts': seq<Act>, s': State)
    requires At(t, acts, s) && Enabled(t, s, act)
    ensures s' == Step(t, s, act) && At(t, acts', s')
    ensures Soft(acts) && (act.Trigger? ==> !act.hard) ==> Soft(acts')
    ensures NoOverlap(t, acts) && !Overlaps(t, s, act) ==> NoOverlap(t, acts')
    ensures Disciplined(t, acts) && (act.Trigger? ==> Idle(s, act.v)) ==> Disciplined(t, acts')
  {
    acts' := acts + [act];
    s' := Step(t, s, act);
    assert acts'[..|acts'| - 1] == acts;
    StepKeepsInv(t, s, act);
  }

  lemma Ask(t: Tables, acts: seq<Act>, s: State, v: VssdId) returns (acts': seq<Act>, s': State)
    requires At(t, acts, s) && v in t.Ids() && !Busy(s, v)
    ensures At(t, acts', s') && s'.regs == s.regs && s'.pool == s.pool + [Token(v, GcRequest, ToSwitch)]
    ensures Soft(acts) ==> Soft(acts')
    ensures NoOverlap(t, acts) ==> NoOverlap(t, acts')
    ensures Disciplined(t, acts) && Idle(s, v) ==> Disciplined(t, acts')
  {
    acts', s' := Go(t, acts, s, Trigger(v, false));
    acts', s' := Go(t, acts', s', Advance(|s.pool|));
  }

  /** The request of token i passes the check of the peer's bit. */
  lemma Check(t: Tables, acts: seq<Act>, s: State, i: nat) returns (acts': seq<Act>, s': State)
    requires At(t, acts, s) && i < |s.pool| && s.pool[i].v in t.Ids()
    requires s.pool[i].op == GcRequest && s.pool[i].loc == ToSwitch && !Bit(s, t.replica[s.pool[i].v])
    ensures At(t, acts', s') && s'.regs.replica == s.regs.replica
    ensures Soft(acts) ==> Soft(acts')
    ensures s'.pool == s.pool[i := Token(s.pool[i].v, Gc, Recirc)]
    ensures NoOverlap(t, acts) && !HasPending(s, t.replica[s.pool[i].v]) ==> NoOverlap(t, acts')
    ensures Disciplined(t, acts) ==> Disciplined(t, acts')
  {
    acts', s' := Go(t, acts, s, Advance(i));
    SwitchEffect(t, s, i);
  }

  /** The recirculated grant sets the bit and the success is delivered. */
  lemma Grant(t: Tables, acts: seq<Act>, s: State, i: nat) returns (acts': seq<Act>, s': State)
    requires At(t, acts, s) && i < |s.pool| && s.pool[i].op == Gc && s.pool[i].loc == Recirc
    ensures At(t, acts', s') && s.pool[i].v < REGISTER_LENGTH
    ensures Soft(acts) ==> Soft(acts')
    ensures s'.regs.replica == s.regs.replica[s.pool[i].v := true]
    ensures s'.pool == s.pool[i := Token(s.pool[i].v, GcSuccess, RespQueue)]
    ensures NoOverlap(t, acts) ==> NoOverlap(t, acts')
    ensures Disciplined(t, acts) ==> Disciplined(t, acts')
  {
    acts', s' := Go(t, acts, s, Advance(i));
    SwitchEffect(t, s, i);
    acts', s' := Go(t, acts', s', Advance(i));
  }

  /** The vSSD consumes a waiting success. */
  lemma Collect(t: Tables, acts: seq<Act>, s: State, i: nat) returns (acts': seq<Act>, s': State)
    requires At(t, acts, s) && i < |s.pool| && s.pool[i].op == GcSuccess && s.pool[i].loc == RespQueue
    requires !Busy(s, s.pool[i].v)
    ensures At(t, acts', s')
    ensures Soft(acts) ==> Soft(acts')
    ensures s' == s.(pool := s.pool[i := Token(s.pool[i].v, GcSuccess, Collecting)])
    ensures NoOverlap(t, acts) ==> NoOverlap(t, acts')
    ensures Disciplined(t, acts) ==> Disciplined(t, acts')
  {
    acts', s' := Go(t, acts, s, Advance(i));
  }

  /** The vSSD finishes its collection and the switch clears the bit. */
  lemma Finish(t: Tables, acts: seq<Act>, s: State, i: nat) returns (acts': seq<Act>, s': State)
    requires At(t, acts, s) && i < |s.pool| && s.pool[i].loc == Collecting
    ensures At(t, acts', s') && s.pool[i].v < REGISTER_LENGTH
    ensures Soft(acts) ==> Soft(acts')
    ensures s'.regs.replica == s.regs.replica[s.pool[i].v := false]
    ensures s'.pool == s.pool[i := Token(s.pool[i].v, GcFinSuc, ToVssd)]
    ensures NoOverlap(t, acts) ==> NoOverlap(t, acts')
    ensures Disciplined(t, acts) ==> Disciplined(t, acts')
  {
    acts', s' := Go(t, acts, s, Advance(i));
    acts', s' := Go(t, acts', s', Advance(i));
    SwitchEffect(t, s', i);
    acts', s' := Go(t, acts', s', Advance(i));
  }

  /** A request of v that finds the peer's bit clear, from sending to delivery. */
  lemma Obtain(t: Tables, acts: seq<Act>, s: State, v: VssdId) returns (acts': seq<Act>, s': State)
    requires At(t, acts, s) && v in t.Ids() && !Busy(s, v) && !Bit(s, t.replica[v])
    requires NoOverlap(t, acts) && (forall i :: 0 <= i < |s.pool| ==> s.pool[i].loc != Recirc)
    ensures At(t, acts', s') && NoOverlap(t, acts') && v < REGISTER_LENGTH
    ensures Soft(acts) ==> Soft(acts')
    ensures Disciplined(t, acts) && Idle(s, v) ==> Disciplined(t, acts')
    ensures s'.regs.replica == s.regs.replica[v := true]
    ensures s'.pool == s.pool + [Token(v, GcSuccess, RespQueue)]
  {
    acts', s' := Ask(t, acts, s, v);
    assert !HasPending(s', t.replica[v]);
    acts', s' := Check(t, acts', s', |s.pool|);
    acts', s' := Grant(t, acts', s', |s.pool|);
  }

  lemma GrantedTwice(t: Tables, v: VssdId) returns (acts: seq<Act>, s: State)
    requires t.Consistent() && t.Paired() && v in t.Ids()
    ensures At(t, acts, s) && Soft(acts) && NoOverlap(t, acts)
    ensures s.pool == [Token(v, GcSuccess, RespQueue), Token(v, GcSuccess, RespQueue)]
  {
    assert t.PairedWith(v);
    acts, s := [], Init();
    NoLeakedBit(t, acts, s);
    acts, s := Obtain(t, acts, s, v);
    acts, s := Obtain(t, acts, s, v);
  }

  /** Re-sent requests: v is granted twice, its first finish clears the bit, and it goes
      on to collect a second time with its bit clear. */
  lemma CollectsUnprotected(t: Tables, v: VssdId) returns (acts: seq<Act>, s: State)
    requires t.Consistent() && t.Paired() && v in t.Ids()
    ensures At(t, acts, s) && Soft(acts) && NoOverlap(t, acts) && !Bit(s, v)
    ensures s.pool == [Token(v, GcFinSuc, ToVssd), Token(v, GcSuccess, Collecting)]
  {
    acts, s := GrantedTwice(t, v);
    acts, s := Collect(t, acts, s, 0);
    acts, s := Finish(t, acts, s, 0);
    acts, s := Collect(t, acts, s, 1);
  }

  /** Without an overlap, re-sent requests are enough to lose exclusion: while v collects
      unprotected, its peer is granted and collects as well. */
  lemma ResentRequestBreaksExclusion(t: Tables, v: VssdId) returns (acts: seq<Act>, s: State)
    requires t.Consistent() && t.Paired() && v in t.Ids()
    ensures Exec(t, Init(), acts) == Some(s) && Soft(acts) && NoOverlap(t, acts)
    ensures Busy(s, v) && Busy(s, t.replica[v])
  {
    assert t.PairedWith(v);
    var r := t.replica[v];
    acts, s := CollectsUnprotected(t, v);
    acts, s := Obtain(t, acts, s, r);
    acts, s := Collect(t, acts, s, 2);
    assert s.pool[1].loc == Collecting && s.pool[2].loc == Collecting;
  }

  lemma BothPassTheCheck(t: Tables, v: VssdId) returns (acts: seq<Act>, s: State)
    requires t.Consistent() && t.Paired() && v in t.Ids()
    ensures At(t, acts, s) && Soft(acts) && Disciplined(t, acts)
    ensures s.pool == [Token(v, Gc, Recirc), Token(t.replica[v], Gc, Recirc)]
  {
    assert t.PairedWith(v);
    acts, s := [], Init();
    NoLeakedBit(t, acts, s);
    acts, s := Ask(t, acts, s, v);
    acts, s := Ask(t, acts, s, t.replica[v]);
    acts, s := Check(t, acts, s, 0);
    acts, s := Check(t, acts, s, 1);
  }

  /** With one request at a time, an overlap is enough: both requests pass the check
      before either bit is set. */
  lemma OverlapBreaksExclusion(t: Tables, v: VssdId) returns (acts: seq<Act>, s: State)
    requires t.Consistent() && t.Paired() && v in t.Ids()
    ensures Exec(t, Init(), acts) == Some(s) && Soft(acts) && Disciplined(t, acts)
    ensures s.regs.Valid() && Bit(s, v) && Bit(s, t.replica[v])
    ensures Busy(s, v) && Busy(s, t.replica[v])
  {
    assert t.PairedWith(v);
    acts, s := BothPassTheCheck(t, v);
    acts, s := Grant(t, acts, s, 0);
    acts, s := Grant(t, acts, s, 1);
    acts, s := Collect(t, acts, s, 0);
    acts, s := Collect(t, acts, s, 1);
    assert s.pool[0].loc == Collecting && s.pool[1].loc == Collecting;
  }

  /** A hard GC of v, from sending to delivery: no bit is looked at. */
  lemma Force(t: Tables, acts: seq<Act>, s: State, v: VssdId) returns (acts': seq<Act>, s': State)
    requires At(t, acts, s) && v in t.Ids() && !Busy(s, v)
    ensures At(t, acts', s') && v < REGISTER_LENGTH
    ensures s'.regs.replica == s.regs.replica[v := true]
    ensures s'.pool == s.pool + [Token(v, GcSuccess, RespQueue)]
    ensures NoOverlap(t, acts) ==> NoOverlap(t, acts')
    ensures Disciplined(t, acts) && Idle(s, v) ==> Disciplined(t, acts')
  {
    var i := |s.pool|;
    acts', s' := Go(t, acts, s, Trigger(v, true));
    acts', s' := Go(t, acts', s', Advance(i));
    SwitchEffect(t, s', i);
    acts', s' := Go(t, acts', s', Advance(i));
    acts', s' := Go(t, acts', s', Advance(i));
  }

  /** With one request at a time and without an overlap, a hard GC is enough: it is granted
      whatever the peer does. */
  lemma HardGcBreaksExclusion(t: Tables, v: VssdId) returns (acts: seq<Act>, s: State)
    requires t.Consistent() && t.Paired() && v in t.Ids()
    ensures Exec(t, Init(), acts) == Some(s) && Disciplined(t, acts) && NoOverlap(t, acts)
    ensures Busy(s, v) && Busy(s, t.replica[v])
  {
    assert t.PairedWith(v);
    var r := t.replica[v];
    acts, s := [], Init();
    NoLeakedBit(t, acts, s);
    acts, s := Obtain(t, acts, s, v);
    acts, s := Force(t, acts, s, r);
    assert s.pool == [Token(v, GcSuccess, RespQueue), Token(r, GcSuccess, RespQueue)];
    acts, s := Collect(t, acts, s, 0);
    acts, s := Collect(t, acts, s, 1);
    assert s.pool[0].loc == Collecting && s.pool[1].loc == Collecting;
  }

  /** A rack of two vSSDs that replicate each other, with registers indexed by id. */
  function TwoVssds(): Tables {
    var same := map[0 := 0, 1 := 1];
    Tables(map[0 := 1, 1 := 0], map[0 := 10, 1 := 11], same, same, same, same, map[0 := 1, 1 := 2], map[])
  }

  /** The hypotheses on the tables can be met, so each of the runs exists on a real rack. */
  lemma TwoVssdsArePaired()
    ensures TwoVssds().Consistent() && TwoVssds().Paired() && TwoVssds().Ids() == {0, 1}
  {
    var t := TwoVssds();
    assert forall v {:trigger t.CellsInBounds(v)} :: t.CellsInBounds(v);
    assert forall v {:trigger t.Wired(v)} :: t.Wired(v);
    assert forall v {:trigger t.PairedWith(v)} :: t.PairedWith(v);
  }
}
