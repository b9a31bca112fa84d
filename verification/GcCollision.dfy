/** When can the two vSSDs of a pair collect at the same time? Exact for every run of the
    protocol (vssd_code/rb_nexus.c:310-363, p4_code/basic_switch/basic_rackblox.p4:356-407). */
module GcCollision {
  import opened Options
  import opened Switches
  import opened GcProtocol
  import opened GcExclusion

  /** A collection that is granted and not over: the grant recirculates, or its success is
      on its way, waiting or being used. */
  predicate IsTitle(tok: Token) {
    || tok.loc == Recirc
    || (tok.op == GcSuccess && (tok.loc == ToVssd || tok.loc == RespQueue || tok.loc == Collecting))
  }

  ghost predicate Entitled(s: State, v: VssdId) {
    exists i :: 0 <= i < |s.pool| && s.pool[i].v == v && IsTitle(s.pool[i])
  }

  ghost predicate OneTitle(t: Tables, s: State, v: VssdId) {
    v in t.Ids() ==> !(Entitled(s, v) && Entitled(s, t.replica[v]))
  }

  ghost predicate OneTitleEach(t: Tables, s: State) {
    forall v {:trigger OneTitle(t, s, v)} :: OneTitle(t, s, v)
  }

  ghost predicate AlwaysOneTitle(t: Tables, acts: seq<Act>)
    requires t.InBounds()
  {
    && (var s := Exec(t, Init(), acts); s.Some? ==> OneTitleEach(t, s.value))
    && (acts != [] ==> AlwaysOneTitle(t, acts[..|acts| - 1]))
  }

  /** A grant begins, by a request that finds the peer's bit clear or by a hard GC, although
      the peer is entitled to collect. */
  ghost predicate TitleContested(t: Tables, s: State, act: Act)
    requires s.regs.Valid()
  {
    && act.Advance? && act.i < |s.pool| && s.pool[act.i].loc == ToSwitch && s.pool[act.i].v in t.Ids()
    && var op, r := s.pool[act.i].op, t.replica[s.pool[act.i].v];
    (op == Gc || (op == GcRequest && !Bit(s, r))) && Entitled(s, r)
  }

  ghost predicate NoTitleContest(t: Tables, acts: seq<Act>)
    requires t.InBounds()
  {
    acts != [] ==>
      && NoTitleContest(t, acts[..|acts| - 1])
      && (var b := Exec(t, Init(), acts[..|acts| - 1]);
          b.Some? ==> !TitleContested(t, b.value, acts[|acts| - 1]))
  }

  lemma CollectorIsEntitled(s: State, v: VssdId, t: Tables)
    requires Inv(t, s) && Busy(s, v)
    ensures Entitled(s, v)
  {
    var i :| 0 <= i < |s.pool| && s.pool[i].v == v && s.pool[i].loc == Collecting;
    assert TokenOk(t, s.pool[i]) && IsTitle(s.pool[i]);
  }

  lemma TitleGrows(t: Tables, s: State, act: Act, v: VssdId)
    requires t.Consistent() && Inv(t, s) && Enabled(t, s, act)
    requires Entitled(Step(t, s, act), v) && !Entitled(s, v)
    ensures Begins(t, s, act, v)
  {
    var s' := Step(t, s, act);
    var j :| 0 <= j < |s'.pool| && s'.pool[j].v == v && IsTitle(s'.pool[j]);
    assert act.Advance? && j == act.i;
    assert TokenOk(t, s.pool[j]);
    if IsSwitchStep(s, act) {
      SwitchEffect(t, s, j);
    }
  }

  lemma BeginningEntitles(t: Tables, s: State, act: Act, v: VssdId)
    requires t.Consistent() && t.Paired() && Inv(t, s) && Enabled(t, s, act) && Begins(t, s, act, v)
    ensures Entitled(Step(t, s, act), v)
    ensures Entitled(Step(t, s, act), t.replica[v]) <==> Entitled(s, t.replica[v])
  {
    var s', r := Step(t, s, act), t.replica[v];
    assert t.PairedWith(v) && r != v;
    SwitchEffect(t, s, act.i);
    assert s'.pool[act.i].v == v && IsTitle(s'.pool[act.i]);
    assert forall j :: 0 <= j < |s.pool| && j != act.i ==> s'.pool[j] == s.pool[j];
  }

  lemma OneTitleKept(t: Tables, s: State, act: Act)
    requires t.Consistent() && t.Paired() && Inv(t, s) && Enabled(t, s, act) && OneTitleEach(t, s)
    ensures OneTitleEach(t, Step(t, s, act)) <==> !TitleContested(t, s, act)
  {
    var s' := Step(t, s, act);
    if TitleContested(t, s, act) {
      var v := s.pool[act.i].v;
      assert s.pool[act.i] == Token(v, s.pool[act.i].op, ToSwitch);
      BeginningEntitles(t, s, act, v);
      assert !OneTitle(t, s', v);
    } else {
      forall v ensures OneTitle(t, s', v) {
        assert OneTitle(t, s, v) && t.PairedWith(v);
        if v in t.Ids() && Entitled(s', v) && Entitled(s', t.replica[v]) {
          var x := if Entitled(s, v) then t.replica[v] else v;
          TitleGrows(t, s, act, x);
          BeginningEntitles(t, s, act, x);
          assert false;
        }
      }
    }
  }

  /** The exact condition, for every run: the two vSSDs of a pair are never entitled to
      collect at once if and only if no grant begins while the peer is entitled. */
  lemma {:induction false} OneTitleIffNoContest(t: Tables, acts: seq<Act>)
    requires t.Consistent() && t.Paired() && Exec(t, Init(), acts).Some?
    ensures AlwaysOneTitle(t, acts) <==> NoTitleContest(t, acts)
  {
    if acts == [] {
      assert forall v {:trigger OneTitle(t, Init(), v)} :: OneTitle(t, Init(), v);
    } else {
      var before := acts[..|acts| - 1];
      var b := Exec(t, Init(), before).value;
      OneTitleIffNoContest(t, before);
      NoLeakedBit(t, before, b);
      if AlwaysOneTitle(t, before) {
        OneTitleKept(t, b, acts[|acts| - 1]);
      }
    }
  }

  // ---------- a title is as good as a collection ----------

  /** The longer run goes on from the shorter one by deliveries alone: no vSSD sends a new
      request. */
  ghost predicate GoesOn(acts: seq<Act>, acts': seq<Act>) {
    && |acts| <= |acts'| && acts'[..|acts|] == acts
    && forall k :: |acts| <= k < |acts'| ==> acts'[k].Advance?
  }

  lemma GoesOnAndOn(a: seq<Act>, b: seq<Act>, c: seq<Act>)
    requires GoesOn(a, b) && GoesOn(b, c)
    ensures GoesOn(a, c)
  {
    assert c[..|a|] == c[..|b|][..|a|];
    forall k | |a| <= k < |c| ensures c[k].Advance? {
      if k < |b| {
        assert c[..|b|][k] == c[k];
      }
    }
  }

  /** acts is a run, and it ends in s. */
  ghost predicate Ends(t: Tables, acts: seq<Act>, s: State) {
    t.Consistent() && Exec(t, Init(), acts) == Some(s) && Inv(t, s)
  }

  /** One more delivery. */
  lemma Deliver(t: Tables, acts: seq<Act>, s: State, i: nat)
    requires Ends(t, acts, s) && Enabled(t, s, Advance(i))
    ensures Ends(t, acts + [Advance(i)], Step(t, s, Advance(i))) && GoesOn(acts, acts + [Advance(i)])
  {
    assert (acts + [Advance(i)])[..|acts|] == acts;
    StepKeepsInv(t, s, Advance(i));
  }

  /** The next delivery of an entitled token that is not yet used. */
  lemma TitleAdvances(t: Tables, s: State, i: nat)
    requires t.Consistent() && Inv(t, s) && i < |s.pool| && IsTitle(s.pool[i]) && !Busy(s, s.pool[i].v)
    ensures Enabled(t, s, Advance(i)) && |Step(t, s, Advance(i)).pool| == |s.pool|
    ensures var tok := Step(t, s, Advance(i)).pool[i];
            IsTitle(tok) && tok.v == s.pool[i].v && StepsLeft(tok) < StepsLeft(s.pool[i])
    ensures forall j :: 0 <= j < |s.pool| && j != i ==> Step(t, s, Advance(i)).pool[j] == s.pool[j]
  {
    assert TokenOk(t, s.pool[i]);
    if s.pool[i].loc == Recirc {
      SwitchEffect(t, s, i);
    }
  }

  /** By deliveries alone, and moving no token but the i-th, its vSSD comes to collect. */
  lemma {:induction false} Drive(t: Tables, acts: seq<Act>, s: State, i: nat) returns (acts': seq<Act>, s': State)
    requires Ends(t, acts, s) && i < |s.pool| && IsTitle(s.pool[i])
    ensures GoesOn(acts, acts') && Ends(t, acts', s')
    ensures Busy(s', s.pool[i].v) && |s'.pool| == |s.pool|
    ensures forall j :: 0 <= j < |s.pool| && j != i ==> s'.pool[j] == s.pool[j]
    decreases StepsLeft(s.pool[i])
  {
    if Busy(s, s.pool[i].v) {
      return acts, s;
    }
    TitleAdvances(t, s, i);
    Deliver(t, acts, s, i);
    var next := Step(t, s, Advance(i));
    hide Step;
    hide Ends;
    hide GoesOn;
    hide IsTitle;
    hide Busy;
    hide StepsLeft;
    acts', s' := Drive(t, acts + [Advance(i)], next, i);
    GoesOnAndOn(acts, acts + [Advance(i)], acts');
  }

  lemma StillBusy(s: State, s': State, j: nat, v: VssdId)
    requires Busy(s, v) && |s'.pool| == |s.pool| && j < |s.pool| && s.pool[j].v != v
    requires forall k :: 0 <= k < |s.pool| && k != j ==> s'.pool[k] == s.pool[k]
    ensures Busy(s', v)
  {
    var k :| 0 <= k < |s.pool| && s.pool[k].v == v && s.pool[k].loc == Collecting;
    assert s'.pool[k] == s.pool[k];
  }

  /** If both sides are entitled, deliveries alone can make both collect at once. */
  lemma TitlesCollide(t: Tables, acts: seq<Act>, s: State, v: VssdId) returns (acts': seq<Act>, s': State)
    requires Ends(t, acts, s) && t.Paired()
    requires v in t.Ids() && Entitled(s, v) && Entitled(s, t.replica[v])
    ensures GoesOn(acts, acts') && Ends(t, acts', s')
    ensures Busy(s', v) && Busy(s', t.replica[v])
  {
    assert t.PairedWith(v);
    hide Tables.Paired;
    hide Ends;
    hide GoesOn;
    hide IsTitle;
    hide Busy;
    var i :| 0 <= i < |s.pool| && s.pool[i].v == v && IsTitle(s.pool[i]);
    var j :| 0 <= j < |s.pool| && s.pool[j].v == t.replica[v] && IsTitle(s.pool[j]);
    var first, mid := Drive(t, acts, s, i);
    assert mid.pool[j] == s.pool[j];
    acts', s' := Drive(t, first, mid, j);
    StillBusy(mid, s', j, v);
    GoesOnAndOn(acts, first, acts');
  }

  ghost predicate Collision(t: Tables, s: State) {
    exists v :: v in t.Ids() && Busy(s, v) && Busy(s, t.replica[v])
  }

  /** Both sides collect only after a contested grant ... */
  lemma CollisionNeedsContest(t: Tables, acts: seq<Act>, s: State)
    requires t.Consistent() && t.Paired() && Exec(t, Init(), acts) == Some(s) && Collision(t, s)
    ensures !NoTitleContest(t, acts)
  {
    var v :| v in t.Ids() && Busy(s, v) && Busy(s, t.replica[v]);
    NoLeakedBit(t, acts, s);
    CollectorIsEntitled(s, v, t);
    CollectorIsEntitled(s, t.replica[v], t);
    assert !OneTitle(t, s, v);
    OneTitleIffNoContest(t, acts);
  }

  lemma {:induction false} ReachesTwoTitles(t: Tables, acts: seq<Act>) returns (n: nat, s: State)
    requires t.Consistent() && t.Paired() && Exec(t, Init(), acts).Some? && !AlwaysOneTitle(t, acts)
    ensures n <= |acts| && Exec(t, Init(), acts[..n]) == Some(s) && !OneTitleEach(t, s)
  {
    s := Exec(t, Init(), acts).value;
    n := |acts|;
    assert acts[..n] == acts;
    if OneTitleEach(t, s) {
      n, s := ReachesTwoTitles(t, acts[..|acts| - 1]);
      assert acts[..|acts| - 1][..n] == acts[..n];
    }
  }

  /** ... and every contested grant can lead to it: some prefix of the run goes on, by
      deliveries alone, to a state in which both sides collect. */
  lemma ContestCanCollide(t: Tables, acts: seq<Act>) returns (n: nat, acts': seq<Act>, s: State)
    requires t.Consistent() && t.Paired() && Exec(t, Init(), acts).Some? && !NoTitleContest(t, acts)
    ensures n <= |acts| && GoesOn(acts[..n], acts') && Ends(t, acts', s) && Collision(t, s)
  {
    OneTitleIffNoContest(t, acts);
    var mid;
    n, mid := ReachesTwoTitles(t, acts);
    NoLeakedBit(t, acts[..n], mid);
    var v :| !OneTitle(t, mid, v);
    acts', s := TitlesCollide(t, acts[..n], mid, v);
  }
}
