/** When are the two vSSDs of a pair never granted a collection at the same time? Exact
    conditions for every run, re-sent and hard requests included
    (vssd_code/rb_nexus.c:310-363, p4_code/basic_switch/basic_rackblox.p4:356-407). */
module GcExclusion {
  import opened Options
  import opened Switches
  import opened GcProtocol

  // ---------- the vocabulary of exclusion ----------

  ghost predicate HasPending(s: State, v: VssdId) {
    exists i :: 0 <= i < |s.pool| && s.pool[i].v == v && s.pool[i].loc == Recirc
  }

  /** The request of token i is looked at while the peer's grant still recirculates. */
  ghost predicate Overlaps(t: Tables, s: State, act: Act) {
    && act.Advance? && act.i < |s.pool|
    && s.pool[act.i].loc == ToSwitch && s.pool[act.i].op == GcRequest
    && s.pool[act.i].v in t.Ids() && HasPending(s, t.replica[s.pool[act.i].v])
  }

  ghost predicate NoOverlap(t: Tables, acts: seq<Act>)
    requires t.InBounds()
  {
    acts != [] ==>
      && NoOverlap(t, acts[..|acts| - 1])
      && (var b := Exec(t, Init(), acts[..|acts| - 1]);
          b.Some? ==> !Overlaps(t, b.value, acts[|acts| - 1]))
  }

  predicate Soft(acts: seq<Act>) {
    forall k :: 0 <= k < |acts| && acts[k].Trigger? ==> !acts[k].hard
  }

  ghost predicate SoftPool(s: State) {
    forall i :: 0 <= i < |s.pool| && (s.pool[i].loc == GcQueue || s.pool[i].loc == ToSwitch) ==> s.pool[i].op != Gc
  }

  /** The switch has granted v, or is about to. */
  ghost predicate Held(s: State, v: VssdId)
    requires s.regs.Valid()
  {
    Bit(s, v) || HasPending(s, v)
  }

  ghost predicate PairFree(t: Tables, s: State, v: VssdId)
    requires s.regs.Valid()
  {
    v in t.Ids() ==> !(Held(s, v) && Held(s, t.replica[v]))
  }

  ghost predicate AllPairsFree(t: Tables, s: State)
    requires s.regs.Valid()
  {
    forall v {:trigger PairFree(t, s, v)} :: PairFree(t, s, v)
  }

  /** The step grants a request of v: it passed the check of the peer's bit. */
  ghost predicate Grants(t: Tables, s: State, act: Act, v: VssdId)
    requires s.regs.Valid()
  {
    && act.Advance? && act.i < |s.pool|
    && s.pool[act.i] == Token(v, GcRequest, ToSwitch)
    && v in t.Ids() && !Bit(s, t.replica[v])
  }

  lemma SoftPoolKept(t: Tables, s: State, act: Act)
    requires t.Consistent() && Inv(t, s) && SoftPool(s) && Enabled(t, s, act)
    requires act.Trigger? ==> !act.hard
    ensures SoftPool(Step(t, s, act))
  {
    if act.Advance? {
      assert TokenOk(t, s.pool[act.i]);
      if IsSwitchStep(s, act) {
        SwitchEffect(t, s, act.i);
      }
    }
  }

  lemma PendingGrowsByGrant(t: Tables, s: State, act: Act, v: VssdId)
    requires t.Consistent() && Inv(t, s) && Enabled(t, s, act)
    ensures HasPending(Step(t, s, act), v) ==> HasPending(s, v) || Grants(t, s, act, v)
  {
    var s' := Step(t, s, act);
    if act.Advance? && IsSwitchStep(s, act) {
      assert TokenOk(t, s.pool[act.i]);
      SwitchEffect(t, s, act.i);
    }
    if HasPending(s', v) {
      var j :| 0 <= j < |s'.pool| && s'.pool[j].v == v && s'.pool[j].loc == Recirc;
      if act.Trigger? || j != act.i {
        assert s.pool[j].v == v && s.pool[j].loc == Recirc;
      }
    }
  }

  /** v has been granted a collection that the switch has not seen finished. */
  ghost predicate Engaged(s: State, v: VssdId) {
    HasPending(s, v) || HasGrant(s, v)
  }

  ghost predicate PairExclusive(t: Tables, s: State, v: VssdId) {
    v in t.Ids() ==> !(Engaged(s, v) && Engaged(s, t.replica[v]))
  }

  ghost predicate Exclusive(t: Tables, s: State) {
    forall v {:trigger PairExclusive(t, s, v)} :: PairExclusive(t, s, v)
  }

  ghost predicate AlwaysExclusive(t: Tables, acts: seq<Act>)
    requires t.InBounds()
  {
    && (var s := Exec(t, Init(), acts); s.Some? ==> Exclusive(t, s.value))
    && (acts != [] ==> AlwaysExclusive(t, acts[..|acts| - 1]))
  }

  /** A vSSD that collects is engaged, so exclusion covers the collections themselves. */
  lemma CollectorIsEngaged(t: Tables, s: State, v: VssdId)
    requires Inv(t, s) && Busy(s, v)
    ensures HasGrant(s, v) && Engaged(s, v)
  {
    var i :| 0 <= i < |s.pool| && s.pool[i].v == v && s.pool[i].loc == Collecting;
    assert TokenOk(t, s.pool[i]) && IsGrant(s.pool[i]);
  }

  // ---------- the exact condition, for every run ----------

  /** The step begins a grant of v: a hard GC reaches the switch, or a request that finds
      the peer's bit clear. */
  ghost predicate Begins(t: Tables, s: State, act: Act, v: VssdId)
    requires s.regs.Valid()
  {
    && act.Advance? && act.i < |s.pool| && v in t.Ids()
    && (s.pool[act.i] == Token(v, Gc, ToSwitch) || Grants(t, s, act, v))
  }

  /** A grant begins in spite of the peer's. */
  ghost predicate Contested(t: Tables, s: State, act: Act)
    requires s.regs.Valid()
  {
    && act.Advance? && act.i < |s.pool| && s.pool[act.i].loc == ToSwitch && s.pool[act.i].v in t.Ids()
    && var op, r := s.pool[act.i].op, t.replica[s.pool[act.i].v];
    // the peer's grant still recirculates, so its bit is not set yet
    || (op == GcRequest && !Bit(s, r) && HasPending(s, r))
    // the peer is granted, but an earlier finish has cleared its bit
    || (op == GcRequest && !Bit(s, r) && HasGrant(s, r))
    // a hard GC does not look at the bit
    || (op == Gc && Engaged(s, r))
  }

  ghost predicate NoContest(t: Tables, acts: seq<Act>)
    requires t.InBounds()
  {
    acts != [] ==>
      && NoContest(t, acts[..|acts| - 1])
      && (var b := Exec(t, Init(), acts[..|acts| - 1]);
          b.Some? ==> !Contested(t, b.value, acts[|acts| - 1]))
  }

  lemma GrantGrows(t: Tables, s: State, act: Act, v: VssdId)
    requires t.Consistent() && Inv(t, s) && Enabled(t, s, act)
    requires HasGrant(Step(t, s, act), v) && !HasGrant(s, v)
    ensures IsSwitchStep(s, act) && s.pool[act.i].v == v && s.pool[act.i].op == Gc
  {
    var s' := Step(t, s, act);
    var j :| 0 <= j < |s'.pool| && s'.pool[j].v == v && IsGrant(s'.pool[j]);
    if act.Advance? {
      assert TokenOk(t, s.pool[act.i]);
      if IsSwitchStep(s, act) {
        SwitchEffect(t, s, act.i);
      }
    }
  }

  lemma EngagedGrows(t: Tables, s: State, act: Act, v: VssdId)
    requires t.Consistent() && Inv(t, s) && Enabled(t, s, act)
    requires Engaged(Step(t, s, act), v) && !Engaged(s, v)
    ensures Begins(t, s, act, v)
  {
    PendingGrowsByGrant(t, s, act, v);
    if HasGrant(Step(t, s, act), v) {
      GrantGrows(t, s, act, v);
      assert TokenOk(t, s.pool[act.i]);
    }
  }

  /** A step that begins a grant of v engages v and moves no token of its peer. */
  lemma BeginningEngages(t: Tables, s: State, act: Act, v: VssdId)
    requires t.Consistent() && t.Paired() && Inv(t, s) && Enabled(t, s, act) && Begins(t, s, act, v)
    ensures Engaged(Step(t, s, act), v)
    ensures HasPending(Step(t, s, act), t.replica[v]) <==> HasPending(s, t.replica[v])
    ensures HasGrant(Step(t, s, act), t.replica[v]) <==> HasGrant(s, t.replica[v])
  {
    var s', r := Step(t, s, act), t.replica[v];
    assert t.PairedWith(v) && r != v;
    SwitchEffect(t, s, act.i);
    assert s'.pool[act.i].v == v && (s'.pool[act.i].loc == Recirc || IsGrant(s'.pool[act.i]));
    assert forall j :: 0 <= j < |s.pool| && j != act.i ==> s'.pool[j] == s.pool[j];
  }

  lemma ContestBreaks(t: Tables, s: State, act: Act)
    requires t.Consistent() && t.Paired() && Inv(t, s) && Enabled(t, s, act) && Contested(t, s, act)
    ensures !Exclusive(t, Step(t, s, act))
  {
    var v := s.pool[act.i].v;
    assert s.pool[act.i] == Token(v, s.pool[act.i].op, ToSwitch);
    BeginningEngages(t, s, act, v);
    assert !PairExclusive(t, Step(t, s, act), v);
  }

  lemma ExclusiveKept(t: Tables, s: State, act: Act)
    requires t.Consistent() && t.Paired() && Inv(t, s) && Enabled(t, s, act)
    requires Exclusive(t, s) && !Contested(t, s, act)
    ensures Exclusive(t, Step(t, s, act))
  {
    var s' := Step(t, s, act);
    forall v ensures PairExclusive(t, s', v) {
      assert PairExclusive(t, s, v) && t.PairedWith(v);
      if v in t.Ids() && Engaged(s', v) && Engaged(s', t.replica[v]) {
        var r := t.replica[v];
        var x := if Engaged(s, v) then r else v;
        EngagedGrows(t, s, act, x);
        BeginningEngages(t, s, act, x);
        assert false;
      }
    }
  }

  /** The exact condition, for every run: the two vSSDs of a pair are never granted at once
      if and only if no grant ever begins in spite of the peer's. */
  lemma {:induction false} ExclusionIffNoContest(t: Tables, acts: seq<Act>)
    requires t.Consistent() && t.Paired() && Exec(t, Init(), acts).Some?
    ensures AlwaysExclusive(t, acts) <==> NoContest(t, acts)
  {
    if acts == [] {
      forall v ensures PairExclusive(t, Init(), v) {
        assert !HasGrant(Init(), v);
      }
    } else {
      var before := acts[..|acts| - 1];
      var b := Exec(t, Init(), before).value;
      ExclusionIffNoContest(t, before);
      NoLeakedBit(t, before, b);
      if AlwaysExclusive(t, before) {
        assert Exclusive(t, b);
        if Contested(t, b, acts[|acts| - 1]) {
          ContestBreaks(t, b, acts[|acts| - 1]);
        } else {
          ExclusiveKept(t, b, acts[|acts| - 1]);
        }
      }
    }
  }

  /** Some finish of v has passed the switch. */
  ghost predicate Finished(t: Tables, acts: seq<Act>, v: VssdId)
    requires t.InBounds()
  {
    acts != [] &&
      (|| Finished(t, acts[..|acts| - 1], v)
       || (var b := Exec(t, Init(), acts[..|acts| - 1]);
           var act := acts[|acts| - 1];
           b.Some? && IsSwitchStep(b.value, act) && b.value.pool[act.i].v == v && b.value.pool[act.i].op == GcFinish))
  }

  /** A granted vSSD whose bit is clear lost it to an earlier finish of its own. */
  lemma {:induction false} ClearedByAFinish(t: Tables, acts: seq<Act>, s: State, v: VssdId)
    requires t.Consistent() && Exec(t, Init(), acts) == Some(s) && v in t.Ids()
    ensures s.regs.Valid() && (HasGrant(s, v) && !Bit(s, v) ==> Finished(t, acts, v))
  {
    if acts != [] {
      var b := Exec(t, Init(), acts[..|acts| - 1]).value;
      var act := acts[|acts| - 1];
      ClearedByAFinish(t, acts[..|acts| - 1], b, v);
      NoLeakedBit(t, acts[..|acts| - 1], b);
      if HasGrant(s, v) && !HasGrant(b, v) {
        GrantGrows(t, b, act, v);
      }
      if IsSwitchStep(b, act) {
        SwitchEffect(t, b, act.i);
      }
    }
  }

  // ---------- the bits and the recirculating grants, for every run ----------

  ghost predicate AlwaysFree(t: Tables, acts: seq<Act>)
    requires t.InBounds()
  {
    && (var s := Exec(t, Init(), acts); s.Some? ==> AllPairsFree(t, s.value))
    && (acts != [] ==> AlwaysFree(t, acts[..|acts| - 1]))
  }

  /** A request is looked at while the peer's grant recirculates and its bit is clear, or a
      hard GC while the peer is held. */
  ghost predicate HeldContest(t: Tables, s: State, act: Act)
    requires s.regs.Valid()
  {
    && act.Advance? && act.i < |s.pool| && s.pool[act.i].loc == ToSwitch && s.pool[act.i].v in t.Ids()
    && var op, r := s.pool[act.i].op, t.replica[s.pool[act.i].v];
    || (op == GcRequest && !Bit(s, r) && HasPending(s, r))
    || (op == Gc && Held(s, r))
  }

  ghost predicate NoHeldContest(t: Tables, acts: seq<Act>)
    requires t.InBounds()
  {
    acts != [] ==>
      && NoHeldContest(t, acts[..|acts| - 1])
      && (var b := Exec(t, Init(), acts[..|acts| - 1]);
          b.Some? ==> !HeldContest(t, b.value, acts[|acts| - 1]))
  }

  lemma HeldGrows(t: Tables, s: State, act: Act, v: VssdId)
    requires t.Consistent() && Inv(t, s) && Enabled(t, s, act)
    ensures Step(t, s, act).regs.Valid()
    ensures Held(Step(t, s, act), v) && !Held(s, v) ==> Begins(t, s, act, v)
  {
    PendingGrowsByGrant(t, s, act, v);
    if act.Advance? && IsSwitchStep(s, act) {
      assert TokenOk(t, s.pool[act.i]);
      SwitchEffect(t, s, act.i);
    }
  }

  lemma BeginningHolds(t: Tables, s: State, act: Act, v: VssdId)
    requires t.Consistent() && t.Paired() && Inv(t, s) && Enabled(t, s, act) && Begins(t, s, act, v)
    ensures Step(t, s, act).regs.Valid() && Held(Step(t, s, act), v)
    ensures Held(Step(t, s, act), t.replica[v]) <==> Held(s, t.replica[v])
  {
    BeginningEngages(t, s, act, v);
    assert t.PairedWith(v) && t.replica[v] != v;
    SwitchEffect(t, s, act.i);
    assert Step(t, s, act).pool[act.i].v == v;
  }

  lemma FreeKept(t: Tables, s: State, act: Act)
    requires t.Consistent() && t.Paired() && Inv(t, s) && Enabled(t, s, act) && AllPairsFree(t, s)
    ensures Step(t, s, act).regs.Valid()
    ensures AllPairsFree(t, Step(t, s, act)) <==> !HeldContest(t, s, act)
  {
    StepKeepsInv(t, s, act);
    var s' := Step(t, s, act);
    if HeldContest(t, s, act) {
      var v := s.pool[act.i].v;
      assert s.pool[act.i] == Token(v, s.pool[act.i].op, ToSwitch);
      BeginningHolds(t, s, act, v);
      assert !PairFree(t, s', v);
    } else {
      forall v ensures PairFree(t, s', v) {
        assert PairFree(t, s, v) && t.PairedWith(v);
        if v in t.Ids() && Held(s', v) && Held(s', t.replica[v]) {
          var x := if Held(s, v) then t.replica[v] else v;
          HeldGrows(t, s, act, x);
          BeginningHolds(t, s, act, x);
          assert false;
        }
      }
    }
  }

  /** The exact condition for the switch's own view, for every run: a pair never has both
      sides set or pending if and only if no request is looked at while the peer's grant
      recirculates with its bit clear, and no hard GC while the peer is set or pending. */
  lemma {:induction false} PairsFreeIffNoHeldContest(t: Tables, acts: seq<Act>)
    requires t.Consistent() && t.Paired() && Exec(t, Init(), acts).Some?
    ensures AlwaysFree(t, acts) <==> NoHeldContest(t, acts)
  {
    if acts == [] {
      assert forall v {:trigger PairFree(t, Init(), v)} :: PairFree(t, Init(), v);
    } else {
      var before := acts[..|acts| - 1];
      var b := Exec(t, Init(), before).value;
      PairsFreeIffNoHeldContest(t, before);
      NoLeakedBit(t, before, b);
      if AlwaysFree(t, before) {
        FreeKept(t, b, acts[|acts| - 1]);
      }
    }
  }

  /** The same with soft requests only. */
  ghost predicate NoBlindRequest(t: Tables, acts: seq<Act>)
    requires t.InBounds()
  {
    acts != [] ==>
      && NoBlindRequest(t, acts[..|acts| - 1])
      && (var b := Exec(t, Init(), acts[..|acts| - 1]);
          var act := acts[|acts| - 1];
          b.Some? ==> !(Overlaps(t, b.value, act) && !Bit(b.value, t.replica[b.value.pool[act.i].v])))
  }

  lemma {:induction false} SoftRunsAreSoft(t: Tables, acts: seq<Act>, s: State)
    requires t.Consistent() && Exec(t, Init(), acts) == Some(s) && Soft(acts)
    ensures SoftPool(s)
  {
    if acts != [] {
      var b := Exec(t, Init(), acts[..|acts| - 1]).value;
      SoftRunsAreSoft(t, acts[..|acts| - 1], b);
      NoLeakedBit(t, acts[..|acts| - 1], b);
      assert acts[|acts| - 1].Trigger? ==> !acts[|acts| - 1].hard;
      SoftPoolKept(t, b, acts[|acts| - 1]);
    }
  }

  lemma {:induction false} SoftContest(t: Tables, acts: seq<Act>)
    requires t.Consistent() && Exec(t, Init(), acts).Some? && Soft(acts)
    ensures NoHeldContest(t, acts) <==> NoBlindRequest(t, acts)
  {
    if acts != [] {
      SoftContest(t, acts[..|acts| - 1]);
      SoftRunsAreSoft(t, acts[..|acts| - 1], Exec(t, Init(), acts[..|acts| - 1]).value);
    }
  }

  lemma SoftPairsFreeIff(t: Tables, acts: seq<Act>)
    requires t.Consistent() && t.Paired() && Exec(t, Init(), acts).Some? && Soft(acts)
    ensures AlwaysFree(t, acts) <==> NoBlindRequest(t, acts)
  {
    PairsFreeIffNoHeldContest(t, acts);
    SoftContest(t, acts);
  }

  lemma {:induction false} NoOverlapIsNotBlind(t: Tables, acts: seq<Act>)
    requires t.InBounds() && NoOverlap(t, acts)
    ensures NoBlindRequest(t, acts)
  {
    if acts != [] {
      NoOverlapIsNotBlind(t, acts[..|acts| - 1]);
    }
  }

  /** Soft requests alone: if no request is looked at while its peer's grant
      recirculates, the switch never holds both vSSDs of a pair. */
  lemma SoftRequestsExclude(t: Tables, acts: seq<Act>, s: State)
    requires t.Consistent() && t.Paired() && Exec(t, Init(), acts) == Some(s)
    requires Soft(acts) && NoOverlap(t, acts)
    ensures Inv(t, s) && SoftPool(s) && AllPairsFree(t, s)
  {
    NoOverlapIsNotBlind(t, acts);
    SoftPairsFreeIff(t, acts);
    SoftRunsAreSoft(t, acts, s);
    NoLeakedBit(t, acts, s);
  }

  // ---------- when the bits are exact ----------

  ghost predicate BitExact(s: State, v: VssdId)
    requires s.regs.Valid()
  {
    Bit(s, v) <==> HasGrant(s, v)
  }

  ghost predicate AllBitsExact(t: Tables, s: State)
    requires s.regs.Valid()
  {
    forall v {:trigger BitExact(s, v)} :: v in t.Ids() ==> BitExact(s, v)
  }

  ghost predicate AlwaysBitsExact(t: Tables, acts: seq<Act>)
    requires t.InBounds()
  {
    && (var s := Exec(t, Init(), acts); s.Some? ==> AllBitsExact(t, s.value))
    && (acts != [] ==> AlwaysBitsExact(t, acts[..|acts| - 1]))
  }

  /** A finish passes the switch while another grant of the same vSSD is outstanding. */
  ghost predicate LosesBit(s: State, act: Act) {
    && IsSwitchStep(s, act) && s.pool[act.i].op == GcFinish
    && exists j :: 0 <= j < |s.pool| && j != act.i && s.pool[j].v == s.pool[act.i].v && IsGrant(s.pool[j])
  }

  ghost predicate NoLostBit(t: Tables, acts: seq<Act>)
    requires t.InBounds()
  {
    acts != [] ==>
      && NoLostBit(t, acts[..|acts| - 1])
      && (var b := Exec(t, Init(), acts[..|acts| - 1]);
          b.Some? ==> !LosesBit(b.value, acts[|acts| - 1]))
  }

  lemma LostBit(t: Tables, s: State, act: Act)
    requires t.Consistent() && Inv(t, s) && Enabled(t, s, act) && LosesBit(s, act)
    ensures Step(t, s, act).regs.Valid() && !AllBitsExact(t, Step(t, s, act))
  {
    var s' := Step(t, s, act);
    var v := s.pool[act.i].v;
    assert TokenOk(t, s.pool[act.i]);
    SwitchEffect(t, s, act.i);
    var j :| 0 <= j < |s.pool| && j != act.i && s.pool[j].v == v && IsGrant(s.pool[j]);
    assert s'.pool[j] == s.pool[j];
    assert !BitExact(s', v);
  }

  lemma BitExactKept(t: Tables, s: State, act: Act, v: VssdId)
    requires t.Consistent() && Inv(t, s) && Enabled(t, s, act) && !LosesBit(s, act)
    requires v in t.Ids() && BitExact(s, v)
    ensures Step(t, s, act).regs.Valid() && BitExact(Step(t, s, act), v)
  {
    var s' := Step(t, s, act);
    StepKeepsInv(t, s, act);
    if HasGrant(s', v) && !HasGrant(s, v) {
      GrantGrows(t, s, act, v);
    }
    if IsSwitchStep(s, act) {
      SwitchEffect(t, s, act.i);
    }
  }

  /** The exact condition, for every run: the GC bit of every vSSD tells its outstanding
      grants if and only if no finish passes the switch while another grant of its vSSD is
      outstanding. */
  lemma {:induction false} BitsExactIffNoLostBit(t: Tables, acts: seq<Act>)
    requires t.Consistent() && Exec(t, Init(), acts).Some?
    ensures AlwaysBitsExact(t, acts) <==> NoLostBit(t, acts)
  {
    if acts == [] {
      forall v ensures BitExact(Init(), v) {
        assert !HasGrant(Init(), v);
      }
    } else {
      var before := acts[..|acts| - 1];
      var act := acts[|acts| - 1];
      var b := Exec(t, Init(), before).value;
      BitsExactIffNoLostBit(t, before);
      NoLeakedBit(t, before, b);
      if AlwaysBitsExact(t, before) {
        assert AllBitsExact(t, b);
        if LosesBit(b, act) {
          LostBit(t, b, act);
        } else {
          forall v | v in t.Ids() ensures BitExact(Step(t, b, act), v) {
            assert BitExact(b, v);
            BitExactKept(t, b, act, v);
          }
        }
      }
    }
  }

  // ---------- one request at a time ----------

  ghost predicate Idle(s: State, v: VssdId) {
    forall i :: 0 <= i < |s.pool| && s.pool[i].v == v ==> s.pool[i].loc == Done
  }

  /** Every vSSD waits for its previous request to be denied or finished before it sends
      the next one. run_gc does not: it sends again on every turn of its loop. */
  ghost predicate Disciplined(t: Tables, acts: seq<Act>)
    requires t.InBounds()
  {
    acts != [] ==>
      && Disciplined(t, acts[..|acts| - 1])
      && (var b := Exec(t, Init(), acts[..|acts| - 1]);
          var act := acts[|acts| - 1];
          b.Some? && act.Trigger? ==> Idle(b.value, act.v))
  }

  ghost predicate OneLive(s: State) {
    forall i, j :: 0 <= i < j < |s.pool| && s.pool[i].v == s.pool[j].v ==>
      s.pool[i].loc == Done || s.pool[j].loc == Done
  }

  lemma OneLiveKept(t: Tables, s: State, act: Act)
    requires t.Consistent() && Inv(t, s) && Enabled(t, s, act) && OneLive(s)
    requires act.Trigger? ==> Idle(s, act.v)
    ensures OneLive(Step(t, s, act))
  {
    if act.Advance? && IsSwitchStep(s, act) {
      SwitchEffect(t, s, act.i);
    }
  }

  /** With one live token per vSSD, a finish message is the vSSD's only grant. */
  lemma {:induction false} DisciplineLosesNoBit(t: Tables, acts: seq<Act>, s: State)
    requires t.Consistent() && Exec(t, Init(), acts) == Some(s) && Disciplined(t, acts)
    ensures Inv(t, s) && OneLive(s) && NoLostBit(t, acts)
  {
    NoLeakedBit(t, acts, s);
    if acts != [] {
      var b := Exec(t, Init(), acts[..|acts| - 1]).value;
      var act := acts[|acts| - 1];
      DisciplineLosesNoBit(t, acts[..|acts| - 1], b);
      OneLiveKept(t, b, act);
    }
  }

  /** Under discipline the GC bit is exact: set if and only if the vSSD has an
      unfinished grant. */
  lemma BitIsExact(t: Tables, acts: seq<Act>, s: State, v: VssdId)
    requires t.Consistent() && Exec(t, Init(), acts) == Some(s) && Disciplined(t, acts) && v in t.Ids()
    ensures s.regs.Valid() && (Bit(s, v) <==> HasGrant(s, v))
  {
    DisciplineLosesNoBit(t, acts, s);
    BitsExactIffNoLostBit(t, acts);
    assert BitExact(s, v);
  }

  /** While v's grant recirculates, v's bit is still clear. */
  lemma PendingBitIsClear(t: Tables, s: State, v: VssdId)
    requires Inv(t, s) && OneLive(s) && v in t.Ids() && HasPending(s, v)
    ensures !Bit(s, v)
  {
    var j :| 0 <= j < |s.pool| && s.pool[j].v == v && s.pool[j].loc == Recirc;
    assert TokenOk(t, s.pool[j]);
    assert !HasGrant(s, v);
  }

  /** Of the three ways to contest a grant, soft requests sent one at a time leave the
      overlap. */
  lemma {:induction false} DisciplinedContest(t: Tables, acts: seq<Act>)
    requires t.Consistent() && Exec(t, Init(), acts).Some? && Soft(acts) && Disciplined(t, acts)
    ensures NoContest(t, acts) <==> NoOverlap(t, acts)
  {
    if acts != [] {
      var b := Exec(t, Init(), acts[..|acts| - 1]).value;
      var act := acts[|acts| - 1];
      DisciplinedContest(t, acts[..|acts| - 1]);
      DisciplineLosesNoBit(t, acts[..|acts| - 1], b);
      SoftRunsAreSoft(t, acts[..|acts| - 1], b);
      if act.Advance? && act.i < |b.pool| && b.pool[act.i].v in t.Ids() {
        var v := b.pool[act.i].v;
        var r := t.replica[v];
        assert t.Wired(v);
        BitIsExact(t, acts[..|acts| - 1], b, r);
        if HasPending(b, r) {
          PendingBitIsClear(t, b, r);
        }
      }
    }
  }

  /** For soft requests sent one at a time the condition becomes: no request is ever
      looked at by the switch while the peer's grant recirculates. */
  lemma ExclusionIffNoOverlap(t: Tables, acts: seq<Act>)
    requires t.Consistent() && t.Paired() && Exec(t, Init(), acts).Some?
    requires Soft(acts) && Disciplined(t, acts)
    ensures AlwaysExclusive(t, acts) <==> NoOverlap(t, acts)
  {
    ExclusionIffNoContest(t, acts);
    DisciplinedContest(t, acts);
  }

  /** End to end: if no bit is lost and no grant is contested, the switch never sends a read
      to a vSSD that is collecting. */
  lemma ReadMeetsNoCollector(t: Tables, acts: seq<Act>, s: State, read: Header, inPort: Port)
    requires t.Consistent() && t.Paired() && Exec(t, Init(), acts) == Some(s)
    requires NoLostBit(t, acts) && NoContest(t, acts)
    requires read.op == Read && read.vssd in t.Ids()
    ensures s.regs.Valid() && !Busy(s, Ingress(t, s.regs, read, inPort).hdr.vssd)
  {
    var v := read.vssd;
    var r := t.replica[v];
    assert t.Wired(v) && t.CellsInBounds(v) && t.Wired(r) && t.PairedWith(v);
    ExclusionIffNoContest(t, acts);
    assert PairExclusive(t, s, v);
    NoLeakedBit(t, acts, s);
    BitsExactIffNoLostBit(t, acts);
    assert BitExact(s, v) && BitExact(s, r);
    forall x | Busy(s, x) ensures HasGrant(s, x) {
      CollectorIsEngaged(t, s, x);
    }
  }
}
