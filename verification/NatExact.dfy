/** Exactly which steps leave a NAT rule on the host without a reason, whatever commands and publishes fail. */
module NatExact {
  import opened Wrappers
  import opened NatRules
  import opened Model
  import opened Messages
  import opened FipRows
  import opened Control
  import opened System
  import opened Tracking
  import opened Invariants
  import opened Requests
  import opened NatJustified

  /** Another message asks for the rules of the pair to be removed. */
  ghost predicate AwaitedByOther(q: Mq, m: TaskMessage, b: Binding) {
    exists n :: n in Undelivered(q) + Bag(q.dlq) && n != m && Revokes(n, b)
  }

  /** A rule of the pair is on the host and its delete would fail. */
  predicate Stays(rules: Rules, b: Binding, del: set<Rule>) {
    exists r :: r in RulesOf(b) && r in rules && r in del
  }

  /** The end of a disassociation may leave a rule only for an active row or another disassociation of its pair. */
  ghost predicate DisassociationCovered(w: World, c: Calls, m: TaskMessage)
    requires m.pub.Some? && m.priv.Some?
  {
    var b := Binding(m.pub.value, m.priv.value);
    Stays(w.rules, b, c.faults.del) ==> ActivePair(w.fips, b) || AwaitedByOther(w.mq, m, b)
  }

  /** A destroy may leave a rule of its instance's rows only for a disassociation of its pair. */
  ghost predicate DestroyCovered(w: World, c: Calls, m: TaskMessage)
    requires m.instance.Some?
  {
    HasInstance(w.instances, m.project, m.instance.value) ==>
      forall b :: b in BindingsOf(w.fips, m.project, m.instance.value) && Stays(w.rules, b, c.faults.del) ==> Awaited(w.mq, b)
  }

  /** What a step must not do: take away the last reason of a rule that stays on the host. */
  ghost predicate LeavesReasons(w: World, s: Step) {
    match s
    case DisassociateFip(p, f, t, pubOk) =>
      !pubOk && IsActiveOf(w.fips, p, f) && w.fips[f].priv.Some? ==>
        var b := BindingOf(w.fips[f]); Awaited(w.mq, b) || RulesOf(b) !! (set r | r in w.rules)
    case FinishStep(c) =>
      w.mq.inflight.Some? ==>
        var m := w.mq.inflight.value.msg;
        && (m.kind.FipDisassociate? && Dispatchable(m) ==> DisassociationCovered(w, c, m))
        && (m.kind.InstanceDestroy? && Dispatchable(m) ==> DestroyCovered(w, c, m))
    case _ => true
  }

  // ---- A disassociation delivered -----------------------------------------------------------------------

  lemma DoneIsForgotten(q: Mq, pubOk: bool, b: Binding)
    requires q.inflight.Some? && q.inflight.value.msg !in Bag(q.queue) && q.inflight.value.msg !in Bag(q.dlq)
    ensures var m := q.inflight.value.msg;
      Awaited(FinalizeDelivery(q, q.inflight.value, true, pubOk), b) <==> AwaitedByOther(q, m, b)
  {
    var m := q.inflight.value.msg;
    var q' := FinalizeDelivery(q, q.inflight.value, true, pubOk);
    FinalizeEffect(q, q.inflight.value, true, pubOk);
    assert forall n :: n in Undelivered(q') + Bag(q'.dlq) <==> n in Undelivered(q) + Bag(q.dlq) && n != m;
  }

  lemma DisassociateIsExact(w: World, c: Calls)
    requires AllJustified(w.rules, w.fips, w.mq) && w.mq.inflight.Some?
    requires var m := w.mq.inflight.value.msg;
      m.kind.FipDisassociate? && Dispatchable(m) && m !in Bag(w.mq.queue) && m !in Bag(w.mq.dlq)
    ensures var m := w.mq.inflight.value.msg; var w' := FinishDisassociate(w, m, c).0;
      AllJustified(w'.rules, w'.fips, FinalizeDelivery(w.mq, w.mq.inflight.value, true, c.pubOk)) <==> DisassociationCovered(w, c, m)
  {
    var m := w.mq.inflight.value.msg;
    var b := Binding(m.pub.value, m.priv.value);
    var q' := FinalizeDelivery(w.mq, w.mq.inflight.value, true, c.pubOk);
    var after := Disassociate(w.rules, b, c.faults);
    DisassociateLeaves(w.rules, b, c.faults);
    forall x ensures Awaited(q', x) <==> AwaitedByOther(w.mq, m, x) {
      DoneIsForgotten(w.mq, c.pubOk, x);
    }
    forall r | r in after && !r.Other? && PairOf(r) != b ensures Justified(r, w.fips, q') {
      assert r in w.rules && Justified(r, w.fips, w.mq);
      if Awaited(w.mq, PairOf(r)) {
        var n :| n in Undelivered(w.mq) + Bag(w.mq.dlq) && Revokes(n, PairOf(r));
        assert n != m;
      }
    }
    assert forall r: Rule :: !r.Other? && PairOf(r) == b <==> r in RulesOf(b);
    hide FinalizeDelivery, Disassociate, Awaited, AwaitedByOther, ActivePair, AtMostOnce;
  }

  // ---- A destroy delivered ---------------------------------------------------------------------------------

  lemma OtherMessagesKeepWaiting(q: Mq, ok: bool, pubOk: bool, b: Binding)
    requires q.inflight.Some? && !q.inflight.value.msg.kind.FipDisassociate?
    ensures Awaited(FinalizeDelivery(q, q.inflight.value, ok, pubOk), b) <==> Awaited(q, b)
  {
    var m := q.inflight.value.msg;
    var q' := FinalizeDelivery(q, q.inflight.value, ok, pubOk);
    FinalizeKeepsWaiting(q, ok, pubOk);
    FinalizeEffect(q, q.inflight.value, ok, pubOk);
    assert forall n :: n in Undelivered(q') + Bag(q'.dlq) ==> n in Undelivered(q) + Bag(q.dlq);
    assert forall n :: n in Undelivered(q) + Bag(q.dlq) && Revokes(n, b) ==> n in Undelivered(q') + Bag(q'.dlq);
    hide FinalizeDelivery, Undelivered, Bag;
  }

  /** After its rows are cleared an instance's pairs are no longer active, and the other pairs still are. */
  lemma ClearedPairs(fips: FipTable, instances: map<Id, Instance>, project: Id, i: Id, b: Binding)
    requires FipsOk(fips, instances) && i in instances && instances[i].project == project
    ensures ActivePair(ClearOfProject(fips, project, i), b) <==> ActivePair(fips, b) && b !in BindingsOf(fips, project, i)
  {
    ClearKeeps(fips, instances, project, i);
    var fips' := ClearOfProject(fips, project, i);
    if ActivePair(fips', b) {
      var f :| f in fips' && fips'[f].status.Active? && fips'[f].pub == b.pub && fips'[f].priv == Some(b.priv);
      assert fips[f] == fips'[f];
    }
  }

  /** Rules of cleared pairs need another message; the others keep the reason they have. */
  lemma ClearedRulesNeedMessages(rules: Rules, after: Rules, fips: FipTable, fips': FipTable, q: Mq, bs: set<Binding>, del: set<Rule>)
    requires AllJustified(rules, fips, q) && AtMostOnce(after)
    requires forall b :: ActivePair(fips', b) <==> ActivePair(fips, b) && b !in bs
    requires forall r: Rule :: r in after <==> r in rules && (r.Other? || PairOf(r) !in bs || r in del)
    ensures AllJustified(after, fips', q) <==> forall b :: b in bs && Stays(rules, b, del) ==> Awaited(q, b)
  {
    assert forall r: Rule, b :: !r.Other? && PairOf(r) == b <==> r in RulesOf(b);
    hide Awaited, ActivePair, AtMostOnce, RulesOf;
    if forall b :: b in bs && Stays(rules, b, del) ==> Awaited(q, b) {
      forall r | r in after ensures Justified(r, fips', q) {
        assert Justified(r, fips, q);
        if !r.Other? && PairOf(r) in bs {
          assert r in RulesOf(PairOf(r)) && r in del;
          assert Stays(rules, PairOf(r), del);
        }
      }
    } else {
      var b :| b in bs && Stays(rules, b, del) && !Awaited(q, b);
      var r :| r in RulesOf(b) && r in rules && r in del;
      assert r in after && !Justified(r, fips', q);
    }
  }

  lemma TearDownIsExact(rules: Rules, fips: FipTable, instances: map<Id, Instance>, q: Mq, project: Id, i: Id, del: set<Rule>)
    requires AllJustified(rules, fips, q) && FipsOk(fips, instances)
    requires i in instances && instances[i].project == project
    ensures AllJustified(RemoveEach(rules, RulesOfAll(BindingsOf(fips, project, i)) - del), ClearOfProject(fips, project, i), q)
            <==> forall b :: b in BindingsOf(fips, project, i) && Stays(rules, b, del) ==> Awaited(q, b)
  {
    var bs := BindingsOf(fips, project, i);
    var gone := RulesOfAll(bs) - del;
    var fips' := ClearOfProject(fips, project, i);
    RemoveEachRemoves(rules, gone);
    forall b ensures ActivePair(fips', b) <==> ActivePair(fips, b) && b !in bs {
      ClearedPairs(fips, instances, project, i, b);
    }
    assert forall r: Rule :: r in gone <==> !r.Other? && PairOf(r) in bs && r !in del;
    hide ClearOfProject, RemoveEach, Awaited, ActivePair, AtMostOnce, FipsOk, BindingsOf, RulesOfAll;
    ClearedRulesNeedMessages(rules, RemoveEach(rules, gone), fips, fips', q, bs, del);
  }

  lemma DestroyIsExact(w: World, c: Calls)
    requires AllJustified(w.rules, w.fips, w.mq) && FipsOk(w.fips, w.instances) && w.mq.inflight.Some?
    requires w.mq.inflight.value.msg.kind.InstanceDestroy? && w.mq.inflight.value.msg.instance.Some?
    ensures var m := w.mq.inflight.value.msg; var (w', ok) := FinishDestroy(w, m, c);
      AllJustified(w'.rules, w'.fips, FinalizeDelivery(w.mq, w.mq.inflight.value, ok, c.pubOk)) <==> DestroyCovered(w, c, m)
  {
    var m := w.mq.inflight.value.msg;
    var i := m.instance.value;
    var (w', ok) := FinishDestroy(w, m, c);
    var q' := FinalizeDelivery(w.mq, w.mq.inflight.value, ok, c.pubOk);
    DestroyRules(w, m, c);
    forall b ensures Awaited(q', b) <==> Awaited(w.mq, b) {
      OtherMessagesKeepWaiting(w.mq, ok, c.pubOk, b);
    }
    SameWaitingSameReasons(w'.rules, w'.fips, w.mq, q');
    hide FinishDestroy, FinalizeDelivery, AllJustified, FipsOk;
    if HasInstance(w.instances, m.project, i) {
      TearDownIsExact(w.rules, w.fips, w.instances, w.mq, m.project, i, c.faults.del);
    }
  }

  lemma SameWaitingSameReasons(rules: Rules, fips: FipTable, q: Mq, q': Mq)
    requires forall b :: Awaited(q', b) <==> Awaited(q, b)
    ensures AllJustified(rules, fips, q') <==> AllJustified(rules, fips, q)
  {
    hide Awaited, ActivePair, AtMostOnce;
    assert forall r :: Justified(r, fips, q') <==> Justified(r, fips, q);
  }

  // ---- Every step ------------------------------------------------------------------------------------------------

  lemma HeldFacts(w: World, c: Calls)
    requires Core(w) && w.mq.inflight.Some?
    ensures var m := w.mq.inflight.value.msg;
      && m !in Bag(w.mq.queue) && m !in Bag(w.mq.dlq) && HasTask(w.tasks, m.project, m.task)
      && Dispatchable(m) && !m.kind.UnknownKind? && FipsOk(w.fips, w.instances)
  {
    HeldIsNotDone(w.mq, w.tasks, w.instances, w.used);
  }

  lemma FinishParts(w: World, c: Calls)
    requires w.mq.inflight.Some? && FinishTask(w, w.mq.inflight.value.msg, c).0.mq == w.mq
    ensures var (x, ok) := FinishTask(w, w.mq.inflight.value.msg, c); var w' := FinishDelivery(w, c);
      w'.rules == x.rules && w'.fips == x.fips && w'.mq == FinalizeDelivery(w.mq, w.mq.inflight.value, ok, c.pubOk)
  {
    hide FinishTask, FinalizeDelivery;
  }

  /** What the step must respect depends on the kind of the message in hand. */
  lemma FinishCases(w: World, c: Calls)
    requires w.mq.inflight.Some? && Dispatchable(w.mq.inflight.value.msg)
    ensures var m := w.mq.inflight.value.msg; LeavesReasons(w, FinishStep(c)) <==>
      if m.kind.FipDisassociate? then DisassociationCovered(w, c, m)
      else if m.kind.InstanceDestroy? then DestroyCovered(w, c, m)
      else true
  {
    hide DisassociationCovered, DestroyCovered;
  }

  lemma FinishIsExact(w: World, c: Calls)
    requires Core(w) && AllJustified(w.rules, w.fips, w.mq) && w.mq.inflight.Some?
    ensures var w' := FinishDelivery(w, c); AllJustified(w'.rules, w'.fips, w'.mq) <==> LeavesReasons(w, FinishStep(c))
  {
    var m := w.mq.inflight.value.msg;
    HeldFacts(w, c);
    FinishCases(w, c);
    HeldTaskKeepsMessages(w, c);
    FinishParts(w, c);
    HandlerOf(w, m, c);
    hide *;
    if m.kind.FipDisassociate? {
      DisassociateIsExact(w, c);
    } else if m.kind.InstanceDestroy? {
      DestroyIsExact(w, c);
    } else {
      OtherDelivery(w, c);
    }
  }

  lemma RequestIsExact(w: World, project: Id, f: Id, t: Id, pubOk: bool)
    requires Core(w) && AllJustified(w.rules, w.fips, w.mq)
    ensures var w' := RequestDisassociate(w, project, f, t, pubOk).0;
      AllJustified(w'.rules, w'.fips, w'.mq) <==> LeavesReasons(w, DisassociateFip(project, f, t, pubOk))
  {
    if pubOk {
      hide Core, AllJustified, RequestDisassociate;
      DisassociateRequestKeepsJustified(w, project, f, t);
    } else if IsActiveOf(w.fips, project, f) {
      hide Core, AllJustified, RequestDisassociate;
      LostDisassociationStrandsRules(w, project, f, t);
    } else {
      hide Core, AllJustified;
    }
  }

  lemma IdleFinish(w: World, c: Calls)
    requires w.mq.inflight.None?
    ensures FinishDelivery(w, c) == w
  {
  }

  lemma ApplyNat(w: World, s: Step)
    ensures var w', x := Apply(w, s), Effect(w, s); w'.rules == x.rules && w'.fips == x.fips && w'.mq == x.mq
  {
    hide Effect, NewIds;
  }

  /** Every rule keeps its reason through a step exactly when the step leaves reasons. */
  lemma StepIsExact(w: World, s: Step)
    requires Core(w) && AllJustified(w.rules, w.fips, w.mq) && Enabled(w, s)
    ensures var w' := Apply(w, s); AllJustified(w'.rules, w'.fips, w'.mq) <==> LeavesReasons(w, s)
  {
    ApplyNat(w, s);
    hide Core, AllJustified, Apply;
    if s.FinishStep? {
      hide FinishDelivery;
      if w.mq.inflight.Some? {
        hide LeavesReasons;
        FinishIsExact(w, s.calls);
      } else {
        IdleFinish(w, s.calls);
      }
    } else if s.DisassociateFip? {
      hide RequestDisassociate, LeavesReasons;
      RequestIsExact(w, s.project, s.fip, s.task, s.pubOk);
    } else {
      hide Effect, Enabled;
      EffectKeepsJustified(w, s);
    }
  }

  // ---- Every run ---------------------------------------------------------------------------------------------------

  ghost predicate ReasonedRun(w: World, steps: seq<Step>)
    decreases |steps|
  {
    steps == [] || (LeavesReasons(w, steps[0]) && ReasonedRun(Apply(w, steps[0]), steps[1..]))
  }

  ghost predicate JustifiedThroughout(w: World, steps: seq<Step>)
    decreases |steps|
  {
    AllJustified(w.rules, w.fips, w.mq) && (steps == [] || JustifiedThroughout(Apply(w, steps[0]), steps[1..]))
  }

  lemma {:induction false} RunIsExact(w: World, steps: seq<Step>)
    requires Core(w) && AllJustified(w.rules, w.fips, w.mq) && Runs(w, steps)
    ensures JustifiedThroughout(w, steps) <==> ReasonedRun(w, steps)
    decreases |steps|
  {
    hide Core, AllJustified, Apply, LeavesReasons;
    if steps != [] {
      var next := Apply(w, steps[0]);
      StepKeepsCore(w, steps[0]);
      StepIsExact(w, steps[0]);
      if LeavesReasons(w, steps[0]) {
        RunIsExact(next, steps[1..]);
      } else {
        assert !AllJustified(next.rules, next.fips, next.mq);
      }
    }
  }

  lemma StartsJustified(w: World)
    requires Init(w)
    ensures AllJustified(w.rules, w.fips, w.mq)
  {
    forall q: Rule | !q.Other? ensures Count(w.rules, q) <= 1 {
      CountPositive(w.rules, q);
    }
  }

  /** From an initial state, whatever fails: every rule has its reason all the time exactly in the reasoned runs. */
  lemma JustificationIsExact(w: World, steps: seq<Step>)
    requires Init(w) && Runs(w, steps)
    ensures JustifiedThroughout(w, steps) <==> ReasonedRun(w, steps)
  {
    InitIsCore(w);
    StartsJustified(w);
    hide Core, AllJustified, Runs, JustifiedThroughout, ReasonedRun;
    RunIsExact(w, steps);
  }
}
