/** Which step asked for each message, in every run, and what follows from that. */
module Provenance {
  import opened Wrappers
  import opened Text
  import opened Model
  import opened Messages
  import opened Control
  import opened System
  import opened Tracking
  import opened Invariants
  import opened Requests
  import opened Acceptance
  import opened Ownership
  import opened Outcomes
  import Ipam
  import FipRows
  import Retries

  /** The step, taken in this state, publishes exactly this message. */
  ghost predicate Asked(w: World, s: Step, m: TaskMessage) {
    match s
    case NewInstance(r, pubOk) =>
      && pubOk && OwnsNetwork(w, r.project, r.network)
      && m == TaskMessage(r.task, InstanceCreate, r.project, Some(r.instance), None, None, None, None, None)
    case InstanceAction(p, i, action, t, pubOk) =>
      && pubOk && AsksFor(action, m.kind) && IsThere(w, p, i) && FitsState(m.kind, w.instances[i].state)
      && (m.kind.InstanceDestroy? ==> !HoldsVolumes(w, p, i))
      && m == TaskMessage(t, m.kind, p, Some(i), None, None, None, None, None)
    case TakeSnapshot(p, i, name, snap, t, pubOk) =>
      && pubOk && AtRest(w, p, i)
      && m == TaskMessage(t, SnapshotCreate, p, Some(i), Some(snap), Some(w.instances[i].state), None, None, None)
    case RevertSnapshot(p, i, snap, t, pubOk) =>
      && pubOk && AtRest(w, p, i) && snap in w.snapshots && w.snapshots[snap].instance == i
      && m == TaskMessage(t, SnapshotRevert, p, Some(i), Some(snap), Some(w.instances[i].state), None, None, None)
    case AssociateFip(p, f, i, t, pubOk) =>
      && pubOk && CanBind(w, p, f, i)
      && m == TaskMessage(t, FipAssociate, p, Some(i), None, None, Some(f), Some(w.fips[f].pub), w.instances[i].ipv4)
    case DisassociateFip(p, f, t, pubOk) =>
      && pubOk && f in w.fips && w.fips[f].project == Some(p) && w.fips[f].status == Active
      && m == TaskMessage(t, FipDisassociate, p, None, None, None, Some(f), Some(w.fips[f].pub), w.fips[f].priv)
    case _ => false
  }

  // ---- One step -----------------------------------------------------------------------------------------

  ghost predicate NewlyPublished(q: Mq, q': Mq, m: TaskMessage) {
    m in q'.published && m !in q.published
  }

  lemma SentIsNew(w: World, w': World, x: TaskMessage, pubOk: bool, m: TaskMessage)
    requires Sent(w, w', x, pubOk) && NewlyPublished(w.mq, w'.mq, m)
    ensures pubOk && m == x
  {
  }

  lemma ActionAsked(w: World, s: Step, m: TaskMessage)
    requires s.InstanceAction? && NewlyPublished(w.mq, Effect(w, s).mq, m)
    ensures Asked(w, s, m)
  {
    var (w', reply) := RequestAction(w, s.project, s.instance, s.action, s.task, s.pubOk);
    var a := ParseAction(s.action);
    assert Effect(w, s) == w' by {
      hide RequestAction;
    }
    assert a.Some? by {
      hide ParseAction;
    }
    var kind := TaskKindFor(a.value);
    ParsedWord(s.action, kind);
    ActionIsAccepted(w, s.project, s.instance, s.action, s.task, s.pubOk, kind);
    hide Effect, RequestAction, ParseAction, TaskKindFor, AsksFor, Sent, FitsState, HoldsVolumes;
    SentIsNew(w, w', TaskMessage(s.task, kind, s.project, Some(s.instance), None, None, None, None, None), s.pubOk, m);
  }

  lemma SnapshotAsked(w: World, s: Step, m: TaskMessage)
    requires (s.TakeSnapshot? || s.RevertSnapshot?) && NewlyPublished(w.mq, Effect(w, s).mq, m)
    ensures Asked(w, s, m)
  {
    hide RequestSnapshotCreate, RequestSnapshotRevert, AtRest;
    if s.TakeSnapshot? {
      SnapshotIsAccepted(w, s.project, s.instance, s.name, s.snap, s.task, s.pubOk);
    } else {
      RevertIsAccepted(w, s.project, s.instance, s.snap, s.task, s.pubOk);
    }
  }

  lemma FipAsked(w: World, s: Step, m: TaskMessage)
    requires FipRows.FipsOk(w.fips, w.instances)
    requires (s.AssociateFip? || s.DisassociateFip?) && NewlyPublished(w.mq, Effect(w, s).mq, m)
    ensures Asked(w, s, m)
  {
    hide RequestAssociate, RequestDisassociate, FipRows.FipsOk;
    if s.AssociateFip? {
      AssociationIsAccepted(w, s.project, s.fip, s.instance, s.task, s.pubOk);
    } else {
      DisassociationIsAccepted(w, s.project, s.fip, s.task, s.pubOk);
    }
  }

  lemma CreateAsked(w: World, s: Step, m: TaskMessage)
    requires Core(w) && s.NewInstance? && NewlyPublished(w.mq, Effect(w, s).mq, m)
    ensures Asked(w, s, m)
  {
    assert Effect(w, s) == RequestCreate(w, s.req, s.pubOk).0 by {
      hide RequestCreate;
    }
    CreateIsAccepted(w, s.req, s.pubOk);
    hide Effect, Core;
    if RequestCreate(w, s.req, s.pubOk).1 in {Accepted, Refused(PublishFailed)} {
      CreatedRow(w, s.req, s.pubOk);
      hide RequestCreate;
    } else {
      RefusedCreate(w, s.req, s.pubOk);
    }
  }

  /** A message appears only in the step that asked for it. */
  lemma StepAsked(w: World, s: Step, m: TaskMessage)
    requires Core(w) && NewlyPublished(w.mq, Apply(w, s).mq, m)
    ensures Asked(w, s, m)
  {
    Retries.ApplyMessages(w, s);
    assert FipRows.FipsOk(w.fips, w.instances);
    hide Core, Apply, Effect, Asked, FipRows.FipsOk;
    if s.FinishStep? || s.ReceiveStep? {
      Retries.WorkerTakesOff(w, s);
    } else if s.NewInstance? {
      CreateAsked(w, s, m);
    } else if s.InstanceAction? {
      ActionAsked(w, s, m);
    } else if s.TakeSnapshot? || s.RevertSnapshot? {
      SnapshotAsked(w, s, m);
    } else if s.AssociateFip? || s.DisassociateFip? {
      FipAsked(w, s, m);
    } else {
      Retries.OthersKeepMessages(w, s);
    }
  }

  // ---- Every run --------------------------------------------------------------------------------------------

  /** The step that asked for the message, in the state it was taken in. */
  ghost predicate AskedAt(w: World, steps: seq<Step>, k: nat, m: TaskMessage) {
    k < |steps| && Asked(After(w, steps[..k]), steps[k], m)
  }

  lemma LaterAsked(w: World, steps: seq<Step>, k: nat, m: TaskMessage)
    requires steps != [] && AskedAt(Apply(w, steps[0]), steps[1..], k, m)
    ensures AskedAt(w, steps, k + 1, m)
  {
    hide Asked, Apply;
    assert steps[..k + 1][1..] == steps[1..][..k];
  }

  lemma {:induction false} RunAsked(w: World, steps: seq<Step>, m: TaskMessage)
    requires Core(w) && Runs(w, steps) && NewlyPublished(w.mq, After(w, steps).mq, m)
    ensures exists k: nat :: AskedAt(w, steps, k, m)
    decreases |steps|
  {
    hide Core, Apply, Asked;
    if steps != [] {
      var next := Apply(w, steps[0]);
      StepKeepsCore(w, steps[0]);
      if m in next.mq.published {
        StepAsked(w, steps[0], m);
        assert steps[..0] == [];
        assert AskedAt(w, steps, 0, m);
      } else {
        RunAsked(next, steps[1..], m);
        var k: nat :| AskedAt(next, steps[1..], k, m);
        LaterAsked(w, steps, k, m);
      }
    }
  }

  /**
   * In every run, each message ever published is the one a request of that run asked for, field by field, in a state that
   * allowed it: the kind by the word of the action, the prior state as it then was, the pair as it was then bound.
   */
  lemma EveryMessageWasAskedFor(w: World, steps: seq<Step>, m: TaskMessage)
    requires Init(w) && Runs(w, steps) && m in After(w, steps).mq.published
    ensures exists k: nat :: AskedAt(w, steps, k, m)
  {
    InitIsCore(w);
    hide Core, Runs, After, AskedAt;
    RunAsked(w, steps, m);
  }

  // ---- Only a destroy deletes ---------------------------------------------------------------------------------

  /** The request to destroy the instance. */
  ghost predicate AsksDestroy(s: Step, i: Id) {
    s.InstanceAction? && s.instance == i && Spells(s.action, "destroy")
  }

  ghost predicate DestroyAwaits(q: Mq, i: Id) {
    exists m :: m in Undelivered(q) && m.kind.InstanceDestroy? && m.instance == Some(i)
  }

  lemma PublishedIsUndelivered(w: World, s: Step, m: TaskMessage)
    requires Core(w) && Enabled(w, s) && !s.FinishStep? && !s.ReceiveStep?
    requires m in Undelivered(Apply(w, s).mq) && m !in Undelivered(w.mq)
    ensures NewlyPublished(w.mq, Apply(w, s).mq, m)
  {
    hide Undelivered, Core, Apply, NewIds, PublishTask, Enabled;
    Retries.StepPublishes(w, s);
    Retries.DrawsNew(w, s);
    var x: TaskMessage :| x.task in NewIds(s) && Retries.Asks(s, x.kind) && Apply(w, s).mq == PublishTask(w.mq, x);
    PublishEffect(w.mq, x);
    PublishRecords(w.mq, x);
    Retries.NewTasksAreUnpublished(w, x);
  }

  lemma PublishRecords(q: Mq, x: TaskMessage)
    ensures x in PublishTask(q, x).published
  {
  }

  /** Messages that come to be undelivered are published in that step. */
  lemma NewlyUndelivered(w: World, s: Step, m: TaskMessage)
    requires Core(w) && Enabled(w, s) && m in Undelivered(Apply(w, s).mq) && m !in Undelivered(w.mq)
    ensures NewlyPublished(w.mq, Apply(w, s).mq, m)
  {
    hide *;
    if s.FinishStep? || s.ReceiveStep? {
      Retries.WorkerTakesOff(w, s);
    } else {
      PublishedIsUndelivered(w, s, m);
    }
  }

  lemma StepKeepsInstance(w: World, s: Step, i: Id)
    requires Core(w) && Enabled(w, s) && i in w.instances && !DestroyAwaits(w.mq, i)
    ensures i in Apply(w, s).instances
  {
    if s.FinishStep? {
      ApplyRows(w, s);
      assert Effect(w, s) == FinishDelivery(w, s.calls) by {
        hide FinishDelivery;
      }
      FinishRows(w, s.calls);
      if w.mq.inflight.Some? {
        assert w.mq.inflight.value.msg in Undelivered(w.mq);
        hide Undelivered, Effect, Apply, Core, FinishDelivery, FinishTask;
        HandlerRows(w, s.calls);
      } else {
        hide Effect, Apply, Core, FinishDelivery;
      }
    } else if s.NewInstance? {
      hide Apply;
      CreateStepRows(w, s);
    } else {
      hide Apply, Core;
      OtherStepsKeepRows(w, s);
    }
  }

  lemma StepAwaitsNoDestroy(w: World, s: Step, i: Id)
    requires Core(w) && Enabled(w, s) && !DestroyAwaits(w.mq, i) && !AsksDestroy(s, i)
    ensures !DestroyAwaits(Apply(w, s).mq, i)
  {
    hide Core, Apply, Enabled, Undelivered;
    if DestroyAwaits(Apply(w, s).mq, i) {
      var m :| m in Undelivered(Apply(w, s).mq) && m.kind.InstanceDestroy? && m.instance == Some(i);
      NewlyUndelivered(w, s, m);
      StepAsked(w, s, m);
      hide FitsState, IsThere, HoldsVolumes, AtRest, CanBind, OwnsNetwork;
    }
  }

  /**
   * An instance that no undelivered destroy waits for stays, whatever else is requested, fails, or is swept, until someone
   * asks for its destruction by that word.
   */
  lemma {:induction false} OnlyDestroyDeletes(w: World, steps: seq<Step>, i: Id)
    requires Core(w) && Runs(w, steps) && i in w.instances && !DestroyAwaits(w.mq, i)
    requires forall k :: 0 <= k < |steps| ==> !AsksDestroy(steps[k], i)
    ensures i in After(w, steps).instances && !DestroyAwaits(After(w, steps).mq, i)
    decreases |steps|
  {
    hide Core, Apply, AsksDestroy, DestroyAwaits, Enabled;
    if steps != [] {
      StepKeepsCore(w, steps[0]);
      StepKeepsInstance(w, steps[0], i);
      StepAwaitsNoDestroy(w, steps[0], i);
      OnlyDestroyDeletes(Apply(w, steps[0]), steps[1..], i);
    }
  }

  lemma {:induction false} RunAwaitsNoDestroy(w: World, steps: seq<Step>, i: Id)
    requires Core(w) && Runs(w, steps) && !DestroyAwaits(w.mq, i)
    requires forall k :: 0 <= k < |steps| ==> !AsksDestroy(steps[k], i)
    ensures !DestroyAwaits(After(w, steps).mq, i)
    decreases |steps|
  {
    hide Core, Apply, AsksDestroy, DestroyAwaits, Enabled;
    if steps != [] {
      StepKeepsCore(w, steps[0]);
      StepAwaitsNoDestroy(w, steps[0], i);
      RunAwaitsNoDestroy(Apply(w, steps[0]), steps[1..], i);
    }
  }

  /** In particular, in a run in which no one asks for it no instance row is ever deleted. */
  lemma NoDestroyNoLoss(w: World, before: seq<Step>, later: seq<Step>, i: Id)
    requires Init(w) && Runs(w, before + later) && i in After(w, before).instances
    requires forall k :: 0 <= k < |before + later| ==> !AsksDestroy((before + later)[k], i)
    ensures i in After(w, before + later).instances
  {
    InitIsCore(w);
    Retries.RunsInTwo(w, before, later);
    RunKeepsCore(w, before);
    NothingAwaits(w, i);
    hide Core, Init, Runs, After, AsksDestroy, DestroyAwaits;
    assert forall k :: 0 <= k < |before| ==> (before + later)[k] == before[k];
    assert forall k :: 0 <= k < |later| ==> (before + later)[|before| + k] == later[k];
    RunAwaitsNoDestroy(w, before, i);
    OnlyDestroyDeletes(After(w, before), later, i);
  }

  lemma NothingAwaits(w: World, i: Id)
    requires Init(w)
    ensures !DestroyAwaits(w.mq, i)
  {
  }

  // ---- The state before a snapshot comes back -----------------------------------------------------------------------

  /** A snapshot handler leaves its instance in the state its message carries. */
  lemma HandlerGivesBack(w: World, c: Calls)
    requires Core(w) && w.mq.inflight.Some? && IsSnapshotKind(w.mq.inflight.value.msg.kind)
    requires HasInstance(w.instances, w.mq.inflight.value.msg.project, w.mq.inflight.value.msg.instance.value)
    ensures var m := w.mq.inflight.value.msg; var w' := FinishDelivery(w, c);
      m.instance.value in w'.instances && Some(w'.instances[m.instance.value].state) == m.prior
  {
    var m := w.mq.inflight.value.msg;
    HeldIsNotDone(w.mq, w.tasks, w.instances, w.used);
    HandlerOf(w, m, c);
    FinishRows(w, c);
    hide Core, FinishTask, FinishDelivery, FinishSnapshotCreate, FinishSnapshotRevert, Tracked, OnlyIts;
    if m.kind.SnapshotCreate? {
      SnapshotCreateOutcome(w, m, c);
    } else {
      SnapshotRevertOutcome(w, m, c);
    }
  }

  /**
   * In every run, the end of a snapshot or revert leaves its instance in the state it was in when that was asked for,
   * whatever the handler's calls do and whatever came in between.
   */
  lemma PriorStateComesBack(w: World, steps: seq<Step>, c: Calls)
    requires Init(w) && Runs(w, steps)
    requires var q := After(w, steps).mq; q.inflight.Some? && IsSnapshotKind(q.inflight.value.msg.kind)
    requires var m := After(w, steps).mq.inflight.value.msg; m.instance.Some? && m.instance.value in After(w, steps).instances
    ensures var m := After(w, steps).mq.inflight.value.msg; var i := m.instance.value;
      exists k: nat :: AskedAt(w, steps, k, m)
        && i in After(w, steps[..k]).instances && i in After(w, steps + [FinishStep(c)]).instances
        && After(w, steps + [FinishStep(c)]).instances[i].state == After(w, steps[..k]).instances[i].state
  {
    var last := After(w, steps);
    var m := last.mq.inflight.value.msg;
    InitIsCore(w);
    RunKeepsCore(w, steps);
    HeldIsPublished(last);
    EveryMessageWasAskedFor(w, steps, m);
    var k: nat :| AskedAt(w, steps, k, m);
    AskedCarriesState(After(w, steps[..k]), steps[k], m);
    HandlerGivesBack(last, c);
    OneMoreStep(w, steps, c);
  }

  lemma HeldIsPublished(w: World)
    requires Core(w) && w.mq.inflight.Some?
    ensures var m := w.mq.inflight.value.msg;
      && m in w.mq.published
      && (m.instance.Some? && m.instance.value in w.instances ==> HasInstance(w.instances, m.project, m.instance.value))
  {
    HeldIsNotDone(w.mq, w.tasks, w.instances, w.used);
  }

  lemma AskedCarriesState(w: World, s: Step, m: TaskMessage)
    requires Asked(w, s, m) && IsSnapshotKind(m.kind)
    ensures m.instance.Some? && m.instance.value in w.instances && m.prior == Some(w.instances[m.instance.value].state)
  {
  }

  lemma OneMoreStep(w: World, steps: seq<Step>, c: Calls)
    ensures After(w, steps + [FinishStep(c)]).instances == FinishDelivery(After(w, steps), c).instances
  {
    Retries.RunsInTwo(w, steps, [FinishStep(c)]);
    var x := After(w, steps);
    assert [FinishStep(c)][1..] == [];
    assert Apply(x, FinishStep(c)) == FinishDelivery(x, c) by {
      hide FinishDelivery;
    }
    hide Apply, FinishDelivery;
  }

  lemma OneRowChanged(a: InstanceTable, b: InstanceTable, m: TaskMessage, i: Id)
    requires InstancesSettled(a, b, m) && m.instance == Some(i) && i in a && i in b && Ipam.SameExceptState(a, b)
    ensures b == a[i := a[i].(state := b[i].state)]
  {
  }

  lemma HandlerSettlesInstances(w: World, c: Calls)
    requires Core(w) && w.mq.inflight.Some?
    ensures var m := w.mq.inflight.value.msg; InstancesSettled(w.instances, FinishTask(w, m, c).0.instances, m)
  {
    HeldTaskSettles(w, c);
    hide Core, FinishTask, InstancesSettled, TablesOk, TaskClosed, Grounded, Proper;
  }

  /** The handler touches no other row either. */
  lemma HandlerLeavesOthers(w: World, c: Calls)
    requires Core(w) && w.mq.inflight.Some? && IsSnapshotKind(w.mq.inflight.value.msg.kind)
    requires HasInstance(w.instances, w.mq.inflight.value.msg.project, w.mq.inflight.value.msg.instance.value)
    ensures var m := w.mq.inflight.value.msg; var i := m.instance.value;
      m.prior.Some? && FinishDelivery(w, c).instances == w.instances[i := w.instances[i].(state := m.prior.value)]
  {
    var m := w.mq.inflight.value.msg;
    HandlerGivesBack(w, c);
    HandlerSettlesInstances(w, c);
    HandlerRows(w, c);
    FinishRows(w, c);
    hide Core, FinishTask, FinishDelivery, InstancesSettled, Ipam.SameExceptState;
    OneRowChanged(w.instances, FinishDelivery(w, c).instances, m, m.instance.value);
  }

  /** The request is accepted and everything it says stands in the one message queued, or it changed no instance. */
  ghost predicate Waits(w: World, w': World, i: Id) {
    && i in w.instances && w'.instances == w.instances[i := w.instances[i].(state := Snapshotting)]
    && w'.mq.inflight.None? && |w'.mq.queue| == 1
    && var m := w'.mq.queue[0].msg;
       IsSnapshotKind(m.kind) && m.instance == Some(i) && m.project == w.instances[i].project
       && m.prior == Some(w.instances[i].state)
  }

  lemma RequestedSnapshot(w: World, s: Step)
    requires (s.TakeSnapshot? || s.RevertSnapshot?) && w.mq.queue == [] && w.mq.inflight.None?
    ensures var w' := Apply(w, s); (w'.instances == w.instances && w'.mq == w.mq) || Waits(w, w', s.instance)
  {
    Retries.ApplyMessages(w, s);
    ApplyRows(w, s);
    hide RequestSnapshotCreate, RequestSnapshotRevert, Apply;
    if s.TakeSnapshot? {
      SnapshotIsAccepted(w, s.project, s.instance, s.name, s.snap, s.task, s.pubOk);
    } else {
      RevertIsAccepted(w, s.project, s.instance, s.snap, s.task, s.pubOk);
    }
  }

  lemma Received(w: World)
    requires w.mq.inflight.None?
    ensures var w' := ReceiveTask(w);
      && w'.instances == w.instances
      && (if w.mq.queue == [] then w' == w else w'.mq.inflight == Some(w.mq.queue[0]))
  {
    Retries.ReceiveTaskMq(w);
    ReceiveShape(w);
    hide Undelivered, BeginTask;
  }

  lemma WaitingIsGivenBack(w: World, w1: World, c: Calls, i: Id)
    requires Core(w1) && Waits(w, w1, i)
    ensures FinishDelivery(ReceiveTask(w1), c).instances == w.instances
  {
    var w2 := ReceiveTask(w1);
    Received(w1);
    ReceiveKeepsCore(w1);
    StateRewritten(w.instances, i, Snapshotting);
    hide Core, ReceiveTask, FinishDelivery;
    assert w2.mq.inflight.value.msg.prior == Some(w.instances[i].state);
    HandlerLeavesOthers(w2, c);
  }

  lemma StateRewritten(a: InstanceTable, i: Id, busy: InstanceState)
    requires i in a
    ensures var b := a[i := a[i].(state := busy)]; b[i := b[i].(state := a[i].state)] == a
  {
  }

  /** With nothing else queued: request, delivery and handler together leave the whole instance table as it was. */
  lemma SnapshotLeavesInstances(w: World, s: Step, c: Calls)
    requires Core(w) && Enabled(w, s) && (s.TakeSnapshot? || s.RevertSnapshot?) && w.mq.queue == [] && w.mq.inflight.None?
    ensures FinishDelivery(ReceiveTask(Apply(w, s)), c).instances == w.instances
  {
    var w1 := Apply(w, s);
    StepKeepsCore(w, s);
    RequestedSnapshot(w, s);
    hide *;
    if Waits(w, w1, s.instance) {
      WaitingIsGivenBack(w, w1, c, s.instance);
    } else {
      Received(w1);
      FinishRows(w1, c);
    }
  }
}
