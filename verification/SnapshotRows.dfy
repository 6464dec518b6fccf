/** What a snapshot row says of the message that was to make it, in every run. */
module SnapshotRows {
  import opened Wrappers
  import opened Text
  import opened Model
  import opened Messages
  import opened Control
  import opened System
  import opened Tracking
  import opened Invariants
  import opened Requests
  import opened Retries
  import Ipam
  import HostNames
  import NatRules
  import FipRows
  import Disks

  type Snapshots = map<Id, Snapshot>

  // ---- The invariant -----------------------------------------------------------------------------------

  predicate Makes(m: TaskMessage, s: Id) {
    m.kind.SnapshotCreate? && m.snapshot == Some(s)
  }

  /** A message that makes the snapshot is still to be delivered. */
  ghost predicate AwaitsMaker(q: Mq, s: Id) {
    exists m :: m in Undelivered(q) && Makes(m, s)
  }

  /** A message that makes the snapshot was acknowledged after success. */
  ghost predicate Made(q: Mq, s: Id) {
    exists m :: m in q.done && Makes(m, s)
  }

  ghost predicate Told(q: Mq, s: Id, row: Snapshot) {
    && (row.status.SnapCreating? ==> AwaitsMaker(q, s))
    && (row.status.SnapAvailable? <==> Made(q, s))
    && (forall m :: m in q.published && Makes(m, s) ==> m.project == row.project && m.instance == Some(row.instance))
  }

  /** Each snapshot has at most one message that makes it, with an identifier drawn by its request. */
  ghost predicate OneMaker(q: Mq, used: set<Id>) {
    && (forall m :: m in q.published && m.kind.SnapshotCreate? ==> m.snapshot.Some? && m.snapshot.value in used)
    && (forall m, n ::
          m in q.published && n in q.published && m.kind.SnapshotCreate? && n.kind.SnapshotCreate? && m.snapshot == n.snapshot
          ==> m == n)
  }

  ghost predicate AllTold(q: Mq, snapshots: Snapshots) {
    forall s :: s in snapshots ==> Told(q, s, snapshots[s])
  }

  ghost predicate RowsTold(w: World) {
    OneMaker(w.mq, w.used) && AllTold(w.mq, w.snapshots)
  }

  // ---- Publishing -----------------------------------------------------------------------------------------

  lemma PublishKeepsTold(q: Mq, x: TaskMessage, s: Id, row: Snapshot)
    requires Told(q, s, row) && !Makes(x, s)
    ensures Told(PublishTask(q, x), s, row)
  {
    PublishEffect(q, x);
    assert forall m :: m in Undelivered(q) ==> m in Undelivered(PublishTask(q, x));
    hide Undelivered;
  }

  lemma PublishKeepsOneMaker(q: Mq, x: TaskMessage, used: set<Id>, more: set<Id>)
    requires OneMaker(q, used) && used <= more
    requires x.kind.SnapshotCreate? ==> x.snapshot.Some? && x.snapshot.value in more - used
    ensures OneMaker(PublishTask(q, x), more)
  {
  }

  /** A row comes with the message that makes it, or in error when that was not published. */
  lemma NewRowIsTold(q: Mq, used: set<Id>, x: TaskMessage, s: Id, row: Snapshot, pubOk: bool)
    requires Conserved(q) && OneMaker(q, used) && s !in used && Makes(x, s)
    requires x.project == row.project && x.instance == Some(row.instance)
    requires row.status == if pubOk then SnapCreating else SnapError
    ensures Told(if pubOk then PublishTask(q, x) else q, s, row)
  {
    PublishEffect(q, x);
    DoneIsPublished(q);
    assert x in Undelivered(PublishTask(q, x));
    hide Undelivered, Conserved;
  }

  lemma DoneIsPublished(q: Mq)
    requires Conserved(q)
    ensures forall m :: m in q.done || m in Undelivered(q) ==> m in q.published
  {
  }

  // ---- The end of a handler ----------------------------------------------------------------------------------

  /** The handler of a snapshot's message writes its row on every way out, as available only when it succeeds. */
  lemma MakerWritesRow(w: World, m: TaskMessage, c: Calls)
    requires m.kind.SnapshotCreate? && Dispatchable(m)
    ensures var (w', ok) := FinishSnapshotCreate(w, m, c);
      && w'.snapshots == SetSnapshot(w.snapshots, m.project, m.snapshot.value, if ok then SnapAvailable else SnapError)
  {
    hide SetState, SetTask;
  }

  lemma FinalizeKeepsTold(q: Mq, s: Id, row: Snapshot, ok: bool, pubOk: bool)
    requires Told(q, s, row) && q.inflight.Some? && !Makes(q.inflight.value.msg, s)
    ensures Told(FinalizeDelivery(q, q.inflight.value, ok, pubOk), s, row)
  {
    var m := q.inflight.value.msg;
    var q' := FinalizeDelivery(q, q.inflight.value, ok, pubOk);
    FinalizeEffect(q, q.inflight.value, ok, pubOk);
    FinalizeKeeps(q, q.inflight.value, ok, pubOk);
    assert forall n :: n in Undelivered(q) && n != m ==> n in Bag(q.queue);
    assert forall n :: n in Bag(q.queue) ==> n in Undelivered(q');
    hide FinalizeDelivery, Undelivered, Bag;
  }

  /** After its delivery the row is available exactly when the handler succeeded. */
  lemma FinalizeTells(q: Mq, used: set<Id>, s: Id, row: Snapshot, ok: bool, pubOk: bool)
    requires Told(q, s, row) && OneMaker(q, used) && Conserved(q) && q.inflight.Some?
    requires Makes(q.inflight.value.msg, s) && q.inflight.value.msg in q.published && q.inflight.value.msg !in q.done
    ensures Told(FinalizeDelivery(q, q.inflight.value, ok, pubOk), s, row.(status := if ok then SnapAvailable else SnapError))
  {
    var m := q.inflight.value.msg;
    var q' := FinalizeDelivery(q, q.inflight.value, ok, pubOk);
    FinalizeEffect(q, q.inflight.value, ok, pubOk);
    DoneIsPublished(q);
    hide FinalizeDelivery, Undelivered, Bag, Conserved;
    if ok {
      assert m in q'.done && Made(q', s);
    } else {
      assert q'.done == q.done && !Made(q', s);
    }
  }

  lemma MakerTells(w: World, c: Calls)
    requires Tracked(w.mq, w.tasks, w.instances, w.used) && RowsTold(w)
    requires w.mq.inflight.Some? && w.mq.inflight.value.msg.kind.SnapshotCreate?
    ensures var m := w.mq.inflight.value.msg; Dispatchable(m)
    ensures var (x, ok) := FinishSnapshotCreate(w, w.mq.inflight.value.msg, c);
      AllTold(FinalizeDelivery(w.mq, w.mq.inflight.value, ok, c.pubOk), x.snapshots)
  {
    var m := w.mq.inflight.value.msg;
    HeldIsNotDone(w.mq, w.tasks, w.instances, w.used);
    MakerWritesRow(w, m, c);
    var (x, ok) := FinishSnapshotCreate(w, m, c);
    hide FinishSnapshotCreate, FinalizeDelivery, Told, Grounded;
    forall s | s in x.snapshots ensures Told(FinalizeDelivery(w.mq, w.mq.inflight.value, ok, c.pubOk), s, x.snapshots[s]) {
      if m.snapshot == Some(s) {
        MakerNamesRow(w.mq, m, s, w.snapshots[s]);
        FinalizeTells(w.mq, w.used, s, w.snapshots[s], ok, c.pubOk);
      } else {
        FinalizeKeepsTold(w.mq, s, w.snapshots[s], ok, c.pubOk);
      }
    }
  }

  lemma MakerNamesRow(q: Mq, m: TaskMessage, s: Id, row: Snapshot)
    requires Told(q, s, row) && m in q.published && Makes(m, s)
    ensures m.project == row.project
  {
  }

  ghost predicate FewerRows(a: Snapshots, b: Snapshots) {
    forall s :: s in b ==> s in a && b[s] == a[s]
  }

  lemma DestroyDropsRows(w: World, m: TaskMessage, c: Calls)
    requires m.instance.Some?
    ensures FewerRows(w.snapshots, FinishDestroy(w, m, c).0.snapshots)
  {
    hide Disks.DetachAllDisks, Disks.DetachAllRows, Disks.DeleteVm, SetState, SetTask, ForgetInstance, Ipam.Release, DeleteBlocked,
         FipRows.BindingsOf, FipRows.ClearOfProject, FipRows.ClearOfInstance;
  }

  lemma RevertKeepsRows(w: World, m: TaskMessage, c: Calls)
    requires m.instance.Some? && m.snapshot.Some? && m.prior.Some?
    ensures FinishSnapshotRevert(w, m, c).0.snapshots == w.snapshots
  {
    hide SetState, SetTask;
  }

  /** Every other handler changes no snapshot row; a destroy drops those of its instance. */
  lemma OtherHandlersKeepRows(w: World, m: TaskMessage, c: Calls)
    requires !m.kind.SnapshotCreate?
    ensures FewerRows(w.snapshots, FinishTask(w, m, c).0.snapshots)
  {
    hide FinishDestroy, FinishSnapshotRevert, SetState, SetTask, LifecycleCall, Disks.CreateVm, NatRules.Associate,
         NatRules.Disassociate, HostNames.Sanitized;
    if Dispatchable(m) && m.kind.InstanceDestroy? {
      DestroyDropsRows(w, m, c);
    } else if Dispatchable(m) && m.kind.SnapshotRevert? {
      RevertKeepsRows(w, m, c);
    }
  }

  lemma OthersTell(w: World, x: World, ok: bool, pubOk: bool)
    requires AllTold(w.mq, w.snapshots) && FewerRows(w.snapshots, x.snapshots)
    requires w.mq.inflight.Some? && !w.mq.inflight.value.msg.kind.SnapshotCreate?
    ensures AllTold(FinalizeDelivery(w.mq, w.mq.inflight.value, ok, pubOk), x.snapshots)
  {
    hide FinalizeDelivery, Told;
    forall s | s in x.snapshots ensures Told(FinalizeDelivery(w.mq, w.mq.inflight.value, ok, pubOk), s, x.snapshots[s]) {
      FinalizeKeepsTold(w.mq, s, x.snapshots[s], ok, pubOk);
    }
  }

  lemma FinishMade(w: World, c: Calls)
    requires w.mq.inflight.Some? && FinishTask(w, w.mq.inflight.value.msg, c).0.mq == w.mq
    requires FinishTask(w, w.mq.inflight.value.msg, c).0.used == w.used
    ensures var (x, ok) := FinishTask(w, w.mq.inflight.value.msg, c); var w' := FinishDelivery(w, c);
      && w'.snapshots == x.snapshots && w'.used == w.used && w'.mq == FinalizeDelivery(w.mq, w.mq.inflight.value, ok, c.pubOk)
      && w'.mq.published == w.mq.published
  {
    hide FinishTask;
  }

  lemma FinishTells(w: World, c: Calls)
    requires Core(w) && RowsTold(w)
    ensures RowsTold(FinishDelivery(w, c))
  {
    if w.mq.inflight.Some? {
      var m := w.mq.inflight.value.msg;
      var (x, ok) := FinishTask(w, m, c);
      HeldTaskSettles(w, c);
      FinishMade(w, c);
      HandlerOf(w, m, c);
      hide FinishTask, FinalizeDelivery, FinishDelivery, AllTold, FinishSnapshotCreate, NoOrphans, TablesOk, InstancesSettled;
      if m.kind.SnapshotCreate? {
        MakerTells(w, c);
      } else {
        OtherHandlersKeepRows(w, m, c);
        OthersTell(w, x, ok, c.pubOk);
      }
    }
  }

  // ---- Requests -------------------------------------------------------------------------------------------------

  /** Everything but the requested snapshot is as it was. */
  lemma NewRowTells(w: World, snap: Id, row: Snapshot, x: TaskMessage, more: set<Id>, pubOk: bool)
    requires Conserved(w.mq) && RowsTold(w) && snap in more - w.used && w.used <= more && Makes(x, snap)
    requires x.project == row.project && x.instance == Some(row.instance)
    requires row.status == if pubOk then SnapCreating else SnapError
    ensures var q' := if pubOk then PublishTask(w.mq, x) else w.mq; OneMaker(q', more) && AllTold(q', w.snapshots[snap := row])
  {
    var q' := if pubOk then PublishTask(w.mq, x) else w.mq;
    PublishKeepsOneMaker(w.mq, x, w.used, more);
    NewRowIsTold(w.mq, w.used, x, snap, row, pubOk);
    UsedMayGrow(w.mq, w.used, more);
    hide PublishTask, Told, Conserved, OneMaker;
    forall s | s in w.snapshots && s != snap ensures Told(q', s, w.snapshots[s]) {
      PublishKeepsTold(w.mq, x, s, w.snapshots[s]);
    }
  }

  lemma UsedMayGrow(q: Mq, used: set<Id>, more: set<Id>)
    requires OneMaker(q, used) && used <= more
    ensures OneMaker(q, more)
  {
  }

  function RequestedRow(w: World, p: Id, i: Id, name: string, pubOk: bool): Snapshot
    requires i in w.instances
  {
    Snapshot(p, i, TrimSpace(name), if pubOk then SnapCreating else SnapError, w.instances[i].state.Running?)
  }

  lemma SnapshotRequestCases(w: World, p: Id, i: Id, name: string, snap: Id, t: Id, pubOk: bool)
    ensures var w' := RequestSnapshotCreate(w, p, i, name, snap, t, pubOk).0;
      || w' == w
      || (&& i in w.instances && w'.snapshots == w.snapshots[snap := RequestedRow(w, p, i, name, pubOk)]
          && w'.mq == if pubOk then PublishTask(w.mq, SnapshotMessage(t, SnapshotCreate, p, i, snap, w.instances[i].state)) else w.mq)
  {
    hide PublishTask, SnapshotMessage, SnapshotNameTaken, SetState, TrimSpace, CanSnapshot;
  }

  lemma SnapshotRequestTells(w: World, p: Id, i: Id, name: string, snap: Id, t: Id, pubOk: bool)
    requires Conserved(w.mq) && RowsTold(w) && snap !in w.used
    ensures RowsTold(RequestSnapshotCreate(w, p, i, name, snap, t, pubOk).0.(used := w.used + {snap, t}))
  {
    var more := w.used + {snap, t};
    UsedMayGrow(w.mq, w.used, more);
    SnapshotRequestCases(w, p, i, name, snap, t, pubOk);
    hide RequestSnapshotCreate, PublishTask, OneMaker, AllTold, Conserved, TrimSpace;
    if RequestSnapshotCreate(w, p, i, name, snap, t, pubOk).0 != w {
      NewRowTells(w, snap, RequestedRow(w, p, i, name, pubOk),
        SnapshotMessage(t, SnapshotCreate, p, i, snap, w.instances[i].state), more, pubOk);
    }
  }

  lemma RequestsKeepSnapshots(w: World, s: Step)
    requires s.InstanceAction? || s.RevertSnapshot? || s.AssociateFip? || s.DisassociateFip?
    ensures Effect(w, s).snapshots == w.snapshots && Effect(w, s).used == w.used
  {
    hide ParseAction, SetState, HasVolumes, PublishTask, ActionAllowed, FipRows.TryAssociate, FipRows.TakeDisassociate,
         FipRows.Rollback;
  }

  lemma OtherStepsKeepSnapshots(w: World, s: Step)
    requires !s.TakeSnapshot? && !s.FinishStep?
    ensures Effect(w, s).snapshots == w.snapshots && Effect(w, s).used == w.used
  {
    hide RequestCreate, RequestAction, RequestSnapshotRevert, RequestAssociate, RequestDisassociate, Ipam.CreateInstanceWithIpam,
         SetTask, Disks.Attach, Disks.Detach, Disks.CreateVolume, Disks.DeleteVolume;
    if s.NewInstance? {
      CreateRequestCases(w, s.req, s.pubOk);
    } else if s.InstanceAction? || s.RevertSnapshot? || s.AssociateFip? || s.DisassociateFip? {
      RequestsKeepSnapshots(w, s);
    }
  }

  // ---- Every step, every run ---------------------------------------------------------------------------------------

  lemma ReceiveTells(w: World)
    requires RowsTold(w)
    ensures RowsTold(ReceiveTask(w))
  {
    ReceiveTaskMq(w);
    ReceiveShape(w);
    ReceiveEffect(w.mq);
    hide ReceiveTask, Receive, Undelivered;
  }

  lemma PublishTells(w: World, x: TaskMessage, more: set<Id>)
    requires RowsTold(w) && w.used <= more && !x.kind.SnapshotCreate?
    ensures OneMaker(PublishTask(w.mq, x), more) && AllTold(PublishTask(w.mq, x), w.snapshots)
  {
    PublishKeepsOneMaker(w.mq, x, w.used, more);
    hide PublishTask, Told, OneMaker;
    forall s | s in w.snapshots ensures Told(PublishTask(w.mq, x), s, w.snapshots[s]) {
      PublishKeepsTold(w.mq, x, s, w.snapshots[s]);
    }
  }

  lemma OtherStepsTell(w: World, s: Step)
    requires RowsTold(w) && !s.TakeSnapshot? && !s.FinishStep? && !s.ReceiveStep?
    ensures RowsTold(Apply(w, s))
  {
    OtherStepsKeepSnapshots(w, s);
    StepPublishes(w, s);
    ApplySnapshots(w, s);
    UsedMayGrow(w.mq, w.used, Apply(w, s).used);
    hide Apply, Effect, NewIds, PublishTask, AllTold, OneMaker;
    if Apply(w, s).mq != w.mq {
      var x: TaskMessage :| x.task in NewIds(s) && Asks(s, x.kind) && Apply(w, s).mq == PublishTask(w.mq, x);
      PublishTells(w, x, Apply(w, s).used);
    }
  }

  lemma ApplySnapshots(w: World, s: Step)
    ensures var w', x := Apply(w, s), Effect(w, s);
      && w'.snapshots == x.snapshots && w'.used == if NewIds(s) == {} then x.used else w.used + NewIds(s)
  {
    hide Effect, NewIds;
  }

  lemma StepTells(w: World, s: Step)
    requires Core(w) && RowsTold(w) && Enabled(w, s)
    ensures RowsTold(Apply(w, s))
  {
    if s.TakeSnapshot? {
      hide RowsTold, RequestSnapshotCreate;
      SnapshotRequestTells(w, s.project, s.instance, s.name, s.snap, s.task, s.pubOk);
    } else if s.FinishStep? {
      hide Core, RowsTold, FinishDelivery;
      FinishTells(w, s.calls);
    } else if s.ReceiveStep? {
      hide RowsTold, ReceiveTask;
      ReceiveTells(w);
    } else {
      hide Core, RowsTold, Apply;
      OtherStepsTell(w, s);
    }
  }

  lemma {:induction false} RunTells(w: World, steps: seq<Step>)
    requires Core(w) && RowsTold(w) && Runs(w, steps)
    ensures RowsTold(After(w, steps))
    decreases |steps|
  {
    hide Core, RowsTold, Apply;
    if steps != [] {
      StepKeepsCore(w, steps[0]);
      StepTells(w, steps[0]);
      RunTells(Apply(w, steps[0]), steps[1..]);
    }
  }

  lemma StartsTold(w: World)
    requires Init(w)
    ensures RowsTold(w)
  {
  }

  lemma TasksTell(w: World)
    requires Core(w)
    ensures Conserved(w.mq)
    ensures forall m :: m in w.mq.published ==> m.task in w.tasks && (m in w.mq.done <==> w.tasks[m.task].status.Succeeded?)
  {
    forall m | m in w.mq.published ensures m.task in w.tasks {
      assert Grounded(m, w.tasks, w.instances, w.used);
    }
  }

  /**
   * Snapshot rows in any run: one in creation has its message still to be delivered; one is available exactly when the
   * task of its message succeeded; one without a message is in error. With the queue drained none is in creation.
   */
  lemma SnapshotsInAnyRun(w: World, steps: seq<Step>, s: Id)
    requires Init(w) && Runs(w, steps) && s in After(w, steps).snapshots
    ensures var w' := After(w, steps); var row := w'.snapshots[s];
      && (row.status.SnapCreating? ==> AwaitsMaker(w'.mq, s))
      && (forall m :: m in w'.mq.published && Makes(m, s) ==>
            && m.project == row.project && m.instance == Some(row.instance) && m.task in w'.tasks
            && (row.status.SnapAvailable? <==> w'.tasks[m.task].status.Succeeded?))
      && ((forall m :: m in w'.mq.published ==> !Makes(m, s)) ==> row.status.SnapError?)
      && (w'.mq.queue == [] && w'.mq.inflight.None? ==> row.status.SnapAvailable? || row.status.SnapError?)
  {
    InitIsCore(w);
    StartsTold(w);
    RunKeepsCore(w, steps);
    RunTells(w, steps);
    hide Runs, After;
    var w' := After(w, steps);
    assert Told(w'.mq, s, w'.snapshots[s]);
    TasksTell(w');
    DoneIsPublished(w'.mq);
    assert w'.mq.queue == [] && w'.mq.inflight.None? ==> Undelivered(w'.mq) == multiset{};
    hide Core, Undelivered, Conserved;
  }
}
