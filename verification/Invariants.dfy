/** The invariant of the control plane, and that each request, handler and pass keeps it. */
module Invariants {
  import opened Wrappers
  import opened HostNames
  import opened NatRules
  import opened Model
  import opened Messages
  import opened Ipam
  import opened FipRows
  import opened Disks
  import opened Control
  import opened System
  import opened Tracking

  // ---- Transitional states have their message ------------------------------------------------------------

  ghost predicate AwaitsCreate(q: Mq, i: Id) {
    exists m :: m in Undelivered(q) && m.kind.InstanceCreate? && m.instance == Some(i)
  }

  ghost predicate AwaitsSnapshot(q: Mq, i: Id) {
    exists m :: m in Undelivered(q) && IsSnapshotKind(m.kind) && m.instance == Some(i)
                && m.prior.Some? && CanSnapshot(m.prior.value)
  }

  /** Creating and snapshotting instances wait for an undelivered message; deleting is never left behind. */
  ghost predicate NoOrphans(instances: map<Id, Instance>, q: Mq) {
    forall i :: i in instances ==>
      && !instances[i].state.Deleting?
      && (instances[i].state.Creating? ==> AwaitsCreate(q, i))
      && (instances[i].state.Snapshotting? ==> AwaitsSnapshot(q, i))
  }

  // ---- The database side of volumes ------------------------------------------------------------------------

  ghost predicate VolumeRowSound(row: Volume, instances: map<Id, Instance>) {
    && (row.status.InUse? <==> row.instance.Some?)
    && (row.instance.Some? <==> row.target.Some?)
    && (row.instance.Some? ==> row.instance.value in instances && instances[row.instance.value].project == row.project)
  }

  ghost predicate VolumeRowsSound(volumes: map<Id, Volume>, instances: map<Id, Instance>) {
    forall v :: v in volumes ==> VolumeRowSound(volumes[v], instances)
  }

  // ---- The invariant ------------------------------------------------------------------------------------------

  ghost predicate Core(w: World) {
    && Tracked(w.mq, w.tasks, w.instances, w.used)
    && Agreement(w.ipam, w.instances)
    && w.ipam.networks.Keys <= w.used
    && FipsOk(w.fips, w.instances)
    && VolumeRowsSound(w.volumes, w.instances)
    && NoOrphans(w.instances, w.mq)
  }

  /** With nothing left to deliver, no instance is between states. */
  lemma EmptyQueueMeansSettled(w: World, i: Id)
    requires Core(w) && w.mq.queue == [] && w.mq.inflight.None? && i in w.instances
    ensures w.instances[i].state in {Running, Stopped, Errored}
  {
  }

  lemma InitIsCore(w: World)
    requires Init(w)
    ensures Core(w)
  {
  }

  // ---- Changing one instance's state ------------------------------------------------------------------------------

  lemma SetStateKeepsTables(w: World, project: Id, i: Id, state: InstanceState)
    requires Agreement(w.ipam, w.instances) && FipsOk(w.fips, w.instances) && VolumeRowsSound(w.volumes, w.instances)
    ensures var instances' := SetState(w.instances, project, i, state);
      && Agreement(w.ipam, instances') && FipsOk(w.fips, instances') && VolumeRowsSound(w.volumes, instances')
  {
    var instances' := SetState(w.instances, project, i, state);
    StatesDoNotMatter(w.ipam, w.instances, instances');
    RowsIgnoreStates(w.fips, w.instances, instances');
    forall v | v in w.volumes ensures VolumeRowSound(w.volumes[v], instances') {
      assert VolumeRowSound(w.volumes[v], w.instances);
    }
  }

  // ---- What a handler leaves behind ------------------------------------------------------------------------------------

  predicate FinalState(s: InstanceState) {
    s.Running? || s.Stopped? || s.Errored?
  }

  predicate TouchesInstance(m: TaskMessage) {
    !m.kind.FipAssociate? && !m.kind.FipDisassociate?
  }

  /** Only the message's own instance changes, in its state or by being deleted. */
  ghost predicate InstancesSettled(a: map<Id, Instance>, b: map<Id, Instance>, m: TaskMessage) {
    && (forall i :: i in b ==> i in a && b[i] == a[i].(state := b[i].state))
    && (forall i :: i in a && m.instance != Some(i) ==> i in b && b[i] == a[i])
    && (forall i :: i in b && m.instance == Some(i) && TouchesInstance(m) ==> FinalState(b[i].state))
    && (!TouchesInstance(m) ==> b == a)
  }

  ghost predicate TablesOk(w: World) {
    && Agreement(w.ipam, w.instances) && FipsOk(w.fips, w.instances) && VolumeRowsSound(w.volumes, w.instances)
  }

  ghost predicate Settled(a: World, b: World, m: TaskMessage, ok: bool) {
    && b.mq == a.mq && b.used == a.used && b.ipam.networks == a.ipam.networks
    && TaskClosed(a.tasks, b.tasks, m.task, ok)
    && InstancesSettled(a.instances, b.instances, m)
    && TablesOk(b)
  }

  /** Worlds with the same rows apart from snapshots, domains and rules. */
  predicate SameRows(a: World, b: World) {
    && b.ipam == a.ipam && b.instances == a.instances && b.tasks == a.tasks && b.volumes == a.volumes
    && b.fips == a.fips && b.mq == a.mq && b.used == a.used
  }

  lemma SetTaskCloses(tasks: Tasks, project: Id, t: Id, ok: bool)
    requires HasTask(tasks, project, t)
    ensures TaskClosed(tasks, SetTask(tasks, project, t, if ok then Succeeded else Failed), t, ok)
  {
  }

  lemma SetStateSettles(instances: map<Id, Instance>, m: TaskMessage, state: InstanceState)
    requires m.instance.Some? && TouchesInstance(m) && FinalState(state)
    requires m.instance.value in instances ==> instances[m.instance.value].project == m.project
    ensures InstancesSettled(instances, SetState(instances, m.project, m.instance.value, state), m)
  {
  }

  lemma EndWithSettles(a: World, b: World, m: TaskMessage, ok: bool, good: InstanceState, bad: InstanceState)
    requires SameRows(a, b) && TablesOk(a) && HasTask(a.tasks, m.project, m.task)
    requires m.instance.Some? && FinalState(good) && FinalState(bad)
    requires m.instance.value in a.instances ==> a.instances[m.instance.value].project == m.project
    requires TouchesInstance(m)
    ensures Settled(a, EndWith(b, m, ok, good, bad).0, m, ok) && EndWith(b, m, ok, good, bad).1 == ok
  {
    var state := if ok then good else bad;
    SetStateKeepsTables(a, m.project, m.instance.value, state);
    SetStateSettles(a.instances, m, state);
    SetTaskCloses(a.tasks, m.project, m.task, ok);
    var end := EndWith(b, m, ok, good, bad).0;
    assert end.instances == SetState(a.instances, m.project, m.instance.value, state);
    assert end.tasks == SetTask(a.tasks, m.project, m.task, if ok then Succeeded else Failed);
    assert TablesOk(end);
  }

  lemma CloseSettles(a: World, b: World, m: TaskMessage)
    requires SameRows(a, b) && TablesOk(a) && HasTask(a.tasks, m.project, m.task)
    requires TouchesInstance(m) ==> m.instance.Some? && m.instance.value !in a.instances
    ensures Settled(a, FailTask(b, m).0, m, false) && Settled(a, EndTask(b, m).0, m, true)
  {
  }

  // ---- Destroy --------------------------------------------------------------------------------------------------------------

  lemma TearDownKeepsTables(w: World, project: Id, i: Id, c: Calls)
    requires TablesOk(w) && HasInstance(w.instances, project, i)
    ensures var bare := TearDown(w, project, i, c);
      && TablesOk(bare) && bare.instances == w.instances && bare.tasks == w.tasks && bare.mq == w.mq
      && bare.used == w.used && bare.ipam == w.ipam
      && (forall v :: v in bare.volumes ==> bare.volumes[v].instance != Some(i))
      && (forall f :: f in bare.fips ==> bare.fips[f].instance != Some(i))
      && ClearOfInstance(bare.fips, i) == bare.fips
      && FipsOk(bare.fips, w.instances - {i})
  {
    var bare := TearDown(w, project, i, c);
    ClearKeeps(w.fips, w.instances, project, i);
    forall v | v in bare.volumes
      ensures VolumeRowSound(bare.volumes[v], w.instances) && bare.volumes[v].instance != Some(i)
    {
      assert VolumeRowSound(w.volumes[v], w.instances);
    }
  }

  /** Neither restricting foreign key can stop the final delete: the teardown has emptied both. */
  lemma DeleteIsNeverBlocked(w: World, project: Id, i: Id, c: Calls)
    requires TablesOk(w) && HasInstance(w.instances, project, i)
    ensures var bare := TearDown(w, project, i, c); !DeleteBlocked(bare.volumes, ClearOfInstance(bare.fips, i), i)
  {
    TearDownKeepsTables(w, project, i, c);
  }

  lemma DeletionKeepsTables(w: World, i: Id)
    requires TablesOk(w) && i in w.instances
    requires FipsOk(w.fips, w.instances - {i})
    requires forall v :: v in w.volumes ==> w.volumes[v].instance != Some(i)
    ensures Agreement(Release(w.ipam, i), w.instances - {i})
    ensures VolumeRowsSound(w.volumes, w.instances - {i})
  {
    ReleaseKeepsAgreement(w.ipam, w.instances, i);
    forall v | v in w.volumes ensures VolumeRowSound(w.volumes[v], w.instances - {i}) {
      assert VolumeRowSound(w.volumes[v], w.instances);
    }
  }

  lemma ForgettingCloses(tasks: Tasks, project: Id, t: Id, i: Id)
    requires HasTask(tasks, project, t)
    ensures TaskClosed(tasks, ForgetInstance(SetTask(tasks, project, t, Succeeded), i), t, true)
  {
  }

  /** The transaction that ends a destroy, on a torn-down instance. */
  lemma FinalizeSettles(w: World, project: Id, t: Id, i: Id)
    requires TablesOk(w) && HasInstance(w.instances, project, i) && HasTask(w.tasks, project, t)
    requires FipsOk(w.fips, w.instances - {i}) && ClearOfInstance(w.fips, i) == w.fips
    requires forall v :: v in w.volumes ==> w.volumes[v].instance != Some(i)
    requires forall f :: f in w.fips ==> w.fips[f].instance != Some(i)
    ensures var (w', ok) := FinalizeInstanceDestroy(w, project, t, i);
      && ok && TablesOk(w') && w'.instances == w.instances - {i}
      && TaskClosed(w.tasks, w'.tasks, t, true)
      && w'.mq == w.mq && w'.used == w.used && w'.ipam.networks == w.ipam.networks
  {
    DeletionKeepsTables(w, i);
    ForgettingCloses(w.tasks, project, t, i);
    assert !DeleteBlocked(w.volumes, ClearOfInstance(w.fips, i), i);
    var w' := FinalizeInstanceDestroy(w, project, t, i).0;
    assert w'.instances == w.instances - {i} && w'.ipam == Release(w.ipam, i) && w'.fips == w.fips;
    assert w'.tasks == ForgetInstance(SetTask(w.tasks, project, t, Succeeded), i);
  }

  /** A destroy that could not delete the domain: the instance stays, in error, with nothing attached. */
  lemma FailedDestroySettles(w: World, m: TaskMessage, c: Calls)
    requires TablesOk(w) && HasTask(w.tasks, m.project, m.task) && m.kind.InstanceDestroy? && m.instance.Some?
    requires HasInstance(w.instances, m.project, m.instance.value)
    requires var i := m.instance.value;
      !DeleteVm(TearDown(w, m.project, i, c).domains, Sanitized(w.instances[i].name), c.deletion).1
    ensures var (w', ok) := FinishDestroy(w, m, c); !ok && Settled(w, w', m, ok)
  {
    var i := m.instance.value;
    var bare := TearDown(w, m.project, i, c);
    TearDownKeepsTables(w, m.project, i, c);
    SetStateKeepsTables(bare, m.project, i, Errored);
    SetStateSettles(w.instances, m, Errored);
    SetTaskCloses(w.tasks, m.project, m.task, false);
    var w' := FinishDestroy(w, m, c).0;
    assert w'.instances == SetState(w.instances, m.project, i, Errored);
    assert w'.tasks == SetTask(w.tasks, m.project, m.task, Failed);
    assert w'.fips == bare.fips && w'.volumes == bare.volumes && w'.ipam == bare.ipam;
  }

  lemma DestroyIsFinalize(w: World, m: TaskMessage, c: Calls)
    requires m.instance.Some? && HasInstance(w.instances, m.project, m.instance.value)
    requires var i := m.instance.value;
      DeleteVm(TearDown(w, m.project, i, c).domains, Sanitized(w.instances[i].name), c.deletion).1
    ensures var i := m.instance.value;
      var bare := TearDown(w, m.project, i, c);
      FinishDestroy(w, m, c) == FinalizeInstanceDestroy(
        bare.(domains := DeleteVm(bare.domains, Sanitized(w.instances[i].name), c.deletion).0,
              instances := SetState(bare.instances, m.project, i, Deleting)), m.project, m.task, i)
  {
  }

  /** A destroy that deleted the domain also deletes the row: the final transaction cannot fail. */
  lemma FullDestroySettles(w: World, m: TaskMessage, c: Calls)
    requires TablesOk(w) && HasTask(w.tasks, m.project, m.task) && m.kind.InstanceDestroy? && m.instance.Some?
    requires HasInstance(w.instances, m.project, m.instance.value)
    requires var i := m.instance.value;
      DeleteVm(TearDown(w, m.project, i, c).domains, Sanitized(w.instances[i].name), c.deletion).1
    ensures var (w', ok) := FinishDestroy(w, m, c);
      ok && Settled(w, w', m, ok) && w'.instances == w.instances - {m.instance.value}
  {
    var i := m.instance.value;
    var bare := TearDown(w, m.project, i, c);
    var domains := DeleteVm(bare.domains, Sanitized(w.instances[i].name), c.deletion).0;
    var instances' := SetState(bare.instances, m.project, i, Deleting);
    var deleting := bare.(domains := domains, instances := instances');
    TearDownKeepsTables(w, m.project, i, c);
    DestroyIsFinalize(w, m, c);
    hide FinishDestroy, TearDown, FinalizeInstanceDestroy, DeleteVm, Agreement, FipsOk, VolumeRowsSound;
    SetStateKeepsTables(bare, m.project, i, Deleting);
    assert instances' - {i} == w.instances - {i};
    FinalizeSettles(deleting, m.project, m.task, i);
  }

  lemma DestroySettles(w: World, m: TaskMessage, c: Calls)
    requires TablesOk(w) && HasTask(w.tasks, m.project, m.task) && m.kind.InstanceDestroy? && m.instance.Some?
    requires m.instance.value in w.instances ==> w.instances[m.instance.value].project == m.project
    ensures var (w', ok) := FinishDestroy(w, m, c); Settled(w, w', m, ok)
  {
    var i := m.instance.value;
    if !HasInstance(w.instances, m.project, i) {
      CloseSettles(w, w, m);
    } else if DeleteVm(TearDown(w, m.project, i, c).domains, Sanitized(w.instances[i].name), c.deletion).1 {
      FullDestroySettles(w, m, c);
    } else {
      FailedDestroySettles(w, m, c);
    }
  }

  // ---- The other handlers --------------------------------------------------------------------------------------------------------

  lemma FinishTaskSettles(w: World, m: TaskMessage, c: Calls)
    requires TablesOk(w) && HasTask(w.tasks, m.project, m.task) && Proper(m)
    requires m.instance.Some? && m.instance.value in w.instances ==> w.instances[m.instance.value].project == m.project
    ensures var (w', ok) := FinishTask(w, m, c); Settled(w, w', m, ok)
  {
    match m.kind
    case InstanceDestroy => DestroySettles(w, m, c);
    case InstanceCreate => CreateSettles(w, m, c);
    case InstanceStart => LifecycleSettles(w, m, c);
    case InstanceStop => LifecycleSettles(w, m, c);
    case InstanceReboot => LifecycleSettles(w, m, c);
    case SnapshotCreate => SnapshotCreateSettles(w, m, c);
    case SnapshotRevert => SnapshotRevertSettles(w, m, c);
    case FipAssociate => AssociateSettles(w, m, c);
    case FipDisassociate => DisassociateSettles(w, m, c);
  }

  lemma AssociateSettles(w: World, m: TaskMessage, c: Calls)
    requires TablesOk(w) && HasTask(w.tasks, m.project, m.task) && Proper(m) && m.kind.FipAssociate?
    ensures var (w', ok) := FinishAssociate(w, m, c); Settled(w, w', m, ok)
  {
    var f := m.fip.value;
    if IsActiveOf(w.fips, m.project, f) && w.fips[f].instance == m.instance && w.fips[f].priv.Some? {
      var (rules, ok) := Associate(w.rules, BindingOf(w.fips[f]), c.faults);
      var w' := w.(rules := rules);
      CloseSettles(w, w', m);
      assert FinishAssociate(w, m, c) == if ok then EndTask(w', m) else FailTask(w', m);
    } else {
      CloseSettles(w, w, m);
      assert FinishAssociate(w, m, c) == FailTask(w, m);
    }
  }

  lemma DisassociateSettles(w: World, m: TaskMessage, c: Calls)
    requires TablesOk(w) && HasTask(w.tasks, m.project, m.task) && Proper(m) && m.kind.FipDisassociate?
    ensures var (w', ok) := FinishDisassociate(w, m, c); Settled(w, w', m, ok)
  {
    CloseSettles(w, w.(rules := Disassociate(w.rules, Binding(m.pub.value, m.priv.value), c.faults)), m);
  }

  lemma CreateSettles(w: World, m: TaskMessage, c: Calls)
    requires TablesOk(w) && HasTask(w.tasks, m.project, m.task) && m.instance.Some? && m.kind.InstanceCreate?
    requires m.instance.value in w.instances ==> w.instances[m.instance.value].project == m.project
    ensures var (w', ok) := FinishCreate(w, m, c); Settled(w, w', m, ok)
  {
    var i := m.instance.value;
    if !HasInstance(w.instances, m.project, i) {
      CloseSettles(w, w, m);
    } else if !c.imageOk {
      EndWithSettles(w, w, m, false, Running, Errored);
    } else {
      var (domains, ok) := CreateVm(w.domains, Sanitized(w.instances[i].name), i, c.vm);
      EndWithSettles(w, w.(domains := domains), m, ok, Running, Errored);
    }
  }

  lemma LifecycleSettles(w: World, m: TaskMessage, c: Calls)
    requires TablesOk(w) && HasTask(w.tasks, m.project, m.task) && m.instance.Some?
    requires m.kind in {InstanceStart, InstanceStop, InstanceReboot}
    requires m.instance.value in w.instances ==> w.instances[m.instance.value].project == m.project
    ensures var (w', ok) := FinishLifecycle(w, m, c); Settled(w, w', m, ok)
  {
    var i := m.instance.value;
    if !HasInstance(w.instances, m.project, i) {
      CloseSettles(w, w, m);
    } else {
      var (domains, ok) := LifecycleCall(w.domains, m.kind, Sanitized(w.instances[i].name), c.callOk);
      EndWithSettles(w, w.(domains := domains), m, ok, WantState(m.kind), Errored);
    }
  }

  lemma SnapshotCreateSettles(w: World, m: TaskMessage, c: Calls)
    requires TablesOk(w) && HasTask(w.tasks, m.project, m.task) && Proper(m) && m.kind.SnapshotCreate?
    requires m.instance.value in w.instances ==> w.instances[m.instance.value].project == m.project
    ensures var (w', ok) := FinishSnapshotCreate(w, m, c); Settled(w, w', m, ok)
  {
    var i, snap, prior := m.instance.value, m.snapshot.value, m.prior.value;
    if !HasSnapshotOf(w.snapshots, m.project, i, snap) || !HasInstance(w.instances, m.project, i) {
      EndWithSettles(w, w.(snapshots := SetSnapshot(w.snapshots, m.project, snap, SnapError)), m, false, prior, prior);
    } else {
      var (domains, ok) := CreateInternalSnapshot(w.domains, Sanitized(w.instances[i].name), c.callOk);
      var status := if ok then SnapAvailable else SnapError;
      EndWithSettles(w, w.(domains := domains, snapshots := SetSnapshot(w.snapshots, m.project, snap, status)), m, ok, prior, prior);
    }
  }

  lemma SnapshotRevertSettles(w: World, m: TaskMessage, c: Calls)
    requires TablesOk(w) && HasTask(w.tasks, m.project, m.task) && Proper(m) && m.kind.SnapshotRevert?
    requires m.instance.value in w.instances ==> w.instances[m.instance.value].project == m.project
    ensures var (w', ok) := FinishSnapshotRevert(w, m, c); Settled(w, w', m, ok)
  {
    var i, snap, prior := m.instance.value, m.snapshot.value, m.prior.value;
    if !HasSnapshotOf(w.snapshots, m.project, i, snap) || !w.snapshots[snap].status.SnapAvailable?
       || !HasInstance(w.instances, m.project, i)
    {
      EndWithSettles(w, w, m, false, prior, prior);
    } else {
      var (domains, ok) := RevertToInternalSnapshot(
        w.domains, Sanitized(w.instances[i].name), w.snapshots[snap].domainWasRunning, prior.Running?, c.revert);
      EndWithSettles(w, w.(domains := domains), m, ok, prior, prior);
    }
  }

  // ---- Finishing a delivery -----------------------------------------------------------------------------------------------------------

  lemma FinishKeepsNoOrphans(q: Mq, a: map<Id, Instance>, b: map<Id, Instance>, ok: bool, pubOk: bool)
    requires NoOrphans(a, q) && q.inflight.Some? && InstancesSettled(a, b, q.inflight.value.msg)
    ensures NoOrphans(b, FinalizeDelivery(q, q.inflight.value, ok, pubOk))
  {
    var m := q.inflight.value.msg;
    var q' := FinalizeDelivery(q, q.inflight.value, ok, pubOk);
    FinalizeKeeps(q, q.inflight.value, ok, pubOk);
    hide FinalizeDelivery;
    forall i | i in b
      ensures !b[i].state.Deleting?
      ensures b[i].state.Creating? ==> AwaitsCreate(q', i)
      ensures b[i].state.Snapshotting? ==> AwaitsSnapshot(q', i)
    {
      if b[i].state.Creating? || b[i].state.Snapshotting? {
        assert m.instance != Some(i) || !TouchesInstance(m);
        WaitsForAnother(q, q', i, m);
      }
    }
  }

  lemma WaitsForAnother(q: Mq, q': Mq, i: Id, m: TaskMessage)
    requires q.inflight.Some? && q.inflight.value.msg == m && (m.instance != Some(i) || !TouchesInstance(m))
    requires Bag(q.queue) <= Undelivered(q')
    ensures AwaitsCreate(q, i) ==> AwaitsCreate(q', i)
    ensures AwaitsSnapshot(q, i) ==> AwaitsSnapshot(q', i)
  {
  }

  /** In a reachable state the handler of the held message runs, and ends by closing its task. */
  lemma HeldTaskSettles(w: World, c: Calls)
    requires Core(w) && w.mq.inflight.Some?
    ensures var m := w.mq.inflight.value.msg; var (w', ok) := FinishTask(w, m, c);
      Settled(w, w', m, ok) && Proper(m) && Grounded(m, w.tasks, w.instances, w.used)
  {
    HeldIsNotDone(w.mq, w.tasks, w.instances, w.used);
    FinishTaskSettles(w, w.mq.inflight.value.msg, c);
  }

  /** Which handler a message runs. */
  lemma HandlerOf(w: World, m: TaskMessage, c: Calls)
    requires Dispatchable(m) && HasTask(w.tasks, m.project, m.task)
    ensures m.kind.InstanceDestroy? ==> FinishTask(w, m, c) == FinishDestroy(w, m, c)
    ensures m.kind.InstanceCreate? ==> FinishTask(w, m, c) == FinishCreate(w, m, c)
    ensures m.kind.SnapshotCreate? ==> FinishTask(w, m, c) == FinishSnapshotCreate(w, m, c)
    ensures m.kind.SnapshotRevert? ==> FinishTask(w, m, c) == FinishSnapshotRevert(w, m, c)
    ensures m.kind.FipAssociate? ==> FinishTask(w, m, c) == FinishAssociate(w, m, c)
    ensures m.kind.FipDisassociate? ==> FinishTask(w, m, c) == FinishDisassociate(w, m, c) && FinishTask(w, m, c).1
  {
    hide FinishDestroy, FinishCreate, FinishSnapshotCreate, FinishSnapshotRevert, FinishAssociate;
  }

  lemma FinishKeepsCore(w: World, c: Calls)
    requires Core(w)
    ensures Core(FinishDelivery(w, c))
  {
    if w.mq.inflight.Some? {
      var m := w.mq.inflight.value.msg;
      var (w', ok) := FinishTask(w, m, c);
      HeldTaskSettles(w, c);
      FinishKeepsTracked(w.mq, w.tasks, w.instances, w.used, w'.tasks, w'.instances, ok, c.pubOk);
      FinishKeepsNoOrphans(w.mq, w.instances, w'.instances, ok, c.pubOk);
    }
  }

  lemma ReceiveKeepsCore(w: World)
    requires Core(w)
    ensures Core(ReceiveTask(w))
  {
    var w' := ReceiveTask(w);
    ReceiveKeepsTracked(w);
    ReceiveShape(w);
    UndeliveredKeepsNoOrphans(w.instances, w.mq, w'.mq);
  }

  lemma ReceiveShape(w: World)
    ensures var w' := ReceiveTask(w);
      && w' == w.(mq := w'.mq, tasks := w'.tasks)
      && Undelivered(w'.mq) == Undelivered(w.mq)
  {
    hide Undelivered, Receive, SetTask, Begins;
    ReceiveEffect(w.mq);
  }

  /** Nothing is orphaned while undelivered messages stay undelivered. */
  lemma UndeliveredKeepsNoOrphans(instances: map<Id, Instance>, q: Mq, q': Mq)
    requires NoOrphans(instances, q) && Undelivered(q) <= Undelivered(q')
    ensures NoOrphans(instances, q')
  {
  }
}
