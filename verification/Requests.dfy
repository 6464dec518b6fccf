/** API requests and background passes keep the invariant; hence every run does. */
module Requests {
  import opened Wrappers
  import opened Text
  import opened NatRules
  import opened Model
  import opened Messages
  import opened Ipam
  import opened FipRows
  import opened Disks
  import opened Control
  import opened System
  import opened Tracking
  import opened Invariants

  // ---- Requests that enqueue ---------------------------------------------------------------------

  lemma EnqueueGrows(w: World, m: TaskMessage, pubOk: bool)
    ensures var q' := Enqueue(w, m, pubOk).mq;
      Undelivered(w.mq) <= Undelivered(q') && (pubOk ==> m in Undelivered(q'))
  {
    PublishEffect(w.mq, m);
  }

  lemma EnqueueKeepsCore(x: World, m: TaskMessage, pubOk: bool, more: set<Id>)
    requires Tracked(x.mq, x.tasks, x.instances, x.used) && Enqueueable(x.mq, x.instances, m, x.used, more)
    requires TablesOk(x) && x.ipam.networks.Keys <= more
    requires NoOrphans(x.instances, Enqueue(x, m, pubOk).mq)
    ensures Core(Enqueue(x, m, pubOk).(used := more))
  {
    EnqueueKeepsTracked(x, m, pubOk, more);
  }

  /** Moving an instance into a waiting state is safe when its message goes out in the same request. */
  lemma WaitingWithMessage(w: World, project: Id, i: Id, state: InstanceState, m: TaskMessage)
    requires NoOrphans(w.instances, w.mq) && Proper(m) && m.instance == Some(i)
    requires state.Snapshotting? && IsSnapshotKind(m.kind)
    ensures NoOrphans(SetState(w.instances, project, i, state), PublishTask(w.mq, m))
  {
    var q' := PublishTask(w.mq, m);
    PublishEffect(w.mq, m);
    UndeliveredKeepsNoOrphans(w.instances, w.mq, q');
    assert m in Undelivered(q');
    assert AwaitsSnapshot(q', i);
  }

  lemma MoreUsedKeepsCore(w: World, more: set<Id>)
    requires Core(w) && w.used <= more
    ensures Core(w.(used := more))
  {
  }

  /** A request that changes at most floating IP rows before it enqueues. */
  lemma PlainEnqueueKeepsCore(w: World, fips: map<Id, FloatingIp>, m: TaskMessage, pubOk: bool)
    requires Core(w) && m.task !in w.used && Proper(m) && !m.kind.InstanceCreate? && FipsOk(fips, w.instances)
    requires m.instance.Some? ==> HasInstance(w.instances, m.project, m.instance.value)
    ensures Core(Enqueue(w.(fips := fips), m, pubOk).(used := w.used + {m.task}))
  {
    var x := w.(fips := fips);
    EnqueueGrows(x, m, pubOk);
    UndeliveredKeepsNoOrphans(w.instances, w.mq, Enqueue(x, m, pubOk).mq);
    EnqueueKeepsCore(x, m, pubOk, w.used + {m.task});
  }

  lemma ActionKeepsCore(w: World, project: Id, i: Id, a: Option<Action>, t: Id, pubOk: bool)
    requires Core(w) && t !in w.used
    ensures Core(RequestParsed(w, project, i, a, t, pubOk).0.(used := w.used + {t}))
  {
    if RequestParsed(w, project, i, a, t, pubOk).0 == w {
      MoreUsedKeepsCore(w, w.used + {t});
    } else {
      PlainEnqueueKeepsCore(w, w.fips, InstanceMessage(t, TaskKindFor(a.value), project, i), pubOk);
    }
  }

  lemma SnapshotCreateKeepsCore(w: World, project: Id, i: Id, name: string, snap: Id, t: Id, pubOk: bool)
    requires Core(w) && t !in w.used
    ensures Core(RequestSnapshotCreate(w, project, i, name, snap, t, pubOk).0.(used := w.used + {snap, t}))
  {
    hide Core, Enqueue;
    var more := w.used + {snap, t};
    if HasInstance(w.instances, project, i) && CanSnapshot(w.instances[i].state) {
      var m := SnapshotMessage(t, SnapshotCreate, project, i, snap, w.instances[i].state);
      SnapshotRequestKeepsCore(w, w.snapshots[snap := Snapshot(project, i, TrimSpace(name), if pubOk then SnapCreating else SnapError,
                                                               w.instances[i].state.Running?)], m, pubOk, more);
    }
    MoreUsedKeepsCore(w, more);
  }

  lemma SnapshotRevertKeepsCore(w: World, project: Id, i: Id, snap: Id, t: Id, pubOk: bool)
    requires Core(w) && t !in w.used
    ensures Core(RequestSnapshotRevert(w, project, i, snap, t, pubOk).0.(used := w.used + {t}))
  {
    hide Core, Enqueue;
    var more := w.used + {t};
    if HasInstance(w.instances, project, i) && CanSnapshot(w.instances[i].state) {
      var m := SnapshotMessage(t, SnapshotRevert, project, i, snap, w.instances[i].state);
      SnapshotRequestKeepsCore(w, w.snapshots, m, pubOk, more);
    }
    MoreUsedKeepsCore(w, more);
  }

  /** The instances while a snapshot operation is being requested. */
  function Begun(instances: map<Id, Instance>, m: TaskMessage, pubOk: bool): map<Id, Instance>
    requires m.instance.Some?
  {
    if pubOk then SetState(instances, m.project, m.instance.value, Snapshotting) else instances
  }

  lemma BegunKeepsTables(w: World, m: TaskMessage, pubOk: bool)
    requires Core(w) && m.instance.Some?
    ensures var instances := Begun(w.instances, m, pubOk);
      && Tracked(w.mq, w.tasks, instances, w.used)
      && Agreement(w.ipam, instances) && FipsOk(w.fips, instances) && VolumeRowsSound(w.volumes, instances)
  {
    var instances := Begun(w.instances, m, pubOk);
    assert w.instances.Keys <= w.used;
    hide Tracked, Agreement, FipsOk, VolumeRowsSound, NoOrphans;
    SetStateKeepsTables(w, m.project, m.instance.value, Snapshotting);
    InstancesMayChange(w.mq, w.tasks, w.instances, instances, w.used, w.used);
  }

  lemma BegunIsNoOrphan(w: World, m: TaskMessage, pubOk: bool)
    requires NoOrphans(w.instances, w.mq) && Proper(m) && IsSnapshotKind(m.kind)
    ensures m.instance.Some?
    ensures NoOrphans(Begun(w.instances, m, pubOk), if pubOk then PublishTask(w.mq, m) else w.mq)
  {
    hide NoOrphans;
    if pubOk {
      WaitingWithMessage(w, m.project, m.instance.value, Snapshotting, m);
    }
  }

  lemma SnapshotRequestKeepsCore(w: World, snapshots: map<Id, Snapshot>, m: TaskMessage, pubOk: bool, more: set<Id>)
    requires Core(w) && m.task !in w.used && m.task in more && w.used <= more
    requires Proper(m) && IsSnapshotKind(m.kind) && HasInstance(w.instances, m.project, m.instance.value)
    ensures Core(Enqueue(w.(snapshots := snapshots, instances := Begun(w.instances, m, pubOk)), m, pubOk).(used := more))
  {
    var x := w.(snapshots := snapshots, instances := Begun(w.instances, m, pubOk));
    assert m.instance.value in x.instances && x.instances[m.instance.value].project == m.project;
    assert m.instance.value in w.used;
    BegunKeepsTables(w, m, pubOk);
    BegunIsNoOrphan(w, m, pubOk);
    hide Tracked, Agreement, FipsOk, VolumeRowsSound, NoOrphans, Begun, Proper;
    assert Enqueueable(x.mq, x.instances, m, x.used, more);
    EnqueueKeepsCore(x, m, pubOk, more);
  }

  lemma AssociateKeepsCore(w: World, project: Id, f: Id, i: Id, t: Id, pubOk: bool)
    requires Core(w) && t !in w.used
    ensures Core(RequestAssociate(w, project, f, i, t, pubOk).0.(used := w.used + {t}))
  {
    var (fips, reply) := TryAssociate(w.fips, w.instances, project, f, i);
    if reply.Refused? {
      MoreUsedKeepsCore(w, w.used + {t});
    } else {
      var m := AssociateMessage(t, project, i, f, Binding(w.fips[f].pub, w.instances[i].ipv4.value));
      AssociateKeeps(w.fips, w.instances, project, f, i);
      RollbackUndoesAssociate(w.fips, w.instances, project, f, i);
      PlainEnqueueKeepsCore(w, if pubOk then fips else Rollback(fips, project, f), m, pubOk);
    }
  }

  lemma DisassociateKeepsCore(w: World, project: Id, f: Id, t: Id, pubOk: bool)
    requires Core(w) && t !in w.used
    ensures Core(RequestDisassociate(w, project, f, t, pubOk).0.(used := w.used + {t}))
  {
    var (fips, taken) := TakeDisassociate(w.fips, project, f);
    if taken.None? {
      MoreUsedKeepsCore(w, w.used + {t});
    } else {
      DisassociateKeeps(w.fips, w.instances, project, f);
      PlainEnqueueKeepsCore(w, fips, DisassociateMessage(t, project, f, taken.value), pubOk);
    }
  }

  // ---- Creating an instance -------------------------------------------------------------------------

  lemma NewRowAdded(instances: map<Id, Instance>, i: Id, row: Instance, fips: map<Id, FloatingIp>, volumes: map<Id, Volume>)
    requires i !in instances && FipsOk(fips, instances) && VolumeRowsSound(volumes, instances)
    ensures FipsOk(fips, instances[i := row]) && VolumeRowsSound(volumes, instances[i := row])
  {
  }

  lemma NewRowShape(w: World, r: CreateRequest, state: InstanceState)
    requires r.network in w.ipam.networks && CreateInstanceWithIpam(w.ipam, w.instances, r).Committed?
    ensures var tx := CreateInstanceWithIpam(w.ipam, w.instances, r);
      var instances := SetState(tx.instances, r.project, r.instance, state);
      && tx.t.networks == w.ipam.networks && r.instance !in w.instances && r.instance in instances
      && instances[r.instance].project == r.project && instances[r.instance].state == state
      && instances == w.instances[r.instance := instances[r.instance]]
      && SameExceptState(tx.instances, instances)
  {
    CreateAddsOneRow(w.ipam, w.instances, r);
    hide CreateInstanceWithIpam, IsLeast, NameTaken, SetState, SameExceptState;
    var tx := CreateInstanceWithIpam(w.ipam, w.instances, r);
    SetStateOfNewRow(w.instances, r.instance, tx.instances[r.instance], state);
  }

  lemma SetStateOfNewRow(a: map<Id, Instance>, i: Id, row: Instance, state: InstanceState)
    requires i !in a
    ensures var b := SetState(a[i := row], row.project, i, state);
      b == a[i := row.(state := state)] && SameExceptState(a[i := row], b)
  {
  }

  /** The tables right after a create transaction, with the row in its first or, if the publish failed, its error state. */
  lemma NewRowKeepsTables(w: World, r: CreateRequest, state: InstanceState)
    requires Core(w) && r.network in w.ipam.networks && r.instance !in w.used
    requires CreateInstanceWithIpam(w.ipam, w.instances, r).Committed?
    ensures var tx := CreateInstanceWithIpam(w.ipam, w.instances, r);
      var instances := SetState(tx.instances, r.project, r.instance, state);
      && TablesOk(w.(ipam := tx.t, instances := instances))
      && Tracked(w.mq, w.tasks, instances, w.used + {r.instance})
  {
    var tx := CreateInstanceWithIpam(w.ipam, w.instances, r);
    var instances := SetState(tx.instances, r.project, r.instance, state);
    NewRowShape(w, r, state);
    NewRowAdded(w.instances, r.instance, instances[r.instance], w.fips, w.volumes);
    CreateKeepsAgreement(w.ipam, w.instances, r);
    StatesDoNotMatter(tx.t, tx.instances, instances);
    InstancesMayChange(w.mq, w.tasks, w.instances, instances, w.used, w.used + {r.instance});
  }

  lemma NewRowIsNoOrphan(w: World, i: Id, row: Instance, m: TaskMessage, pubOk: bool)
    requires NoOrphans(w.instances, w.mq) && m.instance == Some(i) && m.kind.InstanceCreate?
    requires row.state == if pubOk then Creating else Errored
    ensures NoOrphans(w.instances[i := row], if pubOk then PublishTask(w.mq, m) else w.mq)
  {
    var q' := PublishTask(w.mq, m);
    PublishEffect(w.mq, m);
    UndeliveredKeepsNoOrphans(w.instances, w.mq, q');
    assert m in Undelivered(q');
    assert AwaitsCreate(q', i);
  }

  lemma CommittedCreateKeepsCore(w: World, r: CreateRequest, pubOk: bool, instances: map<Id, Instance>)
    requires Core(w) && r.network in w.ipam.networks && {r.instance, r.task} !! w.used && r.instance != r.task
    requires CreateInstanceWithIpam(w.ipam, w.instances, r).Committed?
    requires instances == SetState(CreateInstanceWithIpam(w.ipam, w.instances, r).instances, r.project, r.instance,
                                   if pubOk then Creating else Errored)
    ensures var x := w.(ipam := CreateInstanceWithIpam(w.ipam, w.instances, r).t, instances := instances);
      Core(Enqueue(x, InstanceMessage(r.task, InstanceCreate, r.project, r.instance), pubOk).(used := w.used + {r.instance, r.task}))
  {
    var state := if pubOk then Creating else Errored;
    var more := w.used + {r.instance, r.task};
    var m := InstanceMessage(r.task, InstanceCreate, r.project, r.instance);
    var x := w.(ipam := CreateInstanceWithIpam(w.ipam, w.instances, r).t, instances := instances, used := w.used + {r.instance});
    NewRowShape(w, r, state);
    NewRowKeepsTables(w, r, state);
    NewRowIsNoOrphan(w, r.instance, instances[r.instance], m, pubOk);
    EnqueueKeepsCore(x, m, pubOk, more);
  }

  /** A create request either changes nothing or commits and enqueues. */
  lemma CreateRequestCases(w: World, r: CreateRequest, pubOk: bool)
    ensures RequestCreate(w, r, pubOk).0 == w ||
      (&& r.network in w.ipam.networks && CreateInstanceWithIpam(w.ipam, w.instances, r).Committed?
       && var tx := CreateInstanceWithIpam(w.ipam, w.instances, r);
          var instances := SetState(tx.instances, r.project, r.instance, if pubOk then Creating else Errored);
          RequestCreate(w, r, pubOk).0
          == Enqueue(w.(ipam := tx.t, instances := instances), InstanceMessage(r.task, InstanceCreate, r.project, r.instance), pubOk))
  {
    if r.network in w.ipam.networks && CreateInstanceWithIpam(w.ipam, w.instances, r).Committed? {
      var tx := CreateInstanceWithIpam(w.ipam, w.instances, r);
      CreateAddsOneRow(w.ipam, w.instances, r);
      assert SetState(tx.instances, r.project, r.instance, Creating) == tx.instances;
    }
  }

  lemma CreateRequestKeepsCore(w: World, r: CreateRequest, pubOk: bool)
    requires Core(w) && {r.instance, r.task} !! w.used && r.instance != r.task
    ensures Core(RequestCreate(w, r, pubOk).0.(used := w.used + {r.instance, r.task}))
  {
    CreateRequestCases(w, r, pubOk);
    if RequestCreate(w, r, pubOk).0 == w {
      MoreUsedKeepsCore(w, w.used + {r.instance, r.task});
    } else {
      var tx := CreateInstanceWithIpam(w.ipam, w.instances, r);
      CommittedCreateKeepsCore(w, r, pubOk,
        SetState(tx.instances, r.project, r.instance, if pubOk then Creating else Errored));
    }
  }

  // ---- Requests without a task ------------------------------------------------------------------------

  lemma NetworkKeepsCore(w: World, id: Id, n: Network)
    requires Core(w) && id !in w.used
    ensures Core(w.(ipam := CreateNetwork(w.ipam, id, n).0, used := w.used + {id}))
  {
    CreateNetworkKeepsAgreement(w.ipam, w.instances, id, n);
    InstancesMayChange(w.mq, w.tasks, w.instances, w.instances, w.used, w.used + {id});
  }

  lemma AllocateKeepsCore(w: World, project: Id)
    requires Core(w)
    ensures Core(w.(fips := Allocate(w.fips, project).0))
  {
    AllocateKeeps(w.fips, w.instances, project);
  }

  lemma VolumesKeepCore(w: World, volumes: map<Id, Volume>, domains: Domains, used: set<Id>)
    requires Core(w) && w.used <= used && VolumeRowsSound(volumes, w.instances)
    ensures Core(w.(volumes := volumes, domains := domains, used := used))
  {
  }

  lemma CreateVolumeKeepsRows(volumes: map<Id, Volume>, instances: map<Id, Instance>, p: Id, v: Id, name: string, ok: bool)
    requires VolumeRowsSound(volumes, instances)
    ensures VolumeRowsSound(CreateVolume(volumes, p, v, name, ok).0, instances)
    ensures VolumeRowsSound(DeleteVolume(volumes, p, v).0, instances)
  {
  }

  lemma AttachKeepsRows(volumes: map<Id, Volume>, instances: map<Id, Instance>, domains: Domains, p: Id, i: Id, v: Id, c: AttachCalls)
    requires VolumeRowsSound(volumes, instances)
    ensures VolumeRowsSound(Attach(volumes, domains, instances, p, i, v, c).0, instances)
  {
  }

  lemma DetachKeepsRows(volumes: map<Id, Volume>, instances: map<Id, Instance>, domains: Domains, p: Id, i: Id, v: Id, ok: bool)
    requires VolumeRowsSound(volumes, instances)
    ensures VolumeRowsSound(Detach(volumes, domains, instances, p, i, v, ok).0, instances)
  {
  }

  // ---- Background passes ---------------------------------------------------------------------------------

  /** A pass that leaves waiting states alone, or ends them, makes no orphan. */
  lemma StatesKeepCore(w: World, instances: map<Id, Instance>)
    requires Core(w) && SameExceptState(w.instances, instances)
    requires forall i :: i in instances ==> instances[i].state == w.instances[i].state || FinalState(instances[i].state)
    ensures Core(w.(instances := instances))
  {
    StatesDoNotMatter(w.ipam, w.instances, instances);
    RowsIgnoreStates(w.fips, w.instances, instances);
    InstancesMayChange(w.mq, w.tasks, w.instances, instances, w.used, w.used);
    forall v | v in w.volumes ensures VolumeRowSound(w.volumes[v], instances) {
      assert VolumeRowSound(w.volumes[v], w.instances);
    }
    forall i | i in instances
      ensures !instances[i].state.Deleting?
      ensures instances[i].state.Creating? ==> AwaitsCreate(w.mq, i)
      ensures instances[i].state.Snapshotting? ==> AwaitsSnapshot(w.mq, i)
    {
      assert i in w.instances;
    }
  }

  lemma SyncKeepsCore(w: World, unseen: set<string>)
    requires Core(w)
    ensures Core(w.(instances := SyncInstances(w.instances, w.domains - unseen)))
  {
    StatesKeepCore(w, SyncInstances(w.instances, w.domains - unseen));
  }

  lemma SweepKeepsCore(w: World, stale: set<Id>)
    requires Core(w)
    ensures Core(w.(tasks := SweepTasks(w.tasks, stale), instances := SweepInstances(w.instances, w.tasks, stale)))
  {
    SweepKeepsTracked(w, stale);
    StatesKeepCore(w, SweepInstances(w.instances, w.tasks, stale));
  }

  // ---- Every step, every run ----------------------------------------------------------------------------------

  lemma VolumeStepKeepsCore(w: World, s: Step)
    requires Core(w) && (s.NewVolume? || s.DropVolume? || s.AttachVolume? || s.DetachVolume?)
    ensures Core(Apply(w, s))
  {
    var w' := Effect(w, s);
    match s {
      case NewVolume(p, v, name, fileOk) => CreateVolumeKeepsRows(w.volumes, w.instances, p, v, name, fileOk);
      case DropVolume(p, v) => CreateVolumeKeepsRows(w.volumes, w.instances, p, v, "", true);
      case AttachVolume(p, i, v, c) => AttachKeepsRows(w.volumes, w.instances, w.domains, p, i, v, c);
      case DetachVolume(p, i, v, callOk) => DetachKeepsRows(w.volumes, w.instances, w.domains, p, i, v, callOk);
    }
    assert w' == w.(volumes := w'.volumes, domains := w'.domains);
    VolumesKeepCore(w, w'.volumes, w'.domains, w.used + NewIds(s));
    assert w.used + {} == w.used;
  }

  lemma RequestStepKeepsCore(w: World, s: Step)
    requires Core(w) && Enabled(w, s)
    requires s.NewNetwork? || s.NewInstance? || s.InstanceAction? || s.TakeSnapshot? || s.RevertSnapshot?
             || s.AssociateFip? || s.DisassociateFip?
    ensures Core(Apply(w, s))
  {
    hide Core, RequestCreate, RequestParsed, RequestSnapshotCreate, RequestSnapshotRevert, RequestAssociate, RequestDisassociate, CreateNetwork;
    match s
    case NewNetwork(id, n) => NetworkKeepsCore(w, id, n);
    case NewInstance(r, pubOk) => CreateRequestKeepsCore(w, r, pubOk);
    case InstanceAction(p, i, action, t, pubOk) => ActionKeepsCore(w, p, i, ParseAction(action), t, pubOk);
    case TakeSnapshot(p, i, name, snap, t, pubOk) => SnapshotCreateKeepsCore(w, p, i, name, snap, t, pubOk);
    case RevertSnapshot(p, i, snap, t, pubOk) => SnapshotRevertKeepsCore(w, p, i, snap, t, pubOk);
    case AssociateFip(p, f, i, t, pubOk) => AssociateKeepsCore(w, p, f, i, t, pubOk);
    case DisassociateFip(p, f, t, pubOk) => DisassociateKeepsCore(w, p, f, t, pubOk);
  }

  lemma WorkerStepKeepsCore(w: World, s: Step)
    requires Core(w) && (s.ReceiveStep? || s.FinishStep?)
    ensures Core(Apply(w, s))
  {
    hide Core, FinishDelivery, ReceiveTask;
    if s.ReceiveStep? {
      ReceiveKeepsCore(w);
    } else {
      FinishKeepsCore(w, s.calls);
    }
  }

  lemma PassKeepsCore(w: World, s: Step)
    requires Core(w) && (s.AllocateFip? || s.SyncStep? || s.SweepStep?)
    ensures Core(Apply(w, s))
  {
    hide Core;
    match s
    case AllocateFip(p) => AllocateKeepsCore(w, p);
    case SyncStep(unseen) => SyncKeepsCore(w, unseen);
    case SweepStep(stale) => SweepKeepsCore(w, stale);
  }

  /** The invariant does not depend on the host's domains and rules. */
  lemma HostStepKeepsCore(w: World, s: Step)
    requires Core(w) && (s.ReconcileStep? || s.GuestPower?)
    ensures Core(Apply(w, s))
  {
    HostStepShape(w, s);
    var w' := Apply(w, s);
    hide *;
    CoreIgnoresHost(w, w'.domains, w'.rules);
  }

  lemma HostStepShape(w: World, s: Step)
    requires s.ReconcileStep? || s.GuestPower?
    ensures var w' := Apply(w, s); w' == w.(domains := w'.domains, rules := w'.rules)
  {
    hide NatRules.Reconcile;
  }

  lemma CoreIgnoresHost(w: World, domains: Domains, rules: seq<Rule>)
    requires Core(w)
    ensures Core(w.(domains := domains, rules := rules))
  {
  }

  lemma StepKeepsCore(w: World, s: Step)
    requires Core(w) && Enabled(w, s)
    ensures Core(Apply(w, s))
  {
    if s.NewVolume? || s.DropVolume? || s.AttachVolume? || s.DetachVolume? {
      VolumeStepKeepsCore(w, s);
    } else if s.ReceiveStep? || s.FinishStep? {
      WorkerStepKeepsCore(w, s);
    } else if s.AllocateFip? || s.SyncStep? || s.SweepStep? {
      PassKeepsCore(w, s);
    } else if s.ReconcileStep? || s.GuestPower? {
      HostStepKeepsCore(w, s);
    } else {
      RequestStepKeepsCore(w, s);
    }
  }

  /** The invariant holds after every run from an initial state. */
  lemma {:induction false} RunKeepsCore(w: World, steps: seq<Step>)
    requires Core(w) && Runs(w, steps)
    ensures Core(After(w, steps))
    decreases |steps|
  {
    if steps != [] {
      StepKeepsCore(w, steps[0]);
      RunKeepsCore(Apply(w, steps[0]), steps[1..]);
    }
  }
}
