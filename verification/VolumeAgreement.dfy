/** Volume rows and domain disks: exactly which steps keep them in agreement. */
module VolumeAgreement {
  import opened Wrappers
  import opened HostNames
  import opened NatRules
  import opened Model
  import opened Messages
  import opened Ipam
  import opened Disks
  import opened Control
  import opened System
  import opened Tracking
  import opened Invariants
  import opened Requests
  import FipRows

  type InstanceRows = map<Id, Instance>

  // ---- The one step that can break it ----------------------------------------------------------------

  /** The delivery in hand creates a live instance whose name a domain already has, and its calls will replace that domain. */
  predicate Reprovisions(w: World, c: Calls) {
    && w.mq.inflight.Some? && w.mq.inflight.value.msg.kind.InstanceCreate? && w.mq.inflight.value.msg.instance.Some?
    && var m := w.mq.inflight.value.msg; var i := m.instance.value;
    && HasInstance(w.instances, m.project, i) && c.imageOk && Replaces(w.domains, Sanitized(w.instances[i].name), c.vm)
  }

  /** No domain is replaced while volumes are attached to its instance. */
  predicate SparesAttached(w: World, s: Step) {
    s.FinishStep? && Reprovisions(w, s.calls) ==> AttachedVolumes(w.volumes, w.mq.inflight.value.msg.instance.value) == {}
  }

  /** Other domains stay; the named one loses its disks exactly when it is replaced. */
  lemma CreateVmEffect(domains: Domains, name: string, i: Id, k: VmCalls)
    ensures var domains' := CreateVm(domains, name, i, k).0;
      && (forall n :: n in domains && n != name ==> n in domains' && domains'[n] == domains[n])
      && (name in domains && !Replaces(domains, name, k) ==> name in domains' && domains'[name].disks == domains[name].disks)
      && (name in domains' && (name !in domains || Replaces(domains, name, k)) ==> domains'[name].disks == map['a' := RootDisk(i)])
  {
  }

  lemma CreateVmKeepsVolumes(volumes: Volumes, instances: InstanceRows, domains: Domains, i: Id, k: VmCalls)
    requires VolumesOk(volumes, instances, domains) && NamesDistinct(instances) && i in instances
    requires Replaces(domains, Sanitized(instances[i].name), k) ==> AttachedVolumes(volumes, i) == {}
    ensures VolumesOk(volumes, instances, CreateVm(domains, Sanitized(instances[i].name), i, k).0)
  {
    var name := Sanitized(instances[i].name);
    var domains' := CreateVm(domains, name, i, k).0;
    CreateVmEffect(domains, name, i, k);
    hide CreateVm;
    forall v | v in volumes ensures VolumeRowOk(v, volumes[v], instances, domains') {
      assert VolumeRowOk(v, volumes[v], instances, domains);
      assert v in AttachedVolumes(volumes, i) <==> volumes[v].instance == Some(i);
    }
  }

  lemma CreateVmLosesVolumes(volumes: Volumes, instances: InstanceRows, domains: Domains, i: Id, k: VmCalls)
    requires i in instances && Replaces(domains, Sanitized(instances[i].name), k) && AttachedVolumes(volumes, i) != {}
    ensures !VolumesOk(volumes, instances, CreateVm(domains, Sanitized(instances[i].name), i, k).0)
  {
    var name := Sanitized(instances[i].name);
    var domains' := CreateVm(domains, name, i, k).0;
    CreateVmEffect(domains, name, i, k);
    hide CreateVm;
    var v :| v in AttachedVolumes(volumes, i);
    assert !VolumeRowOk(v, volumes[v], instances, domains');
  }

  // ---- Handlers ---------------------------------------------------------------------------------------------

  /** Handlers that keep every domain's disks and at most change states. */
  ghost predicate OnlyStates(w: World, w': World) {
    w'.volumes == w.volumes && SameExceptState(w.instances, w'.instances) && SameDisks(w.domains, w'.domains)
  }

  ghost predicate Placed(w: World) {
    VolumesOk(w.volumes, w.instances, w.domains) && NamesDistinct(w.instances)
  }

  lemma OnlyStatesKeepsPlaced(w: World, w': World)
    requires Placed(w) && OnlyStates(w, w')
    ensures Placed(w')
  {
    RunningFlagDoesNotMatter(w.volumes, w.instances, w.domains, w'.domains);
    StatesDoNotMatterForVolumes(w.volumes, w.instances, w'.instances, w'.domains);
  }

  lemma EndWithOnlyStates(w: World, x: World, m: TaskMessage, ok: bool, good: InstanceState, bad: InstanceState)
    requires OnlyStates(w, x) && m.instance.Some?
    ensures OnlyStates(w, EndWith(x, m, ok, good, bad).0)
  {
  }

  lemma LifecycleOnlyStates(w: World, m: TaskMessage, c: Calls)
    requires m.instance.Some? && m.kind in {InstanceStart, InstanceStop, InstanceReboot}
    ensures OnlyStates(w, FinishLifecycle(w, m, c).0)
  {
    hide EndWith;
    var i := m.instance.value;
    if HasInstance(w.instances, m.project, i) {
      var (domains, ok) := LifecycleCall(w.domains, m.kind, Sanitized(w.instances[i].name), c.callOk);
      EndWithOnlyStates(w, w.(domains := domains), m, ok, WantState(m.kind), Errored);
    }
  }

  lemma SnapshotCreateOnlyStates(w: World, m: TaskMessage, c: Calls)
    requires m.instance.Some? && m.snapshot.Some? && m.prior.Some?
    ensures OnlyStates(w, FinishSnapshotCreate(w, m, c).0)
  {
    hide EndWith, SetSnapshot;
    var snap, prior := m.snapshot.value, m.prior.value;
    EndWithOnlyStates(w, w.(snapshots := SetSnapshot(w.snapshots, m.project, snap, SnapError)), m, false, prior, prior);
    EndWithOnlyStates(w, w.(snapshots := SetSnapshot(w.snapshots, m.project, snap, SnapAvailable)), m, true, prior, prior);
  }

  lemma SnapshotRevertOnlyStates(w: World, m: TaskMessage, c: Calls)
    requires m.instance.Some? && m.snapshot.Some? && m.prior.Some?
    ensures OnlyStates(w, FinishSnapshotRevert(w, m, c).0)
  {
    hide EndWith;
    var i, snap, prior := m.instance.value, m.snapshot.value, m.prior.value;
    EndWithOnlyStates(w, w, m, false, prior, prior);
    if HasInstance(w.instances, m.project, i) && HasSnapshotOf(w.snapshots, m.project, i, snap) {
      var (reverted, ok) := RevertToInternalSnapshot(
        w.domains, Sanitized(w.instances[i].name), w.snapshots[snap].domainWasRunning, prior.Running?, c.revert);
      EndWithOnlyStates(w, w.(domains := reverted), m, ok, prior, prior);
    }
  }

  /** What provisioning does to volumes, instances and domains. */
  lemma CreateShape(w: World, m: TaskMessage, c: Calls)
    requires m.instance.Some?
    ensures var (w', ok) := FinishCreate(w, m, c); var i := m.instance.value;
      && w'.volumes == w.volumes && SameExceptState(w.instances, w'.instances)
      && (if HasInstance(w.instances, m.project, i) && c.imageOk then
            (w'.domains, ok) == CreateVm(w.domains, Sanitized(w.instances[i].name), i, c.vm)
          else w'.domains == w.domains && !ok)
  {
    hide CreateVm, SetTask, Sanitized;
  }

  lemma SameIsSame(instances: InstanceRows, domains: Domains)
    ensures SameExceptState(instances, instances) && SameDisks(domains, domains)
  {
  }

  lemma FipHandlersOnlyStates(w: World, m: TaskMessage, c: Calls)
    ensures m.instance.Some? && m.fip.Some? ==> OnlyStates(w, FinishAssociate(w, m, c).0)
    ensures m.pub.Some? && m.priv.Some? ==> OnlyStates(w, FinishDisassociate(w, m, c).0)
  {
    hide NatRules.Associate, NatRules.Disassociate, SetTask, FipRows.IsActiveOf, SameExceptState, SameDisks;
    SameIsSame(w.instances, w.domains);
  }

  lemma OthersOnlyStates(w: World, m: TaskMessage, c: Calls)
    requires Dispatchable(m) && !m.kind.InstanceCreate? && !m.kind.InstanceDestroy?
    ensures OnlyStates(w, FinishTask(w, m, c).0)
  {
    hide FinishLifecycle, FinishSnapshotCreate, FinishSnapshotRevert, FinishAssociate, FinishDisassociate;
    match m.kind
    case FipAssociate => FipHandlersOnlyStates(w, m, c);
    case FipDisassociate => FipHandlersOnlyStates(w, m, c);
    case SnapshotCreate => SnapshotCreateOnlyStates(w, m, c);
    case SnapshotRevert => SnapshotRevertOnlyStates(w, m, c);
    case InstanceStart => LifecycleOnlyStates(w, m, c);
    case InstanceStop => LifecycleOnlyStates(w, m, c);
    case InstanceReboot => LifecycleOnlyStates(w, m, c);
    case _ =>
  }

  /** A create's delivery keeps the rows true exactly when it replaces no domain that holds its volumes. */
  lemma ProvisioningKeepsAttachments(w: World, c: Calls)
    requires Core(w) && Placed(w) && w.mq.inflight.Some? && w.mq.inflight.value.msg.kind.InstanceCreate?
    ensures var w' := FinishDelivery(w, c);
      && (VolumesOk(w'.volumes, w'.instances, w'.domains) <==> SparesAttached(w, FinishStep(c)))
      && NamesDistinct(w'.instances)
  {
    HeldIsNotDone(w.mq, w.tasks, w.instances, w.used);
    hide Core, Tracked, Grounded;
    var m := w.mq.inflight.value.msg;
    var i := m.instance.value;
    CreateShape(w, m, c);
    hide FinishCreate, VolumesOk, NamesDistinct, CreateVm, Replaces, FinalizeDelivery;
    var w' := FinishCreate(w, m, c).0;
    assert FinishTask(w, m, c).0 == w';
    var w'' := FinishDelivery(w, c);
    assert w''.volumes == w'.volumes && w''.instances == w'.instances && w''.domains == w'.domains;
    hide FinishDelivery, FinishTask;
    SameStatesSameVolumes(w.volumes, w.instances, w'.instances, w'.domains);
    if HasInstance(w.instances, m.project, i) && c.imageOk {
      if SparesAttached(w, FinishStep(c)) {
        CreateVmKeepsVolumes(w.volumes, w.instances, w.domains, i, c.vm);
      } else {
        CreateVmLosesVolumes(w.volumes, w.instances, w.domains, i, c.vm);
      }
    }
  }

  lemma SameStatesSameVolumes(volumes: Volumes, a: InstanceRows, b: InstanceRows, domains: Domains)
    requires NamesDistinct(a) && SameExceptState(a, b)
    ensures VolumesOk(volumes, a, domains) <==> VolumesOk(volumes, b, domains)
    ensures NamesDistinct(b)
  {
    assert SameExceptState(b, a);
    if VolumesOk(volumes, a, domains) {
      StatesDoNotMatterForVolumes(volumes, a, b, domains);
    }
    assert NamesDistinct(b);
    if VolumesOk(volumes, b, domains) {
      StatesDoNotMatterForVolumes(volumes, b, a, domains);
    }
  }

  /** What a destroy does to volumes, instances and domains. */
  lemma DestroyShape(w: World, m: TaskMessage, c: Calls)
    requires TablesOk(w) && HasTask(w.tasks, m.project, m.task) && m.kind.InstanceDestroy? && m.instance.Some?
    requires HasInstance(w.instances, m.project, m.instance.value)
    ensures var i := m.instance.value; var name := Sanitized(w.instances[i].name);
      var (w', ok) := FinishDestroy(w, m, c);
      && w'.volumes == DetachAllRows(w.volumes, m.project, i)
      && (ok ==> w'.instances == w.instances - {i})
      && (!ok ==> w'.instances == SetState(w.instances, m.project, i, Errored))
      && w.domains.Keys - {name} <= w'.domains.Keys <= w.domains.Keys
      && forall n :: n in w'.domains && n != name ==> w'.domains[n] == w.domains[n]
  {
    hide DetachAllRows, Agreement, FipRows.FipsOk, VolumeRowsSound, DeleteBlocked;
    var i := m.instance.value; var name := Sanitized(w.instances[i].name);
    var bare := TearDown(w, m.project, i, c);
    var deleted := DeleteVm(bare.domains, name, c.deletion);
    if deleted.1 {
      FullDestroySettles(w, m, c);
      hide SetState, SetTask, ForgetInstance, Release, SnapshotsWithout;
      assert FinishDestroy(w, m, c).0.domains == deleted.0;
    } else {
      assert FinishDestroy(w, m, c).0.domains == deleted.0;
    }
  }

  lemma DestroyOfNothing(w: World, m: TaskMessage, c: Calls)
    requires m.instance.Some? && !HasInstance(w.instances, m.project, m.instance.value)
    ensures FinishDestroy(w, m, c) == FailTask(w, m)
  {
  }

  /** A destroy clears its rows first, so it does not matter whether its domain goes. */
  lemma DestroyKeepsPlaced(w: World, m: TaskMessage, c: Calls)
    requires TablesOk(w) && Placed(w) && HasTask(w.tasks, m.project, m.task)
    requires m.kind.InstanceDestroy? && m.instance.Some?
    ensures Placed(FinishDestroy(w, m, c).0)
  {
    hide FinishDestroy, DetachAllRows, Agreement, FipRows.FipsOk, VolumeRowsSound;
    var i := m.instance.value;
    var (w', ok) := FinishDestroy(w, m, c);
    if HasInstance(w.instances, m.project, i) {
      DestroyShape(w, m, c);
      DestroyKeepsVolumes(w.volumes, w.instances, w.domains, w'.domains, m.project, i);
      if ok {
        InstanceGone(w'.volumes, w.instances, w'.domains, i);
      } else {
        StatesDoNotMatterForVolumes(w'.volumes, w.instances, w'.instances, w'.domains);
      }
    } else {
      DestroyOfNothing(w, m, c);
    }
  }

  lemma OtherHandlersKeepPlaced(w: World, m: TaskMessage, c: Calls)
    requires TablesOk(w) && Placed(w)
    requires Dispatchable(m) && HasTask(w.tasks, m.project, m.task) && !m.kind.InstanceCreate?
    ensures Placed(FinishTask(w, m, c).0)
  {
    hide Placed, FinishDestroy, TablesOk;
    if m.kind.InstanceDestroy? {
      DestroyKeepsPlaced(w, m, c);
    } else {
      hide FinishTask;
      OthersOnlyStates(w, m, c);
      OnlyStatesKeepsPlaced(w, FinishTask(w, m, c).0);
    }
  }

  lemma SamePartsSamePlaced(a: World, b: World)
    requires b.volumes == a.volumes && b.instances == a.instances && b.domains == a.domains
    ensures Placed(a) <==> Placed(b)
  {
  }

  lemma FinishIsExact(w: World, c: Calls)
    requires Core(w) && Placed(w)
    ensures var w' := FinishDelivery(w, c);
      && (VolumesOk(w'.volumes, w'.instances, w'.domains) <==> SparesAttached(w, FinishStep(c)))
      && NamesDistinct(w'.instances)
  {
    if w.mq.inflight.Some? {
      var m := w.mq.inflight.value.msg;
      if m.kind.InstanceCreate? {
        hide Core, Placed, FinishDelivery, SparesAttached;
        ProvisioningKeepsAttachments(w, c);
      } else {
        HeldTaskSettles(w, c);
        assert TablesOk(w) && HasTask(w.tasks, m.project, m.task) && Dispatchable(m);
        hide Core, FinishTask, Settled, TablesOk, Grounded, Proper, Dispatchable, FinalizeDelivery;
        OtherHandlersKeepPlaced(w, m, c);
        SamePartsSamePlaced(FinishTask(w, m, c).0, FinishDelivery(w, c));
      }
    }
  }

  // ---- Requests and passes ------------------------------------------------------------------------------------

  lemma NewRowName(w: World, r: CreateRequest, state: InstanceState)
    requires r.network in w.ipam.networks && CreateInstanceWithIpam(w.ipam, w.instances, r).Committed?
    ensures var instances := SetState(CreateInstanceWithIpam(w.ipam, w.instances, r).instances, r.project, r.instance, state);
      r.instance in instances && instances[r.instance].name == r.name
  {
    CreateAddsOneRow(w.ipam, w.instances, r);
  }

  lemma CreateRequestKeepsPlaced(w: World, r: CreateRequest, pubOk: bool)
    requires Placed(w) && Enabled(w, System.NewInstance(r, pubOk))
    ensures Placed(RequestCreate(w, r, pubOk).0)
  {
    hide RequestCreate, CreateInstanceWithIpam;
    CreateRequestCases(w, r, pubOk);
    if RequestCreate(w, r, pubOk).0 != w {
      var state := if pubOk then Creating else Errored;
      var instances := SetState(CreateInstanceWithIpam(w.ipam, w.instances, r).instances, r.project, r.instance, state);
      NewRowShape(w, r, state);
      NewRowName(w, r, state);
      NewInstanceKeeps(w.volumes, w.instances, w.domains, r.instance, instances[r.instance]);
      hide SetState;
    }
  }

  lemma VolumeTablesKeepPlaced(w: World, p: Id, v: Id, name: string, fileOk: bool)
    requires VolumesOk(w.volumes, w.instances, w.domains)
    ensures VolumesOk(CreateVolume(w.volumes, p, v, name, fileOk).0, w.instances, w.domains)
    ensures VolumesOk(DeleteVolume(w.volumes, p, v).0, w.instances, w.domains)
  {
  }

  lemma VolumeStepKeepsPlaced(w: World, s: Step)
    requires Placed(w) && (s.NewVolume? || s.DropVolume? || s.AttachVolume? || s.DetachVolume?)
    ensures Placed(Effect(w, s))
  {
    hide Attach, Detach, CreateVolume, DeleteVolume, VolumesOk, NamesDistinct;
    match s
    case NewVolume(p, v, name, fileOk) => VolumeTablesKeepPlaced(w, p, v, name, fileOk);
    case DropVolume(p, v) => VolumeTablesKeepPlaced(w, p, v, "", true);
    case AttachVolume(p, i, v, c) => AttachKeeps(w.volumes, w.domains, w.instances, p, i, v, c);
    case DetachVolume(p, i, v, callOk) => DetachKeeps(w.volumes, w.domains, w.instances, p, i, v, callOk);
  }

  lemma PlainRequestOnlyStates(w: World, s: Step)
    requires s.InstanceAction? || s.AssociateFip? || s.DisassociateFip? || s.AllocateFip? || s.NewNetwork? || s.ReconcileStep?
    ensures OnlyStates(w, Effect(w, s))
  {
    hide ParseAction, FipRows.TryAssociate, FipRows.TakeDisassociate, FipRows.Rollback, FipRows.Allocate, Reconcile,
         CreateNetwork, SameExceptState, SameDisks;
    SameIsSame(w.instances, w.domains);
  }

  lemma BusyOnlyStates(w: World, project: Id, i: Id, state: InstanceState)
    ensures SameExceptState(w.instances, SetState(w.instances, project, i, state))
  {
  }

  lemma SnapshotRequestOnlyStates(w: World, s: Step)
    requires s.TakeSnapshot? || s.RevertSnapshot?
    ensures OnlyStates(w, Effect(w, s))
  {
    BusyOnlyStates(w, s.project, s.instance, Snapshotting);
    SameIsSame(w.instances, w.domains);
    hide SameExceptState, SameDisks, SetState, SnapshotNameTaken, HasSnapshotOf, RequestSnapshotCreate, RequestSnapshotRevert;
    match s
    case TakeSnapshot(p, i, name, snap, t, pubOk) => TakingOnlyStates(w, p, i, name, snap, t, pubOk);
    case RevertSnapshot(p, i, snap, t, pubOk) => RevertingOnlyStates(w, p, i, snap, t, pubOk);
  }

  lemma TakingOnlyStates(w: World, p: Id, i: Id, name: string, snap: Id, t: Id, pubOk: bool)
    requires SameExceptState(w.instances, w.instances) && SameDisks(w.domains, w.domains)
    requires SameExceptState(w.instances, SetState(w.instances, p, i, Snapshotting))
    ensures OnlyStates(w, RequestSnapshotCreate(w, p, i, name, snap, t, pubOk).0)
  {
    hide SameExceptState, SameDisks, SetState, SnapshotNameTaken;
  }

  lemma RevertingOnlyStates(w: World, p: Id, i: Id, snap: Id, t: Id, pubOk: bool)
    requires SameExceptState(w.instances, w.instances) && SameDisks(w.domains, w.domains)
    requires SameExceptState(w.instances, SetState(w.instances, p, i, Snapshotting))
    ensures OnlyStates(w, RequestSnapshotRevert(w, p, i, snap, t, pubOk).0)
  {
    hide SameExceptState, SameDisks, SetState, HasSnapshotOf;
  }

  lemma ReceiveOnlyStates(w: World)
    ensures OnlyStates(w, ReceiveTask(w))
  {
    ReceiveShape(w);
    SameIsSame(w.instances, w.domains);
    hide ReceiveTask, SameExceptState, SameDisks, Undelivered;
  }

  lemma SyncOnlyStates(w: World, unseen: set<string>, stale: set<Id>)
    ensures SameExceptState(w.instances, SyncInstances(w.instances, w.domains - unseen))
    ensures SameExceptState(w.instances, SweepInstances(w.instances, w.tasks, stale))
  {
  }

  lemma PassOnlyStates(w: World, s: Step)
    requires s.SyncStep? || s.SweepStep? || s.GuestPower? || s.ReceiveStep?
    ensures OnlyStates(w, Effect(w, s))
  {
    SameIsSame(w.instances, w.domains);
    hide ReceiveTask, SameExceptState, SyncInstances, SweepInstances, SweepTasks;
    match s
    case ReceiveStep =>
      hide OnlyStates;
      ReceiveOnlyStates(w);
    case SyncStep(unseen) => SyncOnlyStates(w, unseen, {});
    case SweepStep(stale) => SyncOnlyStates(w, {}, stale);
    case GuestPower(n, running) =>
  }

  // ---- Every step, every run --------------------------------------------------------------------------------------

  lemma EffectIsExact(w: World, s: Step)
    requires Core(w) && Placed(w) && Enabled(w, s)
    ensures var w' := Effect(w, s);
      && (VolumesOk(w'.volumes, w'.instances, w'.domains) <==> SparesAttached(w, s))
      && NamesDistinct(w'.instances)
  {
    if s.FinishStep? {
      hide Core, Placed, FinishDelivery, SparesAttached;
      FinishIsExact(w, s.calls);
    } else {
      hide Core, Effect;
      assert Placed(Effect(w, s)) by {
        hide Placed, Enabled;
        if s.NewInstance? {
          CreateRequestKeepsPlaced(w, s.req, s.pubOk);
          CreateStepIs(w, s);
        } else if s.NewVolume? || s.DropVolume? || s.AttachVolume? || s.DetachVolume? {
          VolumeStepKeepsPlaced(w, s);
        } else if s.TakeSnapshot? || s.RevertSnapshot? {
          SnapshotRequestOnlyStates(w, s);
          OnlyStatesKeepsPlaced(w, Effect(w, s));
        } else if s.SyncStep? || s.SweepStep? || s.GuestPower? || s.ReceiveStep? {
          PassOnlyStates(w, s);
          OnlyStatesKeepsPlaced(w, Effect(w, s));
        } else {
          PlainRequestOnlyStates(w, s);
          OnlyStatesKeepsPlaced(w, Effect(w, s));
        }
      }
    }
  }

  lemma CreateStepIs(w: World, s: Step)
    requires s.NewInstance?
    ensures Effect(w, s) == RequestCreate(w, s.req, s.pubOk).0 && s == System.NewInstance(s.req, s.pubOk)
  {
    hide RequestCreate;
  }

  lemma ApplyParts(w: World, s: Step)
    ensures var w', x := Apply(w, s), Effect(w, s);
      w'.volumes == x.volumes && w'.instances == x.instances && w'.domains == x.domains && w'.mq == x.mq
  {
    hide Effect, NewIds;
  }

  /** Any step keeps volume rows and domain disks in agreement exactly when it spares attached volumes. */
  lemma StepIsExact(w: World, s: Step)
    requires Core(w) && Placed(w) && Enabled(w, s)
    ensures Placed(Apply(w, s)) <==> SparesAttached(w, s)
    ensures NamesDistinct(Apply(w, s).instances)
  {
    EffectIsExact(w, s);
    ApplyParts(w, s);
    hide Core, Effect, Apply, VolumesOk, NamesDistinct, SparesAttached;
  }

  /** Each step of the run spares attached volumes where it is taken. */
  ghost predicate SparingRun(w: World, steps: seq<Step>)
    decreases |steps|
  {
    steps == [] || (SparesAttached(w, steps[0]) && SparingRun(Apply(w, steps[0]), steps[1..]))
  }

  /** Rows and disks agree at every point of the run. */
  ghost predicate PlacedThroughout(w: World, steps: seq<Step>)
    decreases |steps|
  {
    Placed(w) && (steps == [] || PlacedThroughout(Apply(w, steps[0]), steps[1..]))
  }

  /** Rows and disks agree throughout a run exactly when no step of it replaces a domain under attached volumes. */
  lemma {:induction false} RunIsExact(w: World, steps: seq<Step>)
    requires Core(w) && Placed(w) && Runs(w, steps)
    ensures PlacedThroughout(w, steps) <==> SparingRun(w, steps)
    decreases |steps|
  {
    hide Core, Placed, Apply, SparesAttached;
    if steps != [] {
      var next := Apply(w, steps[0]);
      StepKeepsCore(w, steps[0]);
      StepIsExact(w, steps[0]);
      if SparesAttached(w, steps[0]) {
        RunIsExact(next, steps[1..]);
      } else {
        assert !Placed(next);
      }
    }
  }

  lemma {:induction false} PlacedAtTheEnd(w: World, steps: seq<Step>)
    requires PlacedThroughout(w, steps)
    ensures Placed(After(w, steps))
    decreases |steps|
  {
    hide Placed, Apply;
    if steps != [] {
      PlacedAtTheEnd(Apply(w, steps[0]), steps[1..]);
    }
  }

  /** From an initial state, whatever the host does: agreement throughout exactly for the sparing runs. */
  lemma AgreementIsExact(w: World, steps: seq<Step>)
    requires Init(w) && Runs(w, steps)
    ensures PlacedThroughout(w, steps) <==> SparingRun(w, steps)
  {
    InitIsCore(w);
    hide Core, PlacedThroughout, SparingRun, Runs;
    assert Placed(w);
    RunIsExact(w, steps);
  }

  /** In every sparing run: an in-use volume is found at its target, targets differ, and no instance has more than 25. */
  lemma AttachmentsAreReal(w: World, steps: seq<Step>, v: Id)
    requires Init(w) && Runs(w, steps) && SparingRun(w, steps)
    requires var w' := After(w, steps); v in w'.volumes && w'.volumes[v].status.InUse?
    ensures var w' := After(w, steps);
      && w'.volumes[v].instance.Some? && w'.volumes[v].target.Some?
      && var i := w'.volumes[v].instance.value;
      && i in w'.instances && HoldsFile(w'.domains, Sanitized(w'.instances[i].name), w'.volumes[v].target.value, v)
      && |AttachedVolumes(w'.volumes, i)| <= 25
      && forall u :: u in w'.volumes && u != v && w'.volumes[u].instance == Some(i) ==> w'.volumes[u].target != w'.volumes[v].target
  {
    AgreementIsExact(w, steps);
    PlacedAtTheEnd(w, steps);
    hide After, Runs, SparingRun, PlacedThroughout;
    var w' := After(w, steps);
    assert VolumeRowOk(v, w'.volumes[v], w'.instances, w'.domains);
    var i := w'.volumes[v].instance.value;
    AtMost25Volumes(w'.volumes, w'.instances, w'.domains, i);
    forall u | u in w'.volumes && u != v && w'.volumes[u].instance == Some(i) ensures w'.volumes[u].target != w'.volumes[v].target {
      TargetsAreDistinct(w'.volumes, w'.instances, w'.domains, i, v, u);
    }
  }
}
