/** Where lookups answer and failed starts are cleaned up, no domain outlives its instance and volumes are safe. */
module CleanHost {
  import opened Wrappers
  import opened Text
  import opened HostNames
  import opened Model
  import opened Messages
  import opened Ipam
  import opened Disks
  import opened Control
  import opened System
  import opened Tracking
  import opened Invariants
  import opened Requests
  import opened VolumeAgreement
  import FipRows
  import NatRules

  /** The name of a domain is the name of a live instance. */
  ghost predicate Owned(instances: InstanceRows, n: string) {
    exists i :: i in instances && Sanitized(instances[i].name) == n
  }

  /** While an instance's create message is undelivered no domain of that name exists. */
  ghost predicate PendingMeansAbsent(instances: InstanceRows, domains: Domains, q: Mq) {
    forall m :: m in Undelivered(q) && m.kind.InstanceCreate? && m.instance.Some? && m.instance.value in instances ==>
      Sanitized(instances[m.instance.value].name) !in domains
  }

  ghost predicate Clean(instances: InstanceRows, domains: Domains, q: Mq) {
    (forall n :: n in domains ==> Owned(instances, n)) && PendingMeansAbsent(instances, domains, q)
  }

  /** The same instances, no new domain, no new create message. */
  lemma FewerKeepClean(a: InstanceRows, b: InstanceRows, domains: Domains, domains': Domains, q: Mq, q': Mq)
    requires Clean(a, domains, q) && SameExceptState(a, b) && domains'.Keys <= domains.Keys
    requires forall m :: m in Undelivered(q') && m.kind.InstanceCreate? ==> m in Undelivered(q)
    ensures Clean(b, domains', q')
  {
    forall n | n in domains' ensures Owned(b, n) {
      assert n in domains && Owned(a, n);
      var i :| i in a && Sanitized(a[i].name) == n;
      assert i in b && Sanitized(b[i].name) == n;
    }
  }

  // ---- Requests and passes ------------------------------------------------------------------------------

  /** All steps but a new instance and the end of a handler leave instances, domain names and create messages alone. */
  ghost predicate Quiet(w: World, w': World) {
    && SameExceptState(w.instances, w'.instances) && w'.domains.Keys <= w.domains.Keys
    && forall m :: m in Undelivered(w'.mq) && m.kind.InstanceCreate? ==> m in Undelivered(w.mq)
  }

  lemma EnqueueIsQuiet(w: World, x: World, m: TaskMessage, pubOk: bool)
    requires x.mq == w.mq && x.domains == w.domains && SameExceptState(w.instances, x.instances) && !m.kind.InstanceCreate?
    ensures Quiet(w, Enqueue(x, m, pubOk))
  {
    PublishEffect(x.mq, m);
  }

  lemma NothingIsQuiet(w: World)
    ensures Quiet(w, w)
  {
  }

  lemma ActionIsQuiet(w: World, p: Id, i: Id, a: Option<Action>, t: Id, pubOk: bool)
    ensures Quiet(w, RequestParsed(w, p, i, a, t, pubOk).0)
  {
    NothingIsQuiet(w);
    SameIsSame(w.instances, w.domains);
    hide Quiet, Enqueue, SameExceptState;
    if a.Some? {
      EnqueueIsQuiet(w, w, InstanceMessage(t, TaskKindFor(a.value), p, i), pubOk);
    }
  }

  lemma SnapshotRequestsAreQuiet(w: World, p: Id, i: Id, name: string, snap: Id, t: Id, pubOk: bool)
    ensures Quiet(w, RequestSnapshotCreate(w, p, i, name, snap, t, pubOk).0)
    ensures Quiet(w, RequestSnapshotRevert(w, p, i, snap, t, pubOk).0)
  {
    NothingIsQuiet(w);
    SameIsSame(w.instances, w.domains);
    BusyOnlyStates(w, p, i, Snapshotting);
    hide Quiet, Enqueue, SameExceptState, SetState;
    if HasInstance(w.instances, p, i) {
      var instances := if pubOk then SetState(w.instances, p, i, Snapshotting) else w.instances;
      var row := Snapshot(p, i, TrimSpace(name), if pubOk then SnapCreating else SnapError, w.instances[i].state.Running?);
      EnqueueIsQuiet(w, w.(snapshots := w.snapshots[snap := row], instances := instances),
        SnapshotMessage(t, SnapshotCreate, p, i, snap, w.instances[i].state), pubOk);
      EnqueueIsQuiet(w, w.(instances := instances), SnapshotMessage(t, SnapshotRevert, p, i, snap, w.instances[i].state), pubOk);
    }
  }

  lemma FipRequestsAreQuiet(w: World, s: Step)
    requires s.AssociateFip? || s.DisassociateFip?
    ensures Quiet(w, Effect(w, s))
  {
    NothingIsQuiet(w);
    SameIsSame(w.instances, w.domains);
    hide Quiet, Enqueue, SameExceptState;
    match s
    case AssociateFip(p, f, i, t, pubOk) =>
      var (fips, reply) := FipRows.TryAssociate(w.fips, w.instances, p, f, i);
      if reply.Accepted? {
        EnqueueIsQuiet(w, w.(fips := if pubOk then fips else FipRows.Rollback(fips, p, f)),
          AssociateMessage(t, p, i, f, NatRules.Binding(w.fips[f].pub, w.instances[i].ipv4.value)), pubOk);
      }
    case DisassociateFip(p, f, t, pubOk) =>
      var (fips, taken) := FipRows.TakeDisassociate(w.fips, p, f);
      if taken.Some? {
        EnqueueIsQuiet(w, w.(fips := fips), DisassociateMessage(t, p, f, taken.value), pubOk);
      }
  }

  lemma DiskStepsAreQuiet(w: World, s: Step)
    requires s.NewVolume? || s.DropVolume? || s.AttachVolume? || s.DetachVolume?
    ensures Quiet(w, Effect(w, s))
  {
    SameIsSame(w.instances, w.domains);
    hide SameExceptState, CreateVolume, DeleteVolume;
  }

  lemma PassesAreQuiet(w: World, s: Step)
    requires s.NewNetwork? || s.AllocateFip? || s.SyncStep? || s.SweepStep? || s.ReconcileStep? || s.GuestPower? || s.ReceiveStep?
    ensures Quiet(w, Effect(w, s))
  {
    if s.SyncStep? || s.SweepStep? || s.GuestPower? || s.ReceiveStep? {
      PassOnlyStates(w, s);
      PassMessages(w, s);
    } else {
      SameIsSame(w.instances, w.domains);
      hide SameExceptState, CreateNetwork, FipRows.Allocate;
    }
  }

  lemma PassMessages(w: World, s: Step)
    requires s.SyncStep? || s.SweepStep? || s.GuestPower? || s.ReceiveStep?
    ensures Undelivered(Effect(w, s).mq) == Undelivered(w.mq)
  {
    hide Undelivered;
    if s.ReceiveStep? {
      hide ReceiveTask;
      ReceiveShape(w);
    }
  }

  lemma NewInstanceKeepsClean(w: World, r: CreateRequest, pubOk: bool)
    requires Core(w) && Clean(w.instances, w.domains, w.mq) && Enabled(w, System.NewInstance(r, pubOk))
    ensures var w' := RequestCreate(w, r, pubOk).0; Clean(w'.instances, w'.domains, w'.mq)
  {
    hide RequestCreate, CreateInstanceWithIpam;
    CreateRequestCases(w, r, pubOk);
    if RequestCreate(w, r, pubOk).0 != w {
      var state := if pubOk then Creating else Errored;
      var instances := SetState(CreateInstanceWithIpam(w.ipam, w.instances, r).instances, r.project, r.instance, state);
      NewRowShape(w, r, state);
      NewRowName(w, r, state);
      hide SetState;
      NewRowKeepsClean(w, r.instance, instances[r.instance],
        InstanceMessage(r.task, InstanceCreate, r.project, r.instance), pubOk);
    }
  }

  /** A new row and its create message, under a name no live instance and hence no domain has. */
  lemma NewRowKeepsClean(w: World, i: Id, row: Instance, m: TaskMessage, pubOk: bool)
    requires Clean(w.instances, w.domains, w.mq) && m.instance == Some(i) && i !in w.instances && Conserved(w.mq)
    requires forall j :: j in w.instances ==> Sanitized(w.instances[j].name) != Sanitized(row.name)
    requires forall n :: n in w.mq.published ==> n.instance != Some(i)
    ensures Clean(w.instances[i := row], w.domains, if pubOk then PublishTask(w.mq, m) else w.mq)
  {
    var q' := if pubOk then PublishTask(w.mq, m) else w.mq;
    var instances := w.instances[i := row];
    PublishEffect(w.mq, m);
    forall n | n in w.domains ensures Owned(instances, n) {
      assert Owned(w.instances, n);
      var j :| j in w.instances && Sanitized(w.instances[j].name) == n;
      assert j in instances && Sanitized(instances[j].name) == n;
    }
    forall n | n in Undelivered(q') && n.kind.InstanceCreate? && n.instance.Some? && n.instance.value in instances
      ensures Sanitized(instances[n.instance.value].name) !in w.domains
    {
      if n == m {
        assert !Owned(w.instances, Sanitized(row.name));
      } else {
        assert n in Undelivered(w.mq);
        assert n in Everywhere(w.mq);
      }
    }
  }

  // ---- Handlers -----------------------------------------------------------------------------------------------

  /** The instance's domain did not exist before; if it exists afterwards the message is done. */
  lemma CreateKeepsClean(w: World, c: Calls)
    requires Core(w) && Placed(w) && Clean(w.instances, w.domains, w.mq) && c.vm.cleanUp
    requires w.mq.inflight.Some? && w.mq.inflight.value.msg.kind.InstanceCreate?
    ensures var w' := FinishDelivery(w, c); Clean(w'.instances, w'.domains, w'.mq)
  {
    HeldIsNotDone(w.mq, w.tasks, w.instances, w.used);
    var m := w.mq.inflight.value.msg;
    var i := m.instance.value;
    CreateShape(w, m, c);
    var (w', ok) := FinishCreate(w, m, c);
    assert FinishTask(w, m, c) == (w', ok);
    HeldTaskKeeps(w, c);
    var q' := FinalizeDelivery(w.mq, w.mq.inflight.value, ok, c.pubOk);
    FinalizeEffect(w.mq, w.mq.inflight.value, ok, c.pubOk);
    FinalizeKeeps(w.mq, w.mq.inflight.value, ok, c.pubOk);
    assert FinishDelivery(w, c) == w'.(mq := q');
    hide FinishCreate, FinishTask, FinishDelivery, FinalizeDelivery, Clean, Grounded, Proper, Core;
    if HasInstance(w.instances, m.project, i) && c.imageOk {
      CreatedKeepsClean(w, i, c.vm, q', m);
      FewerKeepClean(w.instances, w'.instances, w'.domains, w'.domains, q', q');
    } else {
      FewerKeepClean(w.instances, w'.instances, w.domains, w'.domains, w.mq, q');
    }
  }

  lemma HeldTaskKeeps(w: World, c: Calls)
    requires Core(w) && w.mq.inflight.Some?
    ensures FinishTask(w, w.mq.inflight.value.msg, c).0.mq == w.mq
  {
    hide Core, FinishTask;
    HeldTaskSettles(w, c);
  }

  lemma CreateVmNames(domains: Domains, name: string, i: Id, k: VmCalls)
    requires name !in domains && k.cleanUp
    ensures var (domains', ok) := CreateVm(domains, name, i, k); domains'.Keys == domains.Keys + (if ok then {name} else {})
  {
  }

  lemma CreatedKeepsClean(w: World, i: Id, k: VmCalls, q': Mq, m: TaskMessage)
    requires Conserved(w.mq) && OneMessagePerTask(w.mq) && Clean(w.instances, w.domains, w.mq) && NamesDistinct(w.instances)
    requires i in w.instances && m in Undelivered(w.mq) && m.kind.InstanceCreate? && m.instance == Some(i) && k.cleanUp
    requires Undelivered(q') <= Undelivered(w.mq)
    requires CreateVm(w.domains, Sanitized(w.instances[i].name), i, k).1 ==> m !in Undelivered(q')
    ensures Clean(w.instances, CreateVm(w.domains, Sanitized(w.instances[i].name), i, k).0, q')
  {
    var name := Sanitized(w.instances[i].name);
    var (domains, ok) := CreateVm(w.domains, name, i, k);
    assert name !in w.domains;
    CreateVmNames(w.domains, name, i, k);
    hide CreateVm, Undelivered;
    forall n | n in domains ensures Owned(w.instances, n) {
      if n != name {
        assert n in w.domains;
      }
    }
    forall n | n in Undelivered(q') && n.kind.InstanceCreate? && n.instance.Some? && n.instance.value in w.instances
      ensures Sanitized(w.instances[n.instance.value].name) !in domains
    {
      assert n in Undelivered(w.mq);
      if ok {
        OneCreate(w.mq, n, m);
      }
    }
  }

  lemma OneCreate(q: Mq, n: TaskMessage, m: TaskMessage)
    requires Conserved(q) && OneMessagePerTask(q) && n in Undelivered(q) && m in Undelivered(q) && n != m
    requires n.kind.InstanceCreate? && m.kind.InstanceCreate?
    ensures n.instance != m.instance
  {
    assert n in Everywhere(q) && m in Everywhere(q);
  }

  /** With an answering lookup a destroy that succeeds leaves no domain of the name. */
  lemma DestroyTakesDomain(w: World, m: TaskMessage, c: Calls)
    requires TablesOk(w) && HasTask(w.tasks, m.project, m.task) && m.kind.InstanceDestroy? && m.instance.Some?
    requires HasInstance(w.instances, m.project, m.instance.value) && c.deletion.lookup
    ensures FinishDestroy(w, m, c).1 ==> Sanitized(w.instances[m.instance.value].name) !in FinishDestroy(w, m, c).0.domains
  {
    var i := m.instance.value; var name := Sanitized(w.instances[i].name);
    var bare := TearDown(w, m.project, i, c);
    var deleted := DeleteVm(bare.domains, name, c.deletion);
    assert deleted.1 ==> name !in deleted.0;
    if deleted.1 {
      DestroyIsFinalize(w, m, c);
      hide FinishDestroy, TearDown, DeleteVm, SetState, SetTask, ForgetInstance, Release, SnapshotsWithout, DeleteBlocked;
    } else {
      FailedDestroySettles(w, m, c);
    }
  }

  lemma DestroyKeepsClean(w: World, m: TaskMessage, c: Calls, q': Mq)
    requires TablesOk(w) && Clean(w.instances, w.domains, w.mq) && HasTask(w.tasks, m.project, m.task)
    requires m.kind.InstanceDestroy? && m.instance.Some? && c.deletion.lookup && Undelivered(q') <= Undelivered(w.mq)
    ensures var w' := FinishDestroy(w, m, c).0; Clean(w'.instances, w'.domains, q')
  {
    hide FinishDestroy, Agreement, FipRows.FipsOk, VolumeRowsSound, Clean;
    var i := m.instance.value;
    var (w', ok) := FinishDestroy(w, m, c);
    if HasInstance(w.instances, m.project, i) {
      DestroyShape(w, m, c);
      if ok {
        DestroyTakesDomain(w, m, c);
        GoneKeepsClean(w.instances, w.domains, w'.domains, w.mq, q', i);
      } else {
        BusyOnlyStates(w, m.project, i, Errored);
        FewerKeepClean(w.instances, w'.instances, w.domains, w'.domains, w.mq, q');
      }
    } else {
      DestroyOfNothing(w, m, c);
      SameIsSame(w.instances, w.domains);
      FewerKeepClean(w.instances, w.instances, w.domains, w.domains, w.mq, q');
    }
  }

  lemma GoneKeepsClean(instances: InstanceRows, domains: Domains, domains': Domains, q: Mq, q': Mq, i: Id)
    requires Clean(instances, domains, q) && i in instances && Sanitized(instances[i].name) !in domains'
    requires domains'.Keys <= domains.Keys && Undelivered(q') <= Undelivered(q)
    ensures Clean(instances - {i}, domains', q')
  {
    forall n | n in domains' ensures Owned(instances - {i}, n) {
      assert n in domains && Owned(instances, n);
      var j :| j in instances && Sanitized(instances[j].name) == n;
      assert j in instances - {i};
    }
  }

  lemma FinishKeepsClean(w: World, c: Calls)
    requires Core(w) && Placed(w) && Clean(w.instances, w.domains, w.mq) && HostAnswers(FinishStep(c))
    ensures var w' := FinishDelivery(w, c); Clean(w'.instances, w'.domains, w'.mq)
  {
    if w.mq.inflight.Some? {
      var m := w.mq.inflight.value.msg;
      if m.kind.InstanceCreate? {
        hide Core, Placed, Clean, FinishDelivery;
        CreateKeepsClean(w, c);
      } else {
        OtherDeliveryKeepsClean(w, c);
      }
    }
  }

  lemma OtherDeliveryKeepsClean(w: World, c: Calls)
    requires Core(w) && Clean(w.instances, w.domains, w.mq) && HostAnswers(FinishStep(c))
    requires w.mq.inflight.Some? && !w.mq.inflight.value.msg.kind.InstanceCreate?
    ensures var w' := FinishDelivery(w, c); Clean(w'.instances, w'.domains, w'.mq)
  {
    var m := w.mq.inflight.value.msg;
    var (w', ok) := FinishTask(w, m, c);
    var q' := FinalizeDelivery(w.mq, w.mq.inflight.value, ok, c.pubOk);
    HeldTaskSettles(w, c);
    HandlerOf(w, m, c);
    FinalizeKeeps(w.mq, w.mq.inflight.value, ok, c.pubOk);
    assert TablesOk(w) && Dispatchable(m) && w'.mq == w.mq;
    hide FinishTask, FinishDestroy, FinalizeDelivery, Core, Clean, Settled, Grounded, Proper, TablesOk, Undelivered, Everywhere;
    if m.kind.InstanceDestroy? {
      DestroyKeepsClean(w, m, c, q');
    } else {
      OthersOnlyStates(w, m, c);
      FewerKeepClean(w.instances, w'.instances, w.domains, w'.domains, w.mq, q');
    }
  }

  // ---- Every step, every run -------------------------------------------------------------------------------------

  lemma QuietStepsKeepClean(w: World, s: Step)
    requires Clean(w.instances, w.domains, w.mq) && !s.NewInstance? && !s.FinishStep?
    ensures var w' := Effect(w, s); Clean(w'.instances, w'.domains, w'.mq)
  {
    var w' := Effect(w, s);
    assert Quiet(w, w') by {
      hide Quiet, Clean;
      match s
      case InstanceAction(p, i, a, t, pubOk) => ActionIsQuiet(w, p, i, ParseAction(a), t, pubOk);
      case TakeSnapshot(p, i, name, snap, t, pubOk) => SnapshotRequestsAreQuiet(w, p, i, name, snap, t, pubOk);
      case RevertSnapshot(p, i, snap, t, pubOk) => SnapshotRequestsAreQuiet(w, p, i, "", snap, t, pubOk);
      case AssociateFip(_, _, _, _, _) => FipRequestsAreQuiet(w, s);
      case DisassociateFip(_, _, _, _) => FipRequestsAreQuiet(w, s);
      case NewVolume(_, _, _, _) => DiskStepsAreQuiet(w, s);
      case DropVolume(_, _) => DiskStepsAreQuiet(w, s);
      case AttachVolume(_, _, _, _) => DiskStepsAreQuiet(w, s);
      case DetachVolume(_, _, _, _) => DiskStepsAreQuiet(w, s);
      case _ => PassesAreQuiet(w, s);
    }
    hide Effect, Clean;
    FewerKeepClean(w.instances, w'.instances, w.domains, w'.domains, w.mq, w'.mq);
  }

  lemma StepKeepsClean(w: World, s: Step)
    requires Core(w) && Placed(w) && Clean(w.instances, w.domains, w.mq) && Enabled(w, s) && HostAnswers(s)
    ensures var w' := Apply(w, s); Clean(w'.instances, w'.domains, w'.mq)
  {
    ApplyParts(w, s);
    hide Core, Placed, Clean, Apply;
    if s.FinishStep? {
      hide FinishDelivery;
      FinishKeepsClean(w, s.calls);
    } else {
      hide Effect;
      if s.NewInstance? {
        CreateStepIs(w, s);
        NewInstanceKeepsClean(w, s.req, s.pubOk);
      } else {
        QuietStepsKeepClean(w, s);
      }
    }
  }

  /** On a clean host a create never finds a domain to replace. */
  lemma CleanIsSparing(w: World, s: Step)
    requires Core(w) && Clean(w.instances, w.domains, w.mq)
    ensures SparesAttached(w, s)
  {
    if s.FinishStep? && w.mq.inflight.Some? {
      HeldIsNotDone(w.mq, w.tasks, w.instances, w.used);
    }
  }

  /** Answering lookups and working clean-ups are enough for a run to spare attached volumes. */
  lemma {:induction false} AnsweringRunsAreSparing(w: World, steps: seq<Step>)
    requires Core(w) && Placed(w) && Clean(w.instances, w.domains, w.mq)
    requires Runs(w, steps) && forall k :: 0 <= k < |steps| ==> HostAnswers(steps[k])
    ensures SparingRun(w, steps)
    ensures var w' := After(w, steps); Clean(w'.instances, w'.domains, w'.mq)
    decreases |steps|
  {
    hide Core, Placed, Clean, Apply, SparesAttached;
    if steps != [] {
      CleanIsSparing(w, steps[0]);
      StepKeepsCore(w, steps[0]);
      StepIsExact(w, steps[0]);
      StepKeepsClean(w, steps[0]);
      AnsweringRunsAreSparing(Apply(w, steps[0]), steps[1..]);
    }
  }

  /** From an initial state on such a host: every domain is a live instance's, and rows and disks agree throughout. */
  lemma AnsweringHostStaysClean(w: World, steps: seq<Step>, n: string)
    requires Init(w) && Runs(w, steps) && forall k :: 0 <= k < |steps| ==> HostAnswers(steps[k])
    ensures PlacedThroughout(w, steps)
    ensures n in After(w, steps).domains ==> Owned(After(w, steps).instances, n)
  {
    InitIsCore(w);
    assert Placed(w) && Clean(w.instances, w.domains, w.mq);
    AnsweringRunsAreSparing(w, steps);
    AgreementIsExact(w, steps);
    hide Runs, After, Core, SparingRun, PlacedThroughout;
  }
}
