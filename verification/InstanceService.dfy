/** Requests on instances and the handlers of their tasks. */
module InstanceService {
  import opened Wrappers
  import opened Text
  import opened HostNames
  import opened Model
  import opened Ipam
  import opened Disks
  import opened Control
  import opened SyncPass
  import opened Plant
  import opened NatRules
  import opened FipRows
  import VolumeService

  class Instances {
    const sys: Deployment
    const volumes: VolumeService.Volumes

    constructor (sys: Deployment, volumes: VolumeService.Volumes)
      ensures this.sys == sys && this.volumes == volumes
    {
      this.sys, this.volumes := sys, volumes;
    }

    method CreateAsync(r: CreateRequest, pubOk: bool) returns (reply: Reply)
      modifies sys.repo, sys.broker
      ensures (sys.State(), reply) == RequestCreate(old(sys.State()), r, pubOk)
    {
      if !r.imageOk {
        return Refused(NotFound);
      }
      if !r.dataOk {
        return Refused(BadRequest);
      }
      if r.network !in sys.repo.networks || sys.repo.networks[r.network].project != r.project {
        return Refused(NotFound);
      }
      var fault := sys.repo.CreateInstanceWithIpam(r);
      if fault.Some? {
        return Refused(fault.value);
      }
      var ok := sys.EnqueueTask(InstanceMessage(r.task, InstanceCreate, r.project, r.instance), pubOk);
      if !ok {
        var _ := sys.repo.UpdateInstanceState(r.project, r.instance, Errored);
        return Refused(PublishFailed);
      }
      return Accepted;
    }

    method RequestInstanceAction(project: Id, i: Id, action: string, task: Id, pubOk: bool) returns (reply: Reply)
      modifies sys.repo, sys.broker
      ensures (sys.State(), reply) == RequestAction(old(sys.State()), project, i, action, task, pubOk)
    {
      var a := ParseAction(action);
      if a.None? {
        return Refused(InvalidAction);
      }
      var row := sys.repo.GetInstance(project, i);
      if row.None? {
        return Refused(NotFound);
      }
      if !ActionAllowed(row.value.state, a.value) {
        return Refused(InvalidTransition);
      }
      if a.value.Destroy? {
        var n := sys.repo.CountVolumesAttachedToInstance(project, i);
        if n > 0 {
          return Refused(HasAttachedVolumes);
        }
      }
      var ok := sys.EnqueueTask(InstanceMessage(task, TaskKindFor(a.value), project, i), pubOk);
      if !ok {
        return Refused(PublishFailed);
      }
      return Accepted;
    }

    /** The row and the busy state are written first; a failed publish takes both back. */
    method RequestSnapshotCreate(project: Id, i: Id, name: string, snap: Id, task: Id, pubOk: bool) returns (reply: Reply)
      modifies sys.repo, sys.broker
      ensures (sys.State(), reply) == Control.RequestSnapshotCreate(old(sys.State()), project, i, name, snap, task, pubOk)
    {
      var title := TrimSpace(name);
      if title == "" {
        return Refused(BadRequest);
      }
      ghost var before := sys.State();
      var prior, fault := sys.repo.BeginSnapshotCreate(project, i, snap, title);
      if fault.Some? {
        return Refused(fault.value);
      }
      var ok := sys.EnqueueTask(SnapshotMessage(task, SnapshotCreate, project, i, snap, prior.value), pubOk);
      if !ok {
        sys.repo.UpdateSnapshotStatus(project, snap, SnapError);
        assert sys.repo.snapshots == before.snapshots[snap := Snapshot(project, i, title, SnapError, prior.value.Running?)];
        var _ := sys.repo.UpdateInstanceState(project, i, prior.value);
        RestoredState(before.instances, project, i, Snapshotting);
        return Refused(PublishFailed);
      }
      return Accepted;
    }

    method RequestSnapshotRevert(project: Id, i: Id, snap: Id, task: Id, pubOk: bool) returns (reply: Reply)
      modifies sys.repo, sys.broker
      ensures (sys.State(), reply) == Control.RequestSnapshotRevert(old(sys.State()), project, i, snap, task, pubOk)
    {
      ghost var before := sys.State();
      var row := sys.repo.GetSnapshot(project, i, snap);
      if row.None? {
        return Refused(NotFound);
      }
      if !row.value.status.SnapAvailable? {
        return Refused(SnapshotNotReady);
      }
      var prior, fault := sys.repo.BeginSnapshotRevert(project, i);
      if fault.Some? {
        return Refused(fault.value);
      }
      var ok := sys.EnqueueTask(SnapshotMessage(task, SnapshotRevert, project, i, snap, prior.value), pubOk);
      if !ok {
        var _ := sys.repo.UpdateInstanceState(project, i, prior.value);
        RestoredState(before.instances, project, i, Snapshotting);
        return Refused(PublishFailed);
      }
      return Accepted;
    }

    // ---- Handlers ----------------------------------------------------------------------------------

    method MarkRunning(m: TaskMessage) returns (found: bool)
      modifies sys.repo`tasks
      ensures found == HasTask(old(sys.repo.tasks), m.project, m.task)
      ensures sys.State() == Marked(old(sys.State()), m)
    {
      found := sys.repo.UpdateTaskStatus(m.project, m.task, InProgress);
    }

    /** The two writes every way out of a handler ends with. */
    method Close(m: TaskMessage, ok: bool, good: InstanceState, bad: InstanceState)
      requires m.instance.Some?
      modifies sys.repo`instances, sys.repo`tasks
      ensures (sys.State(), ok) == EndWith(old(sys.State()), m, ok, good, bad)
    {
      if ok {
        var _ := sys.repo.UpdateInstanceState(m.project, m.instance.value, good);
        var _ := sys.repo.UpdateTaskStatus(m.project, m.task, Succeeded);
      } else {
        var _ := sys.repo.UpdateInstanceState(m.project, m.instance.value, bad);
        var _ := sys.repo.UpdateTaskStatus(m.project, m.task, Failed);
      }
    }

    method CallHypervisor(kind: TaskKind, name: string, callOk: bool) returns (ok: bool)
      requires sys.libvirt.Valid() && kind in {InstanceStart, InstanceStop, InstanceReboot}
      modifies sys.libvirt
      ensures sys.libvirt.Valid()
      ensures (sys.libvirt.domains, ok) == LifecycleCall(old(sys.libvirt.domains), kind, Sanitized(name), callOk)
    {
      if kind.InstanceStart? {
        ok := sys.libvirt.StartVm(name, callOk);
      } else if kind.InstanceStop? {
        ok := sys.libvirt.GracefulShutdown(name, callOk);
      } else {
        ok := sys.libvirt.RebootVm(name, callOk);
      }
    }

    method HandleLifecycleTask(m: TaskMessage, c: Calls) returns (ok: bool)
      requires m.instance.Some? && m.kind in {InstanceStart, InstanceStop, InstanceReboot} && sys.Valid()
      modifies sys.repo, sys.libvirt
      ensures sys.Valid() && (sys.State(), ok) == Handle(old(sys.State()), m, c)
    {
      var i := m.instance.value;
      var found := MarkRunning(m);
      if !found {
        return false;
      }
      var row := sys.repo.GetInstance(m.project, i);
      if row.None? {
        var _ := sys.repo.UpdateTaskStatus(m.project, m.task, Failed);
        return false;
      }
      var done := CallHypervisor(m.kind, row.value.name, c.callOk);
      if !done {
        Close(m, false, WantState(m.kind), Errored);
        return false;
      }
      Close(m, true, WantState(m.kind), Errored);
      return true;
    }

    method HandleCreateTask(m: TaskMessage, c: Calls) returns (ok: bool)
      requires m.instance.Some? && m.kind.InstanceCreate? && sys.Valid()
      modifies sys.repo, sys.libvirt
      ensures sys.Valid() && (sys.State(), ok) == Handle(old(sys.State()), m, c)
    {
      var i := m.instance.value;
      var found := MarkRunning(m);
      if !found {
        return false;
      }
      var row := sys.repo.GetInstance(m.project, i);
      if row.None? {
        var _ := sys.repo.UpdateTaskStatus(m.project, m.task, Failed);
        return false;
      }
      if !c.imageOk {
        Close(m, false, Running, Errored);
        return false;
      }
      var done := sys.libvirt.CreateVm(row.value.name, i, c.vm);
      if !done {
        Close(m, false, Running, Errored);
        return false;
      }
      Close(m, true, Running, Errored);
      return true;
    }

    method HandleSnapshotCreateTask(m: TaskMessage, c: Calls) returns (ok: bool)
      requires m.kind.SnapshotCreate? && Dispatchable(m) && sys.Valid()
      modifies sys.repo
      ensures sys.Valid() && (sys.State(), ok) == Handle(old(sys.State()), m, c)
    {
      var i, snap, prior := m.instance.value, m.snapshot.value, m.prior.value;
      var found := MarkRunning(m);
      if !found {
        return false;
      }
      var row := sys.repo.GetSnapshot(m.project, i, snap);
      if row.None? {
        FailSnapshot(m, snap, prior);
        return false;
      }
      var inst := sys.repo.GetInstance(m.project, i);
      if inst.None? {
        FailSnapshot(m, snap, prior);
        return false;
      }
      var done := sys.libvirt.CreateInternalSnapshot(inst.value.name, c.callOk);
      if !done {
        FailSnapshot(m, snap, prior);
        return false;
      }
      sys.repo.UpdateSnapshotStatus(m.project, snap, SnapAvailable);
      Close(m, true, prior, prior);
      return true;
    }

    method FailSnapshot(m: TaskMessage, snap: Id, prior: InstanceState)
      requires m.instance.Some?
      modifies sys.repo`snapshots, sys.repo`instances, sys.repo`tasks
      ensures var w := old(sys.State());
        (sys.State(), false) == EndWith(w.(snapshots := SetSnapshot(w.snapshots, m.project, snap, SnapError)), m, false, prior, prior)
    {
      sys.repo.UpdateSnapshotStatus(m.project, snap, SnapError);
      Close(m, false, prior, prior);
    }

    method HandleSnapshotRevertTask(m: TaskMessage, c: Calls) returns (ok: bool)
      requires m.kind.SnapshotRevert? && Dispatchable(m) && sys.Valid()
      modifies sys.repo, sys.libvirt
      ensures sys.Valid() && (sys.State(), ok) == Handle(old(sys.State()), m, c)
    {
      var prior := m.prior.value;
      var found := MarkRunning(m);
      if !found {
        return false;
      }
      var target := RevertTarget(m.project, m.instance.value, m.snapshot.value);
      if target.None? {
        Close(m, false, prior, prior);
        return false;
      }
      ok := RevertAndClose(m, target.value.0, target.value.1, c);
    }

    /** The name of the instance, and whether it ran at the snapshot, when both are there and the snapshot is ready. */
    method RevertTarget(project: Id, i: Id, snap: Id) returns (target: Option<(string, bool)>)
      ensures target ==
        if HasSnapshotOf(sys.repo.snapshots, project, i, snap) && sys.repo.snapshots[snap].status.SnapAvailable?
           && HasInstance(sys.repo.instances, project, i)
        then Some((sys.repo.instances[i].name, sys.repo.snapshots[snap].domainWasRunning))
        else None
    {
      var row := sys.repo.GetSnapshot(project, i, snap);
      if row.None? {
        return None;
      }
      if !row.value.status.SnapAvailable? {
        return None;
      }
      var inst := sys.repo.GetInstance(project, i);
      if inst.None? {
        return None;
      }
      return Some((inst.value.name, row.value.domainWasRunning));
    }

    method RevertAndClose(m: TaskMessage, name: string, wasRunning: bool, c: Calls) returns (ok: bool)
      requires m.kind.SnapshotRevert? && Dispatchable(m) && sys.Valid()
      modifies sys.repo`instances, sys.repo`tasks, sys.libvirt
      ensures sys.Valid()
      ensures var w, prior := old(sys.State()), m.prior.value;
        var (domains, done) := Disks.RevertToInternalSnapshot(w.domains, Sanitized(name), wasRunning, prior.Running?, c.revert);
        (sys.State(), ok) == EndWith(w.(domains := domains), m, done, prior, prior)
    {
      var prior := m.prior.value;
      ok := sys.libvirt.RevertToInternalSnapshot(name, wasRunning, prior.Running?, c.revert);
      Close(m, ok, prior, prior);
    }

    /** Tears everything down that refers to the instance, then its domain, then its row. */
    method HandleDestroyTask(m: TaskMessage, c: Calls) returns (ok: bool)
      requires m.kind.InstanceDestroy? && m.instance.Some? && sys.Valid() && volumes.sys == sys
      modifies sys.repo, sys.libvirt, sys.ingress
      ensures sys.Valid() && (sys.State(), ok) == Handle(old(sys.State()), m, c)
    {
      var i := m.instance.value;
      var found := MarkRunning(m);
      if !found {
        return false;
      }
      var row := sys.repo.GetInstance(m.project, i);
      if row.None? {
        var _ := sys.repo.UpdateTaskStatus(m.project, m.task, Failed);
        return false;
      }
      ghost var begun := sys.State();
      TearDownReferences(m.project, i, row.value.name, c);
      hide TearDown, EndWith, DeleteVm, Control.FinalizeInstanceDestroy;
      ok := DeleteDomainAndRow(m, i, row.value.name, c);
      ghost var bare := TearDown(begun, m.project, i, c);
      FailedAfterDeleting(bare, m, DeleteVm(bare.domains, Sanitized(row.value.name), c.deletion).0);
    }

    method TearDownReferences(project: Id, i: Id, name: string, c: Calls)
      requires HasInstance(sys.repo.instances, project, i) && name == sys.repo.instances[i].name
      requires sys.Valid() && volumes.sys == sys
      modifies sys.repo`instances, sys.repo`volumes, sys.repo`fips, sys.libvirt, sys.ingress
      ensures sys.Valid()
      ensures var w := old(sys.State());
        sys.State() == TearDown(w, project, i, c).(instances := SetState(w.instances, project, i, Deleting))
    {
      var _ := sys.repo.UpdateInstanceState(project, i, Deleting);
      volumes.DetachAllFromInstanceForDestroy(project, i, name, c.detachOk);
      RemoveNatOfInstance(project, i, c.faults);
      sys.repo.ClearFloatingIpBindingsForInstance(project, i);
    }

    method DeleteDomainAndRow(m: TaskMessage, i: Id, name: string, c: Calls) returns (ok: bool)
      requires m.instance == Some(i) && sys.Valid()
      modifies sys.repo, sys.libvirt
      ensures sys.Valid()
      ensures var w := old(sys.State());
        var (domains, gone) := DeleteVm(w.domains, Sanitized(name), c.deletion);
        (sys.State(), ok) ==
          if gone then Control.FinalizeInstanceDestroy(w.(domains := domains), m.project, m.task, i)
          else EndWith(w.(domains := domains), m, false, Errored, Errored)
    {
      var gone := sys.libvirt.DeleteVm(name, c.deletion);
      if !gone {
        Close(m, false, Errored, Errored);
        return false;
      }
      ok := sys.repo.FinalizeInstanceDestroy(m.project, m.task, i);
    }

    /** One pair of delete commands for each active row of the instance. */
    method RemoveNatOfInstance(project: Id, i: Id, f: Faults)
      requires sys.Valid()
      modifies sys.ingress
      ensures sys.Valid()
      ensures sys.ingress.rules
           == RemoveEach(old(sys.ingress.rules), RulesOfAll(BindingsOf(sys.repo.fips, project, i)) - f.del)
    {
      var bindings := sys.repo.ListActiveNatBindingsByInstance(project, i);
      ghost var done: set<Binding> := {};
      RemoveEachOfNone(sys.ingress.rules);
      assert RulesOfAll(done) - f.del == {};
      for k := 0 to |bindings|
        invariant sys.Valid() && done == set b | b in bindings[..k]
        invariant sys.ingress.rules == RemoveEach(old(sys.ingress.rules), RulesOfAll(done) - f.del)
      {
        var b := bindings[k];
        assert bindings[..k + 1] == bindings[..k] + [b];
        assert b !in done;
        RemoveOnePair(old(sys.ingress.rules), done, b, f);
        sys.ingress.DisassociateIP(b, f);
        done := done + {b};
      }
      assert bindings[..|bindings|] == bindings;
      assert done == BindingsOf(sys.repo.fips, project, i);
    }

    /** Lists the domains and the rows, collects the updates, and sends them in batches. */
    method SyncHypervisorWithDb(unseen: set<string>)
      modifies sys.repo`instances
      ensures var w := old(sys.State()); sys.State() == w.(instances := SyncInstances(w.instances, w.domains - unseen))
    {
      hide ListsForSync, SyncInstances, ApplyAll, Sanitized;
      var libMap := sys.libvirt.ListDomainRunning(unseen);
      ghost var seen := sys.libvirt.domains - unseen;
      var rows := sys.repo.ListInstancesForHypervisorSync();
      PassSyncsTable(sys.repo.instances, rows, seen);
      var updates: seq<StateUpdate> := [];
      for k := 0 to |rows|
        invariant sys.repo.instances == old(sys.repo.instances)
        invariant updates == UpdatesFor(rows[..k], seen)
      {
        var row := rows[k];
        assert rows[..k + 1][..k] == rows[..k];
        if row.state.Creating? || row.state.Snapshotting? {
          continue;
        }
        var domName := SanitizeLibvirtName(row.name);
        var libRunning := domName in libMap && libMap[domName];
        var dbRunning := row.state.Running?;
        if libRunning == dbRunning {
          continue;
        }
        var newState := Stopped;
        if libRunning {
          newState := Running;
        }
        updates := updates + [StateUpdate(row.project, row.id, newState)];
      }
      assert rows[..|rows|] == rows;
      sys.repo.BatchUpdateInstanceStates(updates);
    }
  }

  lemma RestoredState(instances: map<Id, Instance>, project: Id, i: Id, busy: InstanceState)
    requires HasInstance(instances, project, i)
    ensures SetState(SetState(instances, project, i, busy), project, i, instances[i].state) == instances
  {
  }

  /** The intermediate state is overwritten on the way out. */
  lemma FailedAfterDeleting(w: World, m: TaskMessage, domains: Domains)
    requires m.instance.Some?
    ensures EndWith(w.(domains := domains, instances := SetState(w.instances, m.project, m.instance.value, Deleting)),
                    m, false, Errored, Errored)
         == EndWith(w.(domains := domains), m, false, Errored, Errored)
  {
    var i := m.instance.value;
    assert SetState(SetState(w.instances, m.project, i, Deleting), m.project, i, Errored)
        == SetState(w.instances, m.project, i, Errored);
  }

  lemma RemoveOnePair(rules: seq<Rule>, done: set<Binding>, b: Binding, f: Faults)
    requires b !in done
    ensures Disassociate(RemoveEach(rules, RulesOfAll(done) - f.del), b, f) == RemoveEach(rules, RulesOfAll(done + {b}) - f.del)
  {
    var d, s := Dnat(b.pub, b.priv), Snat(b.pub, b.priv);
    var gone := RulesOfAll(done) - f.del;
    assert d !in RulesOfAll(done) && s !in RulesOfAll(done);
    RemoveOne(rules, gone, d, f);
    var more := gone + ({d} - f.del);
    RemoveOne(rules, more, s, f);
    assert RulesOfAll(done + {b}) == RulesOfAll(done) + {d, s};
    assert more + ({s} - f.del) == RulesOfAll(done + {b}) - f.del;
  }

  lemma RemoveOne(rules: seq<Rule>, gone: set<Rule>, r: Rule, f: Faults)
    requires r !in gone
    ensures Delete(RemoveEach(rules, gone), r, f) == RemoveEach(rules, gone + ({r} - f.del))
  {
    if r in f.del {
      assert gone + ({r} - f.del) == gone;
    } else {
      assert {r} - f.del == {r};
      RemoveFirstAfterRemoveEach(rules, gone, r);
    }
  }
}
