/** What a handler's answer means for the rows, the host, and the next sync. */
module Outcomes {
  import opened Wrappers
  import opened HostNames
  import opened NatRules
  import opened Model
  import opened Disks
  import opened Control

  type InstanceTable = map<Id, Instance>

  /** The next sync would leave the instance as it is. */
  predicate InStep(w: World, i: Id) {
    i in w.instances && SyncInstances(w.instances, w.domains)[i] == w.instances[i]
  }

  /** Apart from the message's instance, its task and its domain, nothing of the sort changed. */
  ghost predicate OnlyIts(w: World, w': World, m: TaskMessage, name: string) {
    && (forall j :: j in w.instances && m.instance != Some(j) ==> j in w'.instances && w'.instances[j] == w.instances[j])
    && (forall t :: t in w.tasks && t != m.task ==> t in w'.tasks && w'.tasks[t] == w.tasks[t])
    && (forall n :: n in w.domains && n != name ==> n in w'.domains && w'.domains[n] == w.domains[n])
    && w'.volumes == w.volumes && w'.fips == w.fips && w'.rules == w.rules && w'.ipam == w.ipam
  }

  /** A field its task type needs is missing. */
  predicate LacksField(m: TaskMessage) {
    match m.kind
    case FipAssociate => m.fip.None? || m.instance.None?
    case FipDisassociate => m.pub.None? || m.priv.None?
    case SnapshotCreate => m.instance.None? || m.snapshot.None? || m.prior.None?
    case SnapshotRevert => m.instance.None? || m.snapshot.None? || m.prior.None?
    case _ => m.instance.None?
  }

  /** The message of a task that is there, for an instance that is there. */
  predicate ForInstance(w: World, m: TaskMessage) {
    m.instance.Some? && HasTask(w.tasks, m.project, m.task) && HasInstance(w.instances, m.project, m.instance.value)
  }

  /** The task row and the instance row after a handler, by its answer. */
  predicate ClosedAs(w': World, m: TaskMessage, i: Id, ok: bool, state: InstanceState) {
    && i in w'.instances && w'.instances[i].state == state
    && m.task in w'.tasks && w'.tasks[m.task].status == if ok then Succeeded else Failed
  }

  /** A handler's two last writes close the task and set the state. */
  lemma EndWithCloses(w: World, x: World, m: TaskMessage, name: string, ok: bool, good: InstanceState, bad: InstanceState)
    requires m.instance.Some? && HasTask(w.tasks, m.project, m.task) && HasInstance(w.instances, m.project, m.instance.value)
    requires x == w.(domains := x.domains, snapshots := x.snapshots)
    requires forall n :: n in w.domains && n != name ==> n in x.domains && x.domains[n] == w.domains[n]
    ensures var (w', r) := EndWith(x, m, ok, good, bad);
      && r == ok && w'.domains == x.domains && w'.snapshots == x.snapshots
      && ClosedAs(w', m, m.instance.value, ok, if ok then good else bad)
      && OnlyIts(w, w', m, name)
  {
  }

  // ---- Taking a message ----------------------------------------------------------------------------------

  /** An idle worker takes the oldest message and marks its task running, if it is one it can handle; nothing else changes. */
  lemma ReceiveOutcome(w: World)
    ensures var w' := ReceiveTask(w);
      if w.mq.inflight.Some? || w.mq.queue == [] then w' == w
      else
        var m := w.mq.queue[0].msg;
        && w'.mq == w.mq.(queue := w.mq.queue[1..], inflight := Some(w.mq.queue[0]))
        && w' == w.(mq := w'.mq, tasks := w'.tasks)
        && w'.tasks == (if m.task in w.tasks && w.tasks[m.task].project == m.project && !m.kind.UnknownKind? && !LacksField(m)
                        then w.tasks[m.task := w.tasks[m.task].(status := InProgress)] else w.tasks)
  {
  }

  // ---- Create ------------------------------------------------------------------------------------------

  /** Every call a new domain needs. */
  predicate AllCallsWork(domains: Domains, name: string, k: VmCalls) {
    && k.connect && k.files && k.define && k.start
    && (Found(domains, name, k.lookup) ==> k.isActive && k.undefine && (domains[name].running ==> k.stop))
  }

  lemma CreateVmOutcome(domains: Domains, name: string, i: Id, k: VmCalls)
    ensures var (domains', ok) := CreateVm(domains, name, i, k);
      && (ok <==> AllCallsWork(domains, name, k))
      && (ok ==> domains' == domains[name := Domain(true, map['a' := RootDisk(i)])])
      && (!ok && k.cleanUp && name !in domains ==> name !in domains')
      && (forall n :: n in domains && n != name ==> n in domains' && domains'[n] == domains[n])
  {
  }

  /** The calls that take away a domain that is found, up to its undefine. */
  predicate StopsFound(domains: Domains, name: string, k: VmCalls) {
    Found(domains, name, k.lookup) ==> k.isActive && (domains[name].running ==> k.stop)
  }

  /**
   * What a failed create leaves under its name: the old domain as it was, or stopped, or nothing, or the new domain on its
   * root disk, which runs only if a domain whose lookup failed ran and could not be stopped.
   */
  lemma FailedCreateVm(domains: Domains, name: string, i: Id, k: VmCalls)
    requires !CreateVm(domains, name, i, k).1
    ensures var after := CreateVm(domains, name, i, k).0; var found := name in domains && k.lookup;
      if !k.connect || !StopsFound(domains, name, k) then after == domains
      else if found && !k.undefine then name in after && after[name] == Domain(false, domains[name].disks)
      else if !(k.files && k.define) then if found then name !in after else after == domains
      else if k.cleanUp then !k.start && name !in after
      else
        && !k.start && name in after && after[name].disks == map['a' := RootDisk(i)]
        && (after[name].running <==> !found && name in domains && domains[name].running && !k.stop)
  {
  }

  /**
   * A create succeeds exactly when all its calls work. Then the instance runs on its root disk alone, its row says so,
   * and the next sync agrees; otherwise the row is in error, and a cleaned-up failure leaves no domain.
   */
  lemma CreateOutcome(w: World, m: TaskMessage, c: Calls)
    requires m.kind.InstanceCreate? && ForInstance(w, m)
    ensures var i := m.instance.value; var name := Sanitized(w.instances[i].name); var (w', ok) := FinishTask(w, m, c);
      && (ok <==> c.imageOk && AllCallsWork(w.domains, name, c.vm))
      && (ok ==> ClosedAs(w', m, i, true, Running) && InStep(w', i)
                 && w'.domains[name] == Domain(true, map['a' := RootDisk(i)]))
      && (!ok ==> ClosedAs(w', m, i, false, Errored))
      && (!ok && c.vm.cleanUp && name !in w.domains ==> name !in w'.domains)
      && OnlyIts(w, w', m, name)
  {
    var i := m.instance.value;
    var name := Sanitized(w.instances[i].name);
    CreateVmOutcome(w.domains, name, i, c.vm);
    hide CreateVm, AllCallsWork;
    var (domains, ok) := CreateVm(w.domains, name, i, c.vm);
    EndWithCloses(w, w, m, name, false, Running, Errored);
    EndWithCloses(w, w.(domains := domains), m, name, ok, Running, Errored);
    hide EndWith, OnlyIts;
  }

  // ---- Start, stop, reboot -------------------------------------------------------------------------------------

  lemma LifecycleEnds(w: World, m: TaskMessage, c: Calls)
    requires m.kind in {InstanceStart, InstanceStop, InstanceReboot} && ForInstance(w, m)
    ensures var i := m.instance.value; var name := Sanitized(w.instances[i].name); var (w', ok) := FinishTask(w, m, c);
      var (domains, done) := LifecycleCall(w.domains, m.kind, name, c.callOk);
      && w'.domains == domains && ok == done
      && ClosedAs(w', m, i, ok, if ok then WantState(m.kind) else Errored) && OnlyIts(w, w', m, name)
  {
    var i := m.instance.value;
    var name := Sanitized(w.instances[i].name);
    var (domains, ok) := LifecycleCall(w.domains, m.kind, name, c.callOk);
    EndWithCloses(w, w.(domains := domains), m, name, ok, WantState(m.kind), Errored);
    hide EndWith, OnlyIts, ClosedAs, Sanitized, HasTask;
  }

  /** A start succeeds exactly when the domain is there and the call works; then the domain and the row are running. */
  lemma StartOutcome(w: World, m: TaskMessage, c: Calls)
    requires m.kind.InstanceStart? && ForInstance(w, m)
    ensures var i := m.instance.value; var name := Sanitized(w.instances[i].name); var (w', ok) := FinishTask(w, m, c);
      && (ok <==> name in w.domains && c.callOk)
      && ClosedAs(w', m, i, ok, if ok then Running else Errored)
      && w'.domains == (if ok then w.domains[name := Domain(true, w.domains[name].disks)] else w.domains)
      && (ok ==> InStep(w', i)) && OnlyIts(w, w', m, name)
  {
    LifecycleEnds(w, m, c);
    hide FinishTask, Sanitized;
  }

  /** A stop only asks the guest: the row is stopped, the domain as it was, and they agree once the guest is down. */
  lemma StopOutcome(w: World, m: TaskMessage, c: Calls)
    requires m.kind.InstanceStop? && ForInstance(w, m)
    ensures var i := m.instance.value; var name := Sanitized(w.instances[i].name); var (w', ok) := FinishTask(w, m, c);
      && (ok <==> name in w.domains && c.callOk)
      && ClosedAs(w', m, i, ok, if ok then Stopped else Errored)
      && w'.domains == w.domains
      && (ok ==> (InStep(w', i) <==> !w.domains[name].running)) && OnlyIts(w, w', m, name)
  {
    LifecycleEnds(w, m, c);
    hide FinishTask, Sanitized;
  }

  /** A reboot needs a running domain, and leaves it and the row running. */
  lemma RebootOutcome(w: World, m: TaskMessage, c: Calls)
    requires m.kind.InstanceReboot? && ForInstance(w, m)
    ensures var i := m.instance.value; var name := Sanitized(w.instances[i].name); var (w', ok) := FinishTask(w, m, c);
      && (ok <==> name in w.domains && w.domains[name].running && c.callOk)
      && ClosedAs(w', m, i, ok, if ok then Running else Errored)
      && w'.domains == w.domains
      && (ok ==> InStep(w', i)) && OnlyIts(w, w', m, name)
  {
    LifecycleEnds(w, m, c);
    hide FinishTask, Sanitized;
  }

  predicate FailsSnapshot(m: TaskMessage, s: Id, row: Snapshot) {
    m.kind.SnapshotCreate? && m.snapshot == Some(s) && row.project == m.project
  }

  /** Any task of an instance that is gone fails, and nothing else happens but that a snapshot row goes to error. */
  lemma GoneInstanceOutcome(w: World, m: TaskMessage, c: Calls)
    requires m.kind in {InstanceCreate, InstanceStart, InstanceStop, InstanceReboot, InstanceDestroy, SnapshotCreate, SnapshotRevert}
    requires !LacksField(m) && HasTask(w.tasks, m.project, m.task) && !HasInstance(w.instances, m.project, m.instance.value)
    ensures var (w', ok) := FinishTask(w, m, c);
      && !ok && w'.tasks == w.tasks[m.task := w.tasks[m.task].(status := Failed)]
      && w' == w.(tasks := w'.tasks, snapshots := w'.snapshots)
      && w'.snapshots.Keys == w.snapshots.Keys
      && (forall s :: s in w.snapshots && !FailsSnapshot(m, s, w.snapshots[s]) ==> w'.snapshots[s] == w.snapshots[s])
      && (forall s :: s in w.snapshots && FailsSnapshot(m, s, w.snapshots[s]) ==>
            w'.snapshots[s] == w.snapshots[s].(status := SnapError))
  {
  }

  // ---- Snapshots -------------------------------------------------------------------------------------------------

  /** Whatever happens, the prior state comes back; the snapshot is available exactly when it was made. */
  lemma SnapshotCreateOutcome(w: World, m: TaskMessage, c: Calls)
    requires m.kind.SnapshotCreate? && !LacksField(m) && ForInstance(w, m)
    ensures var i, snap := m.instance.value, m.snapshot.value; var name := Sanitized(w.instances[i].name);
      var (w', ok) := FinishTask(w, m, c);
      && (ok <==> HasSnapshotOf(w.snapshots, m.project, i, snap) && name in w.domains && c.callOk)
      && ClosedAs(w', m, i, ok, m.prior.value) && w'.domains == w.domains
      && (HasSnapshotOf(w.snapshots, m.project, i, snap) ==>
          snap in w'.snapshots && w'.snapshots[snap].status == if ok then SnapAvailable else SnapError)
      && (forall s :: s in w.snapshots && s != snap ==> s in w'.snapshots && w'.snapshots[s] == w.snapshots[s])
      && OnlyIts(w, w', m, name)
  {
    var i, snap, prior := m.instance.value, m.snapshot.value, m.prior.value;
    var name := Sanitized(w.instances[i].name);
    EndWithCloses(w, w.(snapshots := SetSnapshot(w.snapshots, m.project, snap, SnapError)), m, name, false, prior, prior);
    EndWithCloses(w, w.(snapshots := SetSnapshot(w.snapshots, m.project, snap, SnapAvailable)), m, name, true, prior, prior);
    hide EndWith, OnlyIts, ClosedAs;
  }

  /** The revert itself was made. */
  predicate Reverted(w: World, m: TaskMessage, k: RevertCalls)
    requires m.kind.SnapshotRevert? && !LacksField(m) && HasInstance(w.instances, m.project, m.instance.value)
  {
    var i, snap := m.instance.value, m.snapshot.value;
    && HasSnapshotOf(w.snapshots, m.project, i, snap) && w.snapshots[snap].status.SnapAvailable?
    && Sanitized(w.instances[i].name) in w.domains && k.revert
  }

  /**
   * A revert also gives the prior state back. When it succeeds the guest runs if it ran at the snapshot or before the
   * revert, or came up on its own, so row and host agree exactly when the prior state was running or none of the other two
   * holds. A failure after the revert itself leaves the domain reverted, as up as the revert left it.
   */
  lemma SnapshotRevertOutcome(w: World, m: TaskMessage, c: Calls)
    requires m.kind.SnapshotRevert? && !LacksField(m) && ForInstance(w, m) && m.prior.value in {Running, Stopped}
    ensures var i, snap, prior, k := m.instance.value, m.snapshot.value, m.prior.value, c.revert;
      var name := Sanitized(w.instances[i].name); var (w', ok) := FinishTask(w, m, c);
      && (ok <==> Reverted(w, m, k)
                  && (w.snapshots[snap].domainWasRunning || prior.Running? ==> k.isActive && (k.up || k.start)))
      && ClosedAs(w', m, i, ok, prior) && w'.snapshots == w.snapshots
      && (ok ==> (RunsOnHost(w'.domains, name) <==> w.snapshots[snap].domainWasRunning || prior.Running? || k.up)
                 && (InStep(w', i) <==> prior.Running? || !(w.snapshots[snap].domainWasRunning || k.up)))
      && (!ok ==> w'.domains == if Reverted(w, m, k) then w.domains[name := w.domains[name].(running := k.up)] else w.domains)
      && OnlyIts(w, w', m, name)
  {
    var i, snap, prior := m.instance.value, m.snapshot.value, m.prior.value;
    var name := Sanitized(w.instances[i].name);
    EndWithCloses(w, w, m, name, false, prior, prior);
    if HasSnapshotOf(w.snapshots, m.project, i, snap) {
      var (domains, ok) := RevertToInternalSnapshot(
        w.domains, name, w.snapshots[snap].domainWasRunning, prior.Running?, c.revert);
      EndWithCloses(w, w.(domains := domains), m, name, ok, prior, prior);
    }
    hide EndWith, OnlyIts;
  }

  // ---- Floating IPs ----------------------------------------------------------------------------------------------

  /**
   * An association adds rules only for a row that is still active and bound to the instance of the message. It succeeds
   * exactly when no command that was needed fails; then both rules are there, and no other rule changed.
   */
  lemma AssociateOutcome(w: World, m: TaskMessage, c: Calls)
    requires m.kind.FipAssociate? && !LacksField(m) && HasTask(w.tasks, m.project, m.task)
    ensures var f := m.fip.value; var (w', ok) := FinishTask(w, m, c);
      var bound := f in w.fips && w.fips[f].project == Some(m.project) && w.fips[f].status == Active
                   && w.fips[f].instance == m.instance && w.fips[f].priv.Some?;
      && w' == w.(tasks := w.tasks[m.task := w.tasks[m.task].(status := if ok then Succeeded else Failed)], rules := w'.rules)
      && (!bound ==> !ok && w'.rules == w.rules)
      && (bound ==>
            var d, s := Dnat(w.fips[f].pub, w.fips[f].priv.value), Snat(w.fips[f].pub, w.fips[f].priv.value);
            && (ok <==> d !in c.faults.check && s !in c.faults.check
                        && (d in w.rules || d !in c.faults.add) && (s in w.rules || s !in c.faults.add))
            && (ok ==> w'.rules == w.rules + (if d in w.rules then [] else [d]) + (if s in w.rules then [] else [s]))
            && (!ok ==> w'.rules == w.rules || w'.rules == w.rules + [d]))
  {
  }

  /** A disassociation always succeeds; its pair is gone exactly as far as the deletes worked. */
  lemma DisassociateOutcome(w: World, m: TaskMessage, c: Calls)
    requires m.kind.FipDisassociate? && !LacksField(m) && HasTask(w.tasks, m.project, m.task) && AtMostOnce(w.rules)
    ensures var b := Binding(m.pub.value, m.priv.value); var (w', ok) := FinishTask(w, m, c);
      && ok && w' == w.(tasks := w.tasks[m.task := w.tasks[m.task].(status := Succeeded)], rules := w'.rules)
      && (forall r :: r in RulesOf(b) ==> (r in w'.rules <==> r in w.rules && r in c.faults.del))
      && (forall r :: r !in RulesOf(b) ==> Count(w'.rules, r) == Count(w.rules, r))
  {
    DisassociateLeaves(w.rules, Binding(m.pub.value, m.priv.value), c.faults);
  }

  // ---- Messages no handler takes -----------------------------------------------------------------------------------

  /** Without a field or its task row a message fails and without a known type it succeeds; either way nothing changes. */
  lemma UnhandledOutcome(w: World, m: TaskMessage, c: Calls)
    requires LacksField(m) || m.kind.UnknownKind? || m.task !in w.tasks || w.tasks[m.task].project != m.project
    ensures Handle(w, m, c) == (w, m.kind.UnknownKind? && !LacksField(m))
  {
    hide FinishCreate, FinishLifecycle, FinishDestroy, FinishSnapshotCreate, FinishSnapshotRevert, FinishAssociate, FinishDisassociate;
  }

  // ---- Sweeping --------------------------------------------------------------------------------------------------

  /** A sweep fails exactly the chosen tasks that are running, and puts exactly the instances these name into error. */
  lemma SweepOutcome(w: World, stale: set<Id>, t: Id, i: Id)
    requires t in w.tasks && i in w.instances
    ensures var tasks', instances' := SweepTasks(w.tasks, stale), SweepInstances(w.instances, w.tasks, stale);
      var swept := t in stale && w.tasks[t].status == InProgress;
      && tasks'.Keys == w.tasks.Keys && instances'.Keys == w.instances.Keys
      && tasks'[t] == w.tasks[t].(status := if swept then Failed else w.tasks[t].status)
      && (instances'[i] == w.instances[i] || instances'[i] == w.instances[i].(state := Errored))
      && (swept && w.tasks[t].instance == Some(i) && w.tasks[t].project == w.instances[i].project ==> instances'[i].state == Errored)
      && (instances'[i] != w.instances[i] ==>
            exists u :: u in w.tasks && u in stale && w.tasks[u].status == InProgress
                        && w.tasks[u].instance == Some(i) && w.tasks[u].project == w.instances[i].project)
  {
    if t in stale && w.tasks[t].status == InProgress && w.tasks[t].instance == Some(i) && w.tasks[t].project == w.instances[i].project {
      assert Stuck(w.tasks, stale, t);
      assert HasStuckTask(w.tasks, stale, w.instances[i].project, i);
    }
  }
}
