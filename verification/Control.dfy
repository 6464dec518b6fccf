/** What each API request and each worker handler does to the state of the control plane. */
module Control {
  import opened Wrappers
  import opened Text
  import opened HostNames
  import opened NatRules
  import opened Model
  import opened Messages
  import opened Ipam
  import opened FipRows
  import opened Disks

  /** Everything the pieces of the system keep, each its own copy. `used` holds every identifier ever issued. */
  datatype World = World(
    ipam: Tables, instances: map<Id, Instance>, tasks: map<Id, Task>, snapshots: map<Id, Snapshot>,
    volumes: map<Id, Volume>, fips: map<Id, FloatingIp>, domains: Domains, rules: seq<Rule>,
    mq: Mq, used: set<Id>)

  // ---- Guarded updates of one row ------------------------------------------------------------------

  predicate HasTask(tasks: map<Id, Task>, project: Id, t: Id) {
    t in tasks && tasks[t].project == project
  }

  predicate HasInstance(instances: map<Id, Instance>, project: Id, i: Id) {
    i in instances && instances[i].project == project
  }

  predicate HasSnapshot(snapshots: map<Id, Snapshot>, project: Id, s: Id) {
    s in snapshots && snapshots[s].project == project
  }

  function SetTask(tasks: map<Id, Task>, project: Id, t: Id, status: TaskStatus): map<Id, Task> {
    if HasTask(tasks, project, t) then tasks[t := tasks[t].(status := status)] else tasks
  }

  function SetState(instances: map<Id, Instance>, project: Id, i: Id, state: InstanceState): map<Id, Instance> {
    if HasInstance(instances, project, i) then instances[i := instances[i].(state := state)] else instances
  }

  function SetSnapshot(snapshots: map<Id, Snapshot>, project: Id, s: Id, status: SnapshotStatus): map<Id, Snapshot> {
    if HasSnapshot(snapshots, project, s) then snapshots[s := snapshots[s].(status := status)] else snapshots
  }

  // ---- Messages of the task types ---------------------------------------------------------------------

  function InstanceMessage(task: Id, kind: TaskKind, project: Id, i: Id): TaskMessage {
    TaskMessage(task, kind, project, Some(i), None, None, None, None, None)
  }

  function SnapshotMessage(task: Id, kind: TaskKind, project: Id, i: Id, snap: Id, prior: InstanceState): TaskMessage {
    TaskMessage(task, kind, project, Some(i), Some(snap), Some(prior), None, None, None)
  }

  function AssociateMessage(task: Id, project: Id, i: Id, f: Id, b: Binding): TaskMessage {
    TaskMessage(task, FipAssociate, project, Some(i), None, None, Some(f), Some(b.pub), Some(b.priv))
  }

  function DisassociateMessage(task: Id, project: Id, f: Id, b: Binding): TaskMessage {
    TaskMessage(task, FipDisassociate, project, None, None, None, Some(f), Some(b.pub), Some(b.priv))
  }

  /** Inserts the task row and publishes its message; a failed publish marks the task failed. */
  function Enqueue(w: World, m: TaskMessage, pubOk: bool): World {
    var task := Task(m.kind, m.project, m.instance, if pubOk then Pending else Failed);
    w.(tasks := w.tasks[m.task := task], mq := if pubOk then PublishTask(w.mq, m) else w.mq)
  }

  function Answer(pubOk: bool): Reply {
    if pubOk then Accepted else Refused(PublishFailed)
  }

  // ---- Requests -------------------------------------------------------------------------------------------

  ghost function RequestCreate(w: World, r: CreateRequest, pubOk: bool): (World, Reply) {
    if !r.imageOk then (w, Refused(NotFound))
    else if !r.dataOk then (w, Refused(BadRequest))
    else if !(r.network in w.ipam.networks && w.ipam.networks[r.network].project == r.project) then (w, Refused(NotFound))
    else
      match CreateInstanceWithIpam(w.ipam, w.instances, r)
      case RolledBack(fault) => (w, Refused(fault))
      case Committed(ipam, instances) =>
        var created := w.(ipam := ipam,
                          instances := if pubOk then instances else SetState(instances, r.project, r.instance, Errored));
        (Enqueue(created, InstanceMessage(r.task, InstanceCreate, r.project, r.instance), pubOk), Answer(pubOk))
  }

  datatype Action = Start | Stop | Reboot | Destroy

  function ParseAction(action: string): Option<Action> {
    var word := ToLower(TrimSpace(action));
    if word == "start" then Some(Start)
    else if word == "stop" then Some(Stop)
    else if word == "reboot" then Some(Reboot)
    else if word == "destroy" then Some(Destroy)
    else None
  }

  function TaskKindFor(a: Action): TaskKind {
    match a
    case Start => InstanceStart
    case Stop => InstanceStop
    case Reboot => InstanceReboot
    case Destroy => InstanceDestroy
  }

  predicate ActionAllowed(state: InstanceState, a: Action) {
    match a
    case Start => state.Stopped? || state.Errored?
    case Stop => state.Running?
    case Reboot => state.Running?
    case Destroy => !state.Creating? && !state.Deleting? && !state.Snapshotting?
  }

  predicate HasVolumes(volumes: map<Id, Volume>, project: Id, i: Id) {
    exists v :: v in volumes && AttachedTo(volumes, project, i, v)
  }

  function RequestAction(w: World, project: Id, i: Id, action: string, task: Id, pubOk: bool): (World, Reply) {
    RequestParsed(w, project, i, ParseAction(action), task, pubOk)
  }

  function RequestParsed(w: World, project: Id, i: Id, a: Option<Action>, task: Id, pubOk: bool): (World, Reply) {
    if a.None? then (w, Refused(InvalidAction))
    else if !HasInstance(w.instances, project, i) then (w, Refused(NotFound))
    else if !ActionAllowed(w.instances[i].state, a.value) then (w, Refused(InvalidTransition))
    else if a.value.Destroy? && HasVolumes(w.volumes, project, i) then (w, Refused(HasAttachedVolumes))
    else (Enqueue(w, InstanceMessage(task, TaskKindFor(a.value), project, i), pubOk), Answer(pubOk))
  }

  predicate SnapshotNameTaken(snapshots: map<Id, Snapshot>, i: Id, name: string) {
    exists s :: s in snapshots && snapshots[s].instance == i && snapshots[s].name == name
  }

  predicate CanSnapshot(state: InstanceState) {
    state.Running? || state.Stopped?
  }

  function RequestSnapshotCreate(w: World, project: Id, i: Id, name: string, snap: Id, task: Id, pubOk: bool): (World, Reply) {
    var title := TrimSpace(name);
    if title == "" then (w, Refused(BadRequest))
    else if !HasInstance(w.instances, project, i) then (w, Refused(NotFound))
    else if !CanSnapshot(w.instances[i].state) then (w, Refused(SnapshotConflict))
    else if snap in w.snapshots || SnapshotNameTaken(w.snapshots, i, title) then (w, Refused(SnapshotNameConflict))
    else
      var prior := w.instances[i].state;
      var row := Snapshot(project, i, title, if pubOk then SnapCreating else SnapError, prior.Running?);
      var begun := w.(snapshots := w.snapshots[snap := row],
                      instances := if pubOk then SetState(w.instances, project, i, Snapshotting) else w.instances);
      (Enqueue(begun, SnapshotMessage(task, SnapshotCreate, project, i, snap, prior), pubOk), Answer(pubOk))
  }

  predicate HasSnapshotOf(snapshots: map<Id, Snapshot>, project: Id, i: Id, s: Id) {
    HasSnapshot(snapshots, project, s) && snapshots[s].instance == i
  }

  function RequestSnapshotRevert(w: World, project: Id, i: Id, snap: Id, task: Id, pubOk: bool): (World, Reply) {
    if !HasSnapshotOf(w.snapshots, project, i, snap) then (w, Refused(NotFound))
    else if !w.snapshots[snap].status.SnapAvailable? then (w, Refused(SnapshotNotReady))
    else if !HasInstance(w.instances, project, i) then (w, Refused(NotFound))
    else if !CanSnapshot(w.instances[i].state) then (w, Refused(SnapshotConflict))
    else
      var prior := w.instances[i].state;
      var begun := w.(instances := if pubOk then SetState(w.instances, project, i, Snapshotting) else w.instances);
      (Enqueue(begun, SnapshotMessage(task, SnapshotRevert, project, i, snap, prior), pubOk), Answer(pubOk))
  }

  /** A failed publish rolls the binding back. */
  function RequestAssociate(w: World, project: Id, f: Id, i: Id, task: Id, pubOk: bool): (World, Reply) {
    var (fips, reply) := TryAssociate(w.fips, w.instances, project, f, i);
    if reply.Refused? then (w, reply)
    else
      var b := Binding(w.fips[f].pub, w.instances[i].ipv4.value);
      var bound := w.(fips := if pubOk then fips else Rollback(fips, project, f));
      (Enqueue(bound, AssociateMessage(task, project, i, f, b), pubOk), Answer(pubOk))
  }

  /** The row is cleared first and stays cleared when the publish fails. */
  function RequestDisassociate(w: World, project: Id, f: Id, task: Id, pubOk: bool): (World, Reply) {
    var (fips, taken) := TakeDisassociate(w.fips, project, f);
    if taken.None? then (w, Refused(NotFound))
    else (Enqueue(w.(fips := fips), DisassociateMessage(task, project, f, taken.value), pubOk), Answer(pubOk))
  }

  // ---- Handlers ---------------------------------------------------------------------------------------------

  /** How the calls made by one handler run end. */
  datatype Calls = Calls(
    imageOk: bool, vm: VmCalls, callOk: bool, detachOk: set<Id>, deletion: DeleteCalls, revert: RevertCalls,
    faults: Faults, pubOk: bool)

  /** The fields a task type needs are present. */
  predicate Dispatchable(m: TaskMessage) {
    match m.kind
    case FipAssociate => m.fip.Some? && m.instance.Some?
    case FipDisassociate => m.pub.Some? && m.priv.Some?
    case SnapshotCreate => m.instance.Some? && m.snapshot.Some? && m.prior.Some?
    case SnapshotRevert => m.instance.Some? && m.snapshot.Some? && m.prior.Some?
    case _ => m.instance.Some?
  }

  /** Whether a handler starts at all: it first marks its task as running. */
  predicate Begins(w: World, m: TaskMessage) {
    Dispatchable(m) && !m.kind.UnknownKind? && HasTask(w.tasks, m.project, m.task)
  }

  function BeginTask(w: World, m: TaskMessage): World {
    if Begins(w, m) then w.(tasks := SetTask(w.tasks, m.project, m.task, InProgress)) else w
  }

  function FailTask(w: World, m: TaskMessage): (World, bool) {
    (w.(tasks := SetTask(w.tasks, m.project, m.task, Failed)), false)
  }

  function EndTask(w: World, m: TaskMessage): (World, bool) {
    (w.(tasks := SetTask(w.tasks, m.project, m.task, Succeeded)), true)
  }

  /** Ends a handler that sets the instance's state on both ways out. */
  function EndWith(w: World, m: TaskMessage, ok: bool, onSuccess: InstanceState, onFailure: InstanceState): (World, bool)
    requires m.instance.Some?
  {
    var w' := w.(instances := SetState(w.instances, m.project, m.instance.value, if ok then onSuccess else onFailure));
    if ok then EndTask(w', m) else FailTask(w', m)
  }

  /** The hypervisor call of a lifecycle task. */
  function LifecycleCall(domains: Domains, kind: TaskKind, name: string, callOk: bool): (Domains, bool) {
    match kind
    case InstanceStart => StartVm(domains, name, callOk)
    case InstanceStop => GracefulShutdown(domains, name, callOk)
    case _ => RebootVm(domains, name, callOk)
  }

  function WantState(kind: TaskKind): InstanceState {
    if kind.InstanceStop? then Stopped else Running
  }

  function FinishLifecycle(w: World, m: TaskMessage, c: Calls): (World, bool)
    requires m.instance.Some?
  {
    var i := m.instance.value;
    if !HasInstance(w.instances, m.project, i) then FailTask(w, m)
    else
      var (domains, ok) := LifecycleCall(w.domains, m.kind, Sanitized(w.instances[i].name), c.callOk);
      EndWith(w.(domains := domains), m, ok, WantState(m.kind), Errored)
  }

  function FinishCreate(w: World, m: TaskMessage, c: Calls): (World, bool)
    requires m.instance.Some?
  {
    var i := m.instance.value;
    if !HasInstance(w.instances, m.project, i) then FailTask(w, m)
    else if !c.imageOk then EndWith(w, m, false, Running, Errored)
    else
      var (domains, ok) := CreateVm(w.domains, Sanitized(w.instances[i].name), i, c.vm);
      EndWith(w.(domains := domains), m, ok, Running, Errored)
  }

  /** Every way out restores the state the instance had before the request. */
  function FinishSnapshotCreate(w: World, m: TaskMessage, c: Calls): (World, bool)
    requires m.instance.Some? && m.snapshot.Some? && m.prior.Some?
  {
    var i, snap, prior := m.instance.value, m.snapshot.value, m.prior.value;
    if !HasSnapshotOf(w.snapshots, m.project, i, snap) || !HasInstance(w.instances, m.project, i) then
      EndWith(w.(snapshots := SetSnapshot(w.snapshots, m.project, snap, SnapError)), m, false, prior, prior)
    else
      var (domains, ok) := CreateInternalSnapshot(w.domains, Sanitized(w.instances[i].name), c.callOk);
      var status := if ok then SnapAvailable else SnapError;
      EndWith(w.(domains := domains, snapshots := SetSnapshot(w.snapshots, m.project, snap, status)), m, ok, prior, prior)
  }

  function FinishSnapshotRevert(w: World, m: TaskMessage, c: Calls): (World, bool)
    requires m.instance.Some? && m.snapshot.Some? && m.prior.Some?
  {
    var i, snap, prior := m.instance.value, m.snapshot.value, m.prior.value;
    if !HasSnapshotOf(w.snapshots, m.project, i, snap) || !w.snapshots[snap].status.SnapAvailable?
       || !HasInstance(w.instances, m.project, i)
    then EndWith(w, m, false, prior, prior)
    else
      var (domains, ok) := RevertToInternalSnapshot(
        w.domains, Sanitized(w.instances[i].name), w.snapshots[snap].domainWasRunning, prior.Running?, c.revert);
      EndWith(w.(domains := domains), m, ok, prior, prior)
  }

  function FinishAssociate(w: World, m: TaskMessage, c: Calls): (World, bool)
    requires m.instance.Some? && m.fip.Some?
  {
    var f := m.fip.value;
    if !(IsActiveOf(w.fips, m.project, f) && w.fips[f].instance == m.instance && w.fips[f].priv.Some?) then FailTask(w, m)
    else
      var (rules, ok) := Associate(w.rules, BindingOf(w.fips[f]), c.faults);
      if ok then EndTask(w.(rules := rules), m) else FailTask(w.(rules := rules), m)
  }

  function FinishDisassociate(w: World, m: TaskMessage, c: Calls): (World, bool)
    requires m.pub.Some? && m.priv.Some?
  {
    EndTask(w.(rules := Disassociate(w.rules, Binding(m.pub.value, m.priv.value), c.faults)), m)
  }

  // ---- Destroy ------------------------------------------------------------------------------------------------

  /** Everything that refers to the instance is torn down before its domain and its row. */
  function TearDown(w: World, project: Id, i: Id, c: Calls): World
    requires i in w.instances
  {
    var gone := RulesOfAll(BindingsOf(w.fips, project, i)) - c.faults.del;
    w.(volumes := DetachAllRows(w.volumes, project, i),
       domains := DetachAllDisks(w.volumes, w.domains, Sanitized(w.instances[i].name), project, i, c.detachOk),
       rules := RemoveEach(w.rules, gone),
       fips := ClearOfProject(w.fips, project, i))
  }

  /** Restricting foreign keys forbid deleting an instance that a volume or floating IP row names. */
  predicate DeleteBlocked(volumes: map<Id, Volume>, fips: map<Id, FloatingIp>, i: Id) {
    || (exists v :: v in volumes && volumes[v].instance == Some(i))
    || (exists f :: f in fips && fips[f].instance == Some(i))
  }

  /** Tasks outlive their instance; the column is set to null. */
  function ForgetInstance(tasks: map<Id, Task>, i: Id): map<Id, Task> {
    map t | t in tasks :: if tasks[t].instance == Some(i) then tasks[t].(instance := None) else tasks[t]
  }

  function SnapshotsWithout(snapshots: map<Id, Snapshot>, i: Id): map<Id, Snapshot> {
    map s | s in snapshots && snapshots[s].instance != i :: snapshots[s]
  }

  /** One transaction: succeed the task, clear bindings, delete the instance with its cascades; or nothing. */
  function FinalizeInstanceDestroy(w: World, project: Id, t: Id, i: Id): (World, bool) {
    var fips := ClearOfInstance(w.fips, i);
    if !HasTask(w.tasks, project, t) then (w, false)
    else if !HasInstance(w.instances, project, i) || DeleteBlocked(w.volumes, fips, i) then (w, false)
    else
      (w.(tasks := ForgetInstance(SetTask(w.tasks, project, t, Succeeded), i),
          fips := fips,
          instances := w.instances - {i},
          ipam := Release(w.ipam, i),
          snapshots := SnapshotsWithout(w.snapshots, i)), true)
  }

  function FinishDestroy(w: World, m: TaskMessage, c: Calls): (World, bool)
    requires m.instance.Some?
  {
    var i := m.instance.value;
    if !HasInstance(w.instances, m.project, i) then FailTask(w, m)
    else
      var bare := TearDown(w, m.project, i, c);
      var (domains, ok) := DeleteVm(bare.domains, Sanitized(w.instances[i].name), c.deletion);
      if !ok then EndWith(bare.(domains := domains), m, false, Errored, Errored)
      else
        var deleting := bare.(domains := domains, instances := SetState(bare.instances, m.project, i, Deleting));
        FinalizeInstanceDestroy(deleting, m.project, m.task, i)
  }

  // ---- Dispatch -------------------------------------------------------------------------------------------------

  /** A handler from the point where its task is marked running. */
  function FinishTask(w: World, m: TaskMessage, c: Calls): (World, bool) {
    if !Dispatchable(m) || (!m.kind.UnknownKind? && !HasTask(w.tasks, m.project, m.task)) then (w, false)
    else
      match m.kind
      case InstanceCreate => FinishCreate(w, m, c)
      case InstanceStart => FinishLifecycle(w, m, c)
      case InstanceStop => FinishLifecycle(w, m, c)
      case InstanceReboot => FinishLifecycle(w, m, c)
      case InstanceDestroy => FinishDestroy(w, m, c)
      case SnapshotCreate => FinishSnapshotCreate(w, m, c)
      case SnapshotRevert => FinishSnapshotRevert(w, m, c)
      case FipAssociate => FinishAssociate(w, m, c)
      case FipDisassociate => FinishDisassociate(w, m, c)
      case UnknownKind => (w, true)
  }

  /** A handler from its first statement on. */
  function Handle(w: World, m: TaskMessage, c: Calls): (World, bool) {
    FinishTask(BeginTask(w, m), m, c)
  }

  function Marked(w: World, m: TaskMessage): World {
    w.(tasks := SetTask(w.tasks, m.project, m.task, InProgress))
  }

  /** Taking a message and marking its task. */
  function ReceiveTask(w: World): World {
    var mq := Receive(w.mq);
    if w.mq.inflight.None? && mq.inflight.Some? then BeginTask(w.(mq := mq), mq.inflight.value.msg)
    else w
  }

  /** The rest of the handler, then acknowledge, retry or bury. */
  function FinishDelivery(w: World, c: Calls): World {
    if w.mq.inflight.None? then w
    else
      var d := w.mq.inflight.value;
      var (w', ok) := FinishTask(w, d.msg, c);
      w'.(mq := FinalizeDelivery(w'.mq, d, ok, c.pubOk))
  }

  // ---- Background passes ------------------------------------------------------------------------------------------

  function SyncedState(state: InstanceState, runs: bool): InstanceState {
    if state.Creating? || state.Snapshotting? || state.Deleting? then state
    else if runs == state.Running? then state
    else if runs then Running
    else Stopped
  }

  function SyncInstances(instances: map<Id, Instance>, domains: Domains): map<Id, Instance> {
    map i | i in instances ::
      instances[i].(state := SyncedState(instances[i].state, RunsOnHost(domains, Sanitized(instances[i].name))))
  }

  /** Tasks found stuck in progress fail, and their instances go to error. */
  predicate Stuck(tasks: map<Id, Task>, stale: set<Id>, t: Id) {
    t in stale && t in tasks && tasks[t].status.InProgress?
  }

  predicate HasStuckTask(tasks: map<Id, Task>, stale: set<Id>, project: Id, i: Id) {
    exists t :: t in stale && Stuck(tasks, stale, t) && tasks[t].project == project && tasks[t].instance == Some(i)
  }

  function SweepTasks(tasks: map<Id, Task>, stale: set<Id>): map<Id, Task> {
    map t | t in tasks :: if Stuck(tasks, stale, t) then tasks[t].(status := Failed) else tasks[t]
  }

  function SweepInstances(instances: map<Id, Instance>, tasks: map<Id, Task>, stale: set<Id>): map<Id, Instance> {
    map i | i in instances ::
      if HasStuckTask(tasks, stale, instances[i].project, i) then instances[i].(state := Errored) else instances[i]
  }
}
