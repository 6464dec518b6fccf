/** Steps of the whole system and runs made of them. */
module System {
  import opened Wrappers
  import opened HostNames
  import opened NatRules
  import opened Model
  import opened Messages
  import opened Ipam
  import opened FipRows
  import opened Disks
  import opened Control

  datatype Step =
    // API requests
    | NewNetwork(network: Id, net: Network)
    | NewInstance(req: CreateRequest, pubOk: bool)
    | InstanceAction(project: Id, instance: Id, action: string, task: Id, pubOk: bool)
    | TakeSnapshot(project: Id, instance: Id, name: string, snap: Id, task: Id, pubOk: bool)
    | RevertSnapshot(project: Id, instance: Id, snap: Id, task: Id, pubOk: bool)
    | AllocateFip(project: Id)
    | AssociateFip(project: Id, fip: Id, instance: Id, task: Id, pubOk: bool)
    | DisassociateFip(project: Id, fip: Id, task: Id, pubOk: bool)
    | NewVolume(project: Id, vol: Id, name: string, fileOk: bool)
    | DropVolume(project: Id, vol: Id)
    | AttachVolume(project: Id, instance: Id, vol: Id, attach: AttachCalls)
    | DetachVolume(project: Id, instance: Id, vol: Id, callOk: bool)
    // the worker
    | ReceiveStep
    | FinishStep(calls: Calls)
    // passes beside it
    | SyncStep(unseen: set<string>)
    | ReconcileStep(rows: seq<Binding>, faults: Faults)
    | SweepStep(stale: set<Id>)
    // the host
    | GuestPower(domain: string, running: bool)

  /** Identifiers a step draws. */
  function NewIds(s: Step): set<Id> {
    match s
    case NewNetwork(n, _) => {n}
    case NewInstance(r, _) => {r.instance, r.task}
    case InstanceAction(_, _, _, t, _) => {t}
    case TakeSnapshot(_, _, _, snap, t, _) => {snap, t}
    case RevertSnapshot(_, _, _, t, _) => {t}
    case AssociateFip(_, _, _, t, _) => {t}
    case DisassociateFip(_, _, t, _) => {t}
    case NewVolume(_, v, _, _) => {v}
    case _ => {}
  }

  /** A listing of database rows, in whatever order they come. */
  ghost predicate Lists(rows: seq<Binding>, all: set<Binding>) {
    && (forall x :: x in rows <==> x in all)
    && (forall i, j :: 0 <= i < j < |rows| ==> rows[i] != rows[j])
  }

  /** Identifiers are new, domain names of live instances stay distinct, and listings are complete. */
  ghost predicate Enabled(w: World, s: Step) {
    && NewIds(s) !! w.used
    && (s.NewInstance? ==>
        && s.req.instance != s.req.task
        && forall i :: i in w.instances ==> Sanitized(w.instances[i].name) != Sanitized(s.req.name))
    && (s.ReconcileStep? ==> Lists(s.rows, BindingsToReconcile(w.fips, w.instances)))
  }

  /** The effect of a step, apart from recording its identifiers as used. */
  ghost function Effect(w: World, s: Step): World {
    match s
    case NewNetwork(id, n) => w.(ipam := CreateNetwork(w.ipam, id, n).0)
    case NewInstance(r, pubOk) => RequestCreate(w, r, pubOk).0
    case InstanceAction(p, i, action, t, pubOk) => RequestAction(w, p, i, action, t, pubOk).0
    case TakeSnapshot(p, i, name, snap, t, pubOk) => RequestSnapshotCreate(w, p, i, name, snap, t, pubOk).0
    case RevertSnapshot(p, i, snap, t, pubOk) => RequestSnapshotRevert(w, p, i, snap, t, pubOk).0
    case AllocateFip(p) => w.(fips := Allocate(w.fips, p).0)
    case AssociateFip(p, f, i, t, pubOk) => RequestAssociate(w, p, f, i, t, pubOk).0
    case DisassociateFip(p, f, t, pubOk) => RequestDisassociate(w, p, f, t, pubOk).0
    case NewVolume(p, v, name, fileOk) => w.(volumes := CreateVolume(w.volumes, p, v, name, fileOk).0)
    case DropVolume(p, v) => w.(volumes := DeleteVolume(w.volumes, p, v).0)
    case AttachVolume(p, i, v, c) =>
      var (volumes, domains, _) := Attach(w.volumes, w.domains, w.instances, p, i, v, c);
      w.(volumes := volumes, domains := domains)
    case DetachVolume(p, i, v, callOk) =>
      var (volumes, domains, _) := Detach(w.volumes, w.domains, w.instances, p, i, v, callOk);
      w.(volumes := volumes, domains := domains)
    case ReceiveStep => ReceiveTask(w)
    case FinishStep(c) => FinishDelivery(w, c)
    case SyncStep(unseen) => w.(instances := SyncInstances(w.instances, w.domains - unseen))
    case ReconcileStep(rows, f) => w.(rules := NatRules.Reconcile(w.rules, rows, f))
    case SweepStep(stale) =>
      w.(tasks := SweepTasks(w.tasks, stale), instances := SweepInstances(w.instances, w.tasks, stale))
    case GuestPower(n, running) =>
      if n in w.domains then w.(domains := w.domains[n := w.domains[n].(running := running)]) else w
  }

  ghost function Apply(w: World, s: Step): World {
    if NewIds(s) == {} then Effect(w, s) else Effect(w, s).(used := w.used + NewIds(s))
  }

  /** Before anything happened: networks may exist unseeded, the public pool is unallocated, foreign rules may stand. */
  ghost predicate Init(w: World) {
    && w.ipam.slots == map[] && w.ipam.allocations == map[]
    && w.instances == map[] && w.tasks == map[] && w.snapshots == map[] && w.volumes == map[] && w.domains == map[]
    && w.mq == Mq([], None, [], multiset{}, multiset{})
    && PublicsDistinct(w.fips)
    && (forall f :: f in w.fips ==> w.fips[f].status.Unallocated? && w.fips[f].project.None?
                                    && w.fips[f].instance.None? && w.fips[f].priv.None?)
    && (forall r :: r in w.rules ==> r.Other?)
    && w.ipam.networks.Keys <= w.used
  }

  /** A run: each step is possible where it is taken. */
  ghost predicate Runs(w: World, steps: seq<Step>)
    decreases |steps|
  {
    steps == [] || (Enabled(w, steps[0]) && Runs(Apply(w, steps[0]), steps[1..]))
  }

  ghost function After(w: World, steps: seq<Step>): World
    decreases |steps|
  {
    if steps == [] then w else After(Apply(w, steps[0]), steps[1..])
  }

  // ---- Assumptions some properties need ---------------------------------------------------------------

  /** Host rule deletes work, and no disassociation is lost at its publish. */
  predicate NatReliable(s: Step) {
    && (s.DisassociateFip? ==> s.pubOk)
    && (s.FinishStep? ==> s.calls.faults.del == {})
  }

  /** Lookups of existing domains answer, and a domain whose start fails is cleaned up. */
  predicate HostAnswers(s: Step) {
    s.FinishStep? ==> s.calls.vm.lookup && s.calls.deletion.lookup && s.calls.vm.cleanUp
  }
}
