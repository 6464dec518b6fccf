/** A snapshotting instance stays as it is until a handler or the sweeper ends the operation. */
module Freeze {
  import opened Wrappers
  import opened Text
  import opened NatRules
  import opened Model
  import opened Messages
  import opened Ipam
  import opened FipRows
  import opened Disks
  import opened Control
  import opened System
  import opened Tracking
  import opened Invariants
  import opened Requests

  type VolumeRows = map<Id, Volume>

  ghost predicate SameAttachments(a: VolumeRows, b: VolumeRows, i: Id) {
    && (forall v :: v in a && a[v].instance == Some(i) ==> v in b && b[v] == a[v])
    && (forall v :: v in b && b[v].instance == Some(i) ==> v in a && a[v] == b[v])
  }

  /** No snapshot row of the instance appears or changes, and no snapshot message for it is published. */
  ghost predicate NoNewOperation(w: World, w': World, i: Id) {
    && (forall s :: s in w'.snapshots && w'.snapshots[s].instance == i ==> s in w.snapshots && w.snapshots[s] == w'.snapshots[s])
    && (forall s :: s in w.snapshots && w.snapshots[s].instance == i ==> s in w'.snapshots && w'.snapshots[s] == w.snapshots[s])
    && (forall m :: m in w'.mq.published && IsSnapshotKind(m.kind) && m.instance == Some(i) ==> m in w.mq.published)
  }

  ghost predicate Frozen(w: World, w': World, i: Id) {
    && i in w.instances && i in w'.instances && w'.instances[i] == w.instances[i]
    && SameAttachments(w.volumes, w'.volumes, i)
    && NoNewOperation(w, w', i)
  }

  /** Steps other than the end of a handler and the sweeper. */
  predicate Outside(s: Step) {
    !s.FinishStep? && !s.SweepStep?
  }

  // ---- One step ---------------------------------------------------------------------------------------

  lemma EnqueueKeepsFrozen(w: World, x: World, i: Id, m: TaskMessage, pubOk: bool)
    requires Frozen(w, x, i) && x.mq == w.mq && !(IsSnapshotKind(m.kind) && m.instance == Some(i))
    ensures Frozen(w, Enqueue(x, m, pubOk), i)
  {
  }

  lemma CreateRequestFreezes(w: World, i: Id, r: CreateRequest, pubOk: bool)
    requires i in w.instances
    ensures Frozen(w, RequestCreate(w, r, pubOk).0, i)
  {
    hide RequestCreate, CreateInstanceWithIpam;
    CreateRequestCases(w, r, pubOk);
    if RequestCreate(w, r, pubOk).0 != w {
      var tx := CreateInstanceWithIpam(w.ipam, w.instances, r);
      var instances := SetState(tx.instances, r.project, r.instance, if pubOk then Creating else Errored);
      NewRowShape(w, r, if pubOk then Creating else Errored);
      EnqueueKeepsFrozen(w, w.(ipam := tx.t, instances := instances), i,
        InstanceMessage(r.task, InstanceCreate, r.project, r.instance), pubOk);
    }
  }

  /** A second operation on the instance is refused; one on another instance goes on beside it. */
  lemma SnapshotCreateFreezes(w: World, i: Id, p: Id, j: Id, name: string, snap: Id, t: Id, pubOk: bool)
    requires i in w.instances && w.instances[i].state.Snapshotting?
    ensures Frozen(w, RequestSnapshotCreate(w, p, j, name, snap, t, pubOk).0, i)
    ensures i == j ==> RequestSnapshotCreate(w, p, j, name, snap, t, pubOk).1.Refused?
  {
    if i != j && HasInstance(w.instances, p, j) && snap !in w.snapshots {
      var prior := w.instances[j].state;
      var row := Snapshot(p, j, TrimSpace(name), if pubOk then SnapCreating else SnapError, prior.Running?);
      var x := w.(snapshots := w.snapshots[snap := row],
                  instances := if pubOk then SetState(w.instances, p, j, Snapshotting) else w.instances);
      assert Frozen(w, x, i);
      hide Frozen, Enqueue, SetState;
      EnqueueKeepsFrozen(w, x, i, SnapshotMessage(t, SnapshotCreate, p, j, snap, prior), pubOk);
    }
    assert Frozen(w, w, i);
  }

  lemma SnapshotRevertFreezes(w: World, i: Id, p: Id, j: Id, snap: Id, t: Id, pubOk: bool)
    requires i in w.instances && w.instances[i].state.Snapshotting?
    ensures Frozen(w, RequestSnapshotRevert(w, p, j, snap, t, pubOk).0, i)
    ensures i == j ==> RequestSnapshotRevert(w, p, j, snap, t, pubOk).1.Refused?
  {
    assert Frozen(w, w, i);
    if i != j && HasInstance(w.instances, p, j) {
      var x := w.(instances := if pubOk then SetState(w.instances, p, j, Snapshotting) else w.instances);
      assert Frozen(w, x, i);
      hide Frozen, Enqueue, SetState;
      EnqueueKeepsFrozen(w, x, i, SnapshotMessage(t, SnapshotRevert, p, j, snap, w.instances[j].state), pubOk);
    }
  }

  lemma ActionFreezes(w: World, i: Id, p: Id, j: Id, a: Option<Action>, t: Id, pubOk: bool)
    requires i in w.instances
    ensures Frozen(w, RequestParsed(w, p, j, a, t, pubOk).0, i)
  {
    assert Frozen(w, w, i);
    hide Frozen, Enqueue;
    if a.Some? {
      EnqueueKeepsFrozen(w, w, i, InstanceMessage(t, TaskKindFor(a.value), p, j), pubOk);
    }
  }

  lemma AssociateFreezes(w: World, i: Id, p: Id, f: Id, j: Id, t: Id, pubOk: bool)
    requires i in w.instances
    ensures Frozen(w, RequestAssociate(w, p, f, j, t, pubOk).0, i)
  {
    var (fips, reply) := TryAssociate(w.fips, w.instances, p, f, j);
    assert Frozen(w, w, i);
    if reply.Accepted? {
      var x := w.(fips := if pubOk then fips else Rollback(fips, p, f));
      assert Frozen(w, x, i);
      hide Frozen, Enqueue, Rollback;
      EnqueueKeepsFrozen(w, x, i, AssociateMessage(t, p, j, f, Binding(w.fips[f].pub, w.instances[j].ipv4.value)), pubOk);
    }
  }

  lemma DisassociateFreezes(w: World, i: Id, p: Id, f: Id, t: Id, pubOk: bool)
    requires i in w.instances
    ensures Frozen(w, RequestDisassociate(w, p, f, t, pubOk).0, i)
  {
    var (fips, taken) := TakeDisassociate(w.fips, p, f);
    assert Frozen(w, w, i);
    if taken.Some? {
      var x := w.(fips := fips);
      assert Frozen(w, x, i);
      hide Frozen, Enqueue, TakeDisassociate;
      EnqueueKeepsFrozen(w, x, i, DisassociateMessage(t, p, f, taken.value), pubOk);
    }
  }

  /** Attaching to or detaching from the instance is refused. */
  lemma AttachFreezes(w: World, i: Id, p: Id, j: Id, v: Id, c: AttachCalls)
    requires i in w.instances && w.instances[i].state.Snapshotting?
    ensures SameAttachments(w.volumes, Attach(w.volumes, w.domains, w.instances, p, j, v, c).0, i)
  {
    hide NextLetter, AttachDisk, DetachDisk;
  }

  lemma DetachFreezes(w: World, i: Id, p: Id, j: Id, v: Id, callOk: bool)
    requires i in w.instances && w.instances[i].state.Snapshotting?
    ensures SameAttachments(w.volumes, Detach(w.volumes, w.domains, w.instances, p, j, v, callOk).0, i)
  {
    hide DetachDisk;
  }

  lemma VolumeRequestsFreeze(w: World, i: Id, s: Step)
    requires i in w.instances && w.instances[i].state.Snapshotting?
    requires s.AttachVolume? || s.DetachVolume?
    ensures Frozen(w, Effect(w, s), i)
  {
    hide Attach, Detach, SameAttachments;
    match s
    case AttachVolume(p, j, v, c) => AttachFreezes(w, i, p, j, v, c);
    case DetachVolume(p, j, v, callOk) => DetachFreezes(w, i, p, j, v, callOk);
  }

  lemma RowRequestsFreeze(w: World, i: Id, s: Step)
    requires i in w.instances && (s.NewVolume? || s.DropVolume?)
    ensures Frozen(w, Effect(w, s), i)
  {
  }

  lemma HostStepsFreeze(w: World, i: Id, s: Step)
    requires i in w.instances && (s.NewNetwork? || s.AllocateFip? || s.ReconcileStep? || s.GuestPower?)
    ensures Frozen(w, Effect(w, s), i)
  {
    hide CreateNetwork, Allocate, Reconcile;
  }

  lemma SyncFreezes(w: World, i: Id, unseen: set<string>)
    requires i in w.instances && w.instances[i].state.Snapshotting?
    ensures Frozen(w, w.(instances := SyncInstances(w.instances, w.domains - unseen)), i)
  {
  }

  lemma ReceiveFreezes(w: World, i: Id)
    requires i in w.instances
    ensures Frozen(w, ReceiveTask(w), i)
  {
    ReceiveShape(w);
    ReceiveEffect(w.mq);
  }

  lemma EffectFreezes(w: World, s: Step, i: Id)
    requires i in w.instances && w.instances[i].state.Snapshotting? && Outside(s)
    ensures Frozen(w, Effect(w, s), i)
  {
    hide Frozen;
    match s
    case NewInstance(r, pubOk) => CreateRequestFreezes(w, i, r, pubOk);
    case TakeSnapshot(p, j, name, snap, t, pubOk) => SnapshotCreateFreezes(w, i, p, j, name, snap, t, pubOk);
    case RevertSnapshot(p, j, snap, t, pubOk) => SnapshotRevertFreezes(w, i, p, j, snap, t, pubOk);
    case InstanceAction(p, j, a, t, pubOk) => ActionFreezes(w, i, p, j, ParseAction(a), t, pubOk);
    case AssociateFip(p, f, j, t, pubOk) => AssociateFreezes(w, i, p, f, j, t, pubOk);
    case DisassociateFip(p, f, t, pubOk) => DisassociateFreezes(w, i, p, f, t, pubOk);
    case AttachVolume(_, _, _, _) => VolumeRequestsFreeze(w, i, s);
    case DetachVolume(_, _, _, _) => VolumeRequestsFreeze(w, i, s);
    case NewVolume(_, _, _, _) => RowRequestsFreeze(w, i, s);
    case DropVolume(_, _) => RowRequestsFreeze(w, i, s);
    case SyncStep(unseen) => SyncFreezes(w, i, unseen);
    case ReceiveStep => ReceiveFreezes(w, i);
    case _ => HostStepsFreeze(w, i, s);
  }

  /** No API request, sync, reconcile or guest event moves a snapshotting instance. */
  lemma StepFreezes(w: World, s: Step, i: Id)
    requires i in w.instances && w.instances[i].state.Snapshotting? && Outside(s)
    ensures Frozen(w, Apply(w, s), i)
  {
    hide Effect;
    EffectFreezes(w, s, i);
  }

  // ---- Runs ----------------------------------------------------------------------------------------------

  lemma FrozenTwice(a: World, b: World, c: World, i: Id)
    requires Frozen(a, b, i) && Frozen(b, c, i)
    ensures Frozen(a, c, i)
  {
  }

  /** However many such steps come, the instance is still there, unchanged and busy. */
  lemma {:induction false} RunFreezes(w: World, steps: seq<Step>, i: Id)
    requires i in w.instances && w.instances[i].state.Snapshotting?
    requires forall k :: 0 <= k < |steps| ==> Outside(steps[k])
    ensures Frozen(w, After(w, steps), i)
    decreases |steps|
  {
    hide Apply;
    if steps != [] {
      var next := Apply(w, steps[0]);
      StepFreezes(w, steps[0], i);
      RunFreezes(next, steps[1..], i);
      FrozenTwice(w, next, After(w, steps), i);
    }
  }

  // ---- Who may end it ----------------------------------------------------------------------------------------

  /** A handler of another instance's message does not end it either. */
  lemma OtherHandlersFreeze(w: World, c: Calls, i: Id)
    requires Core(w) && i in w.instances && w.mq.inflight.Some? && w.mq.inflight.value.msg.instance != Some(i)
    ensures var w' := FinishDelivery(w, c); i in w'.instances && w'.instances[i] == w.instances[i]
  {
    hide Core, FinishTask;
    HeldTaskSettles(w, c);
  }

  /** The sweeper only when the worker holds a task of the instance that is still in progress. */
  lemma SweeperEndsOnlyItsOwn(w: World, stale: set<Id>, i: Id)
    requires Core(w) && i in w.instances
    requires SweepInstances(w.instances, w.tasks, stale)[i] != w.instances[i]
    ensures w.mq.inflight.Some? && var t := w.mq.inflight.value.msg.task;
      t in stale && t in w.tasks && w.tasks[t].instance == Some(i) && w.tasks[t].status.InProgress?
  {
  }
}
