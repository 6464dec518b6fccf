/** Which steps add or delete instance rows, and that rows refer only to rows of their own project. */
module Ownership {
  import opened Wrappers
  import opened Model
  import opened Messages
  import opened Ipam
  import opened Disks
  import opened Control
  import opened System
  import opened Tracking
  import opened Invariants
  import opened Requests
  import opened VolumeAgreement
  import FipRows
  import Acceptance
  import SnapshotRows

  type Networks = map<Id, Network>

  // ---- Instance rows over a step -----------------------------------------------------------------------------

  /** A handler deletes a row only when it is a destroy that succeeds, and then its own; else it at most changes states. */
  lemma HandlerRows(w: World, c: Calls)
    requires Core(w) && w.mq.inflight.Some?
    ensures var m := w.mq.inflight.value.msg; var (x, ok) := FinishTask(w, m, c);
      if m.kind.InstanceDestroy? && ok then m.instance.Some? && x.instances == w.instances - {m.instance.value}
      else SameExceptState(w.instances, x.instances)
  {
    var m := w.mq.inflight.value.msg;
    HeldIsNotDone(w.mq, w.tasks, w.instances, w.used);
    HandlerOf(w, m, c);
    hide FinishTask, FinishDestroy, FinishCreate, SameExceptState;
    SameIsSame(w.instances, w.domains);
    if m.kind.InstanceDestroy? {
      if HasInstance(w.instances, m.project, m.instance.value) {
        DestroyShape(w, m, c);
        BusyOnlyStates(w, m.project, m.instance.value, Errored);
      } else {
        DestroyOfNothing(w, m, c);
      }
    } else if m.kind.InstanceCreate? {
      CreateShape(w, m, c);
    } else {
      OthersOnlyStates(w, m, c);
    }
  }

  lemma FinishRows(w: World, c: Calls)
    ensures w.mq.inflight.None? ==> FinishDelivery(w, c) == w
    ensures w.mq.inflight.Some? ==>
      var x, w' := FinishTask(w, w.mq.inflight.value.msg, c).0, FinishDelivery(w, c);
      w'.instances == x.instances && w'.snapshots == x.snapshots && w'.ipam == x.ipam
  {
    hide FinishTask, FinalizeDelivery;
  }

  /** Every other step but a create at most changes states. */
  lemma OtherStepsKeepRows(w: World, s: Step)
    requires !s.FinishStep? && !s.NewInstance?
    ensures SameExceptState(w.instances, Apply(w, s).instances)
  {
    ApplyParts(w, s);
    SameIsSame(w.instances, w.domains);
    hide Effect, Apply, SameExceptState;
    if s.NewVolume? || s.DropVolume? || s.AttachVolume? || s.DetachVolume? {
      VolumeStepsKeepRows(w, s);
    } else if s.TakeSnapshot? || s.RevertSnapshot? {
      SnapshotRequestOnlyStates(w, s);
    } else if s.SyncStep? || s.SweepStep? || s.GuestPower? || s.ReceiveStep? {
      PassOnlyStates(w, s);
    } else {
      PlainRequestOnlyStates(w, s);
    }
  }

  lemma VolumeStepsKeepRows(w: World, s: Step)
    requires s.NewVolume? || s.DropVolume? || s.AttachVolume? || s.DetachVolume?
    ensures Effect(w, s).instances == w.instances
  {
    hide Attach, Detach, CreateVolume, DeleteVolume;
  }

  /** A create adds at most its own row, in the network it names. */
  lemma CreateStepRows(w: World, s: Step)
    requires Core(w) && s.NewInstance?
    ensures var r := s.req; var w' := Apply(w, s);
      && w'.ipam.networks == w.ipam.networks && w'.snapshots == w.snapshots
      && (w'.instances == w.instances
          || (&& Acceptance.OwnsNetwork(w, r.project, r.network) && r.instance in w'.instances
              && w'.instances == w.instances[r.instance := w'.instances[r.instance]]
              && w'.instances[r.instance].project == r.project && w'.instances[r.instance].network == Some(r.network)
              && w'.instances[r.instance].ipv4.Some?))
  {
    var r := s.req;
    CreateStepIs(w, s);
    ApplyRows(w, s);
    CreateRequestCases(w, r, s.pubOk);
    Acceptance.CreateIsAccepted(w, r, s.pubOk);
    CreateKeepsNetworks(w, r, s.pubOk);
    hide Core, Effect, Apply;
    if RequestCreate(w, r, s.pubOk).1 in {Accepted, Refused(PublishFailed)} {
      hide RequestCreate;
      Acceptance.CreatedRow(w, r, s.pubOk);
    } else {
      RefusedCreate(w, r, s.pubOk);
    }
  }

  lemma RefusedCreate(w: World, r: CreateRequest, pubOk: bool)
    requires RequestCreate(w, r, pubOk).1 !in {Accepted, Refused(PublishFailed)}
    ensures RequestCreate(w, r, pubOk).0 == w
  {
    hide CreateInstanceWithIpam, Enqueue;
  }

  lemma CreateKeepsNetworks(w: World, r: CreateRequest, pubOk: bool)
    ensures var w' := RequestCreate(w, r, pubOk).0; w'.ipam.networks == w.ipam.networks && w'.snapshots == w.snapshots
  {
    hide FreeAddrs, SlotsForCreate, NameTaken, AddrAllocated, SetState;
  }

  lemma ApplyRows(w: World, s: Step)
    ensures var w', x := Apply(w, s), Effect(w, s);
      w'.instances == x.instances && w'.snapshots == x.snapshots && w'.ipam == x.ipam
  {
    hide Effect, NewIds;
  }

  // ---- Rows of one project --------------------------------------------------------------------------------------

  /** An instance lives in a network of its own project and has an address there. */
  predicate InOwnNetwork(networks: Networks, row: Instance) {
    && row.network.Some? && row.ipv4.Some?
    && row.network.value in networks && networks[row.network.value].project == row.project
  }

  /** A snapshot belongs to an instance that is there, of its own project. */
  predicate OfOwnInstance(instances: InstanceRows, row: Snapshot) {
    row.instance in instances && instances[row.instance].project == row.project
  }

  ghost predicate Owned(w: World) {
    && (forall i :: i in w.instances ==> InOwnNetwork(w.ipam.networks, w.instances[i]))
    && (forall s :: s in w.snapshots ==> OfOwnInstance(w.instances, w.snapshots[s]))
  }

  /** Networks only grow, states do not matter, and snapshot rows at most change status. */
  lemma StatesKeepOwned(w: World, w': World)
    requires Owned(w) && SameExceptState(w.instances, w'.instances)
    requires forall n :: n in w.ipam.networks ==> n in w'.ipam.networks && w'.ipam.networks[n] == w.ipam.networks[n]
    requires forall s :: s in w'.snapshots ==>
      OfOwnInstance(w.instances, w'.snapshots[s]) || (s in w.snapshots && w'.snapshots[s] == w.snapshots[s].(status := w'.snapshots[s].status))
    ensures Owned(w')
  {
  }

  lemma DestroyDropsSnapshots(w: World, m: TaskMessage, c: Calls)
    requires m.instance.Some?
    ensures var (x, ok) := FinishDestroy(w, m, c); x.snapshots == if ok then SnapshotsWithout(w.snapshots, m.instance.value) else w.snapshots
  {
    hide DetachAllDisks, DetachAllRows, DeleteVm, SetState, SetTask, ForgetInstance, Release, DeleteBlocked, SnapshotsWithout,
         FipRows.BindingsOf, FipRows.ClearOfProject, FipRows.ClearOfInstance;
  }

  lemma HandlerSnapshots(w: World, m: TaskMessage, c: Calls)
    requires Dispatchable(m) && HasTask(w.tasks, m.project, m.task)
    ensures var (x, ok) := FinishTask(w, m, c);
      if m.kind.InstanceDestroy? && ok then x.snapshots == SnapshotsWithout(w.snapshots, m.instance.value)
      else forall s :: s in x.snapshots ==> s in w.snapshots && x.snapshots[s] == w.snapshots[s].(status := x.snapshots[s].status)
  {
    HandlerOf(w, m, c);
    if m.kind.InstanceDestroy? {
      DestroyDropsSnapshots(w, m, c);
      hide FinishTask, FinishDestroy, SnapshotsWithout;
    } else if m.kind.SnapshotCreate? {
      SnapshotRows.MakerWritesRow(w, m, c);
      hide FinishTask, FinishSnapshotCreate;
    } else {
      SnapshotRows.OtherHandlersKeepRows(w, m, c);
      hide FinishTask;
    }
  }

  lemma HeldDestroyKeepsOwned(w: World, w': World, i: Id)
    requires Owned(w) && w'.instances == w.instances - {i} && w'.snapshots == SnapshotsWithout(w.snapshots, i)
    requires w'.ipam.networks == w.ipam.networks
    ensures Owned(w')
  {
  }

  lemma FinishKeepsOwned(w: World, c: Calls)
    requires Core(w) && Owned(w)
    ensures Owned(FinishDelivery(w, c))
  {
    FinishRows(w, c);
    if w.mq.inflight.Some? {
      var m := w.mq.inflight.value.msg;
      var (x, ok) := FinishTask(w, m, c);
      HandlerRows(w, c);
      HeldTaskSettles(w, c);
      HeldIsThere(w);
      HandlerSnapshots(w, m, c);
      hide Core, FinishTask, FinishDelivery, TablesOk, TaskClosed, InstancesSettled, Grounded, Proper, Owned, SameExceptState,
           SnapshotsWithout;
      if m.kind.InstanceDestroy? && ok {
        HeldDestroyKeepsOwned(w, FinishDelivery(w, c), m.instance.value);
      } else {
        StatesKeepOwned(w, FinishDelivery(w, c));
      }
    }
  }

  lemma HeldIsThere(w: World)
    requires Core(w) && w.mq.inflight.Some?
    ensures var m := w.mq.inflight.value.msg; Dispatchable(m) && HasTask(w.tasks, m.project, m.task)
  {
    HeldIsNotDone(w.mq, w.tasks, w.instances, w.used);
  }

  lemma OtherStepsKeepOwned(w: World, s: Step)
    requires Core(w) && Owned(w) && Enabled(w, s) && !s.FinishStep? && !s.NewInstance?
    ensures Owned(Apply(w, s))
  {
    var w' := Apply(w, s);
    OtherStepsKeepRows(w, s);
    ApplyRows(w, s);
    NetworksGrow(w, s);
    hide Apply, Effect, Core, SameExceptState, InOwnNetwork, Enabled;
    if s.TakeSnapshot? {
      TakenSnapshot(w, s);
    } else {
      SnapshotRows.OtherStepsKeepSnapshots(w, s);
    }
    StatesKeepOwned(w, w');
  }

  lemma TakenSnapshot(w: World, s: Step)
    requires s.TakeSnapshot?
    ensures forall x :: x in Effect(w, s).snapshots ==>
      OfOwnInstance(w.instances, Effect(w, s).snapshots[x]) || (x in w.snapshots && Effect(w, s).snapshots[x] == w.snapshots[x])
  {
    Acceptance.SnapshotIsAccepted(w, s.project, s.instance, s.name, s.snap, s.task, s.pubOk);
    TakeIs(w, s);
    hide Effect, RequestSnapshotCreate;
  }

  lemma TakeIs(w: World, s: Step)
    requires s.TakeSnapshot?
    ensures Effect(w, s) == RequestSnapshotCreate(w, s.project, s.instance, s.name, s.snap, s.task, s.pubOk).0
  {
    hide RequestSnapshotCreate;
  }

  lemma OthersKeepNetworks(w: World, s: Step)
    requires !s.FinishStep? && !s.NewInstance? && !s.NewNetwork?
    ensures Effect(w, s).ipam == w.ipam
  {
    hide ParseAction, SetState, SetTask, HasVolumes, Attach, Detach, CreateVolume, DeleteVolume, ReceiveTask, PublishTask,
         FipRows.TryAssociate, FipRows.TakeDisassociate, FipRows.Rollback;
    if s.ReceiveStep? {
      ReceiveShape(w);
    }
  }

  lemma NetworksGrow(w: World, s: Step)
    requires Core(w) && Enabled(w, s) && !s.FinishStep? && !s.NewInstance?
    ensures forall n :: n in w.ipam.networks ==> n in Apply(w, s).ipam.networks && Apply(w, s).ipam.networks[n] == w.ipam.networks[n]
  {
    ApplyRows(w, s);
    hide Apply;
    if s.NewNetwork? {
      assert s.network in NewIds(s) && s.network !in w.ipam.networks;
      hide Core, Seed;
    } else {
      hide Core, Effect;
      OthersKeepNetworks(w, s);
    }
  }

  lemma CreateKeepsOwned(w: World, s: Step)
    requires Core(w) && Owned(w) && Enabled(w, s) && s.NewInstance?
    ensures Owned(Apply(w, s))
  {
    CreateStepRows(w, s);
    NewInstanceIsNew(w, s);
    var i, w' := s.req.instance, Apply(w, s);
    hide Apply, Core, Enabled;
    if w'.instances != w.instances {
      assert w'.instances == w.instances[i := w'.instances[i]] && InOwnNetwork(w'.ipam.networks, w'.instances[i]);
      NewRowKeepsOwned(w, w', i);
    }
  }

  lemma NewRowKeepsOwned(w: World, w': World, i: Id)
    requires Owned(w) && i !in w.instances && i in w'.instances && w'.instances == w.instances[i := w'.instances[i]]
    requires w'.ipam.networks == w.ipam.networks && w'.snapshots == w.snapshots && InOwnNetwork(w.ipam.networks, w'.instances[i])
    ensures Owned(w')
  {
  }

  lemma NewInstanceIsNew(w: World, s: Step)
    requires Core(w) && Enabled(w, s) && s.NewInstance?
    ensures s.req.instance !in w.instances
  {
    assert s.req.instance in NewIds(s);
  }

  lemma StepKeepsOwned(w: World, s: Step)
    requires Core(w) && Owned(w) && Enabled(w, s)
    ensures Owned(Apply(w, s))
  {
    if s.FinishStep? {
      hide Core, Owned, FinishDelivery;
      FinishKeepsOwned(w, s.calls);
    } else if s.NewInstance? {
      hide *;
      CreateKeepsOwned(w, s);
    } else {
      hide *;
      OtherStepsKeepOwned(w, s);
    }
  }

  lemma {:induction false} RunKeepsOwned(w: World, steps: seq<Step>)
    requires Core(w) && Owned(w) && Runs(w, steps)
    ensures Owned(After(w, steps))
    decreases |steps|
  {
    hide Core, Owned, Apply;
    if steps != [] {
      StepKeepsCore(w, steps[0]);
      StepKeepsOwned(w, steps[0]);
      RunKeepsOwned(Apply(w, steps[0]), steps[1..]);
    }
  }

  /**
   * After every run whatever a row refers to is there and of the row's own project: the network of an instance, the
   * holder of an address, the instance of a snapshot, of an attached volume and of a bound floating IP.
   */
  lemma RowsStayInTheirProject(w: World, steps: seq<Step>)
    requires Init(w) && Runs(w, steps)
    ensures var w' := After(w, steps);
      && (forall i :: i in w'.instances ==> var row := w'.instances[i];
            row.network.Some? && row.network.value in w'.ipam.networks && w'.ipam.networks[row.network.value].project == row.project)
      && (forall k :: k in w'.ipam.slots && w'.ipam.slots[k].Some? ==> var i := w'.ipam.slots[k].value;
            i in w'.instances && k.network in w'.ipam.networks && w'.ipam.networks[k.network].project == w'.instances[i].project)
      && (forall s :: s in w'.snapshots ==> var row := w'.snapshots[s];
            row.instance in w'.instances && w'.instances[row.instance].project == row.project)
      && (forall v :: v in w'.volumes && w'.volumes[v].instance.Some? ==> var row := w'.volumes[v];
            row.instance.value in w'.instances && w'.instances[row.instance.value].project == row.project)
      && (forall f :: f in w'.fips && w'.fips[f].instance.Some? ==> var row := w'.fips[f];
            row.instance.value in w'.instances && Some(w'.instances[row.instance.value].project) == row.project)
  {
    InitIsCore(w);
    RunKeepsCore(w, steps);
    RunKeepsOwned(w, steps);
    hide Runs, After;
    OwnedRows(After(w, steps));
  }

  lemma OwnedRows(w: World)
    requires Core(w) && Owned(w)
    ensures forall k :: k in w.ipam.slots && w.ipam.slots[k].Some? ==> var i := w.ipam.slots[k].value;
      i in w.instances && k.network in w.ipam.networks && w.ipam.networks[k.network].project == w.instances[i].project
    ensures forall v :: v in w.volumes && w.volumes[v].instance.Some? ==> var row := w.volumes[v];
      row.instance.value in w.instances && w.instances[row.instance.value].project == row.project
    ensures forall f :: f in w.fips && w.fips[f].instance.Some? ==> var row := w.fips[f];
      row.instance.value in w.instances && Some(w.instances[row.instance.value].project) == row.project
  {
    forall f | f in w.fips && w.fips[f].instance.Some? ensures FipRows.RowOk(w.fips[f], w.instances) {
    }
    forall v | v in w.volumes ensures VolumeRowSound(w.volumes[v], w.instances) {
    }
    hide Tracked, NoOrphans;
  }
}
