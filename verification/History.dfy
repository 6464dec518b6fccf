/** What no step ever takes back, and what every run from an initial state comes to. */
module History {
  import opened Wrappers
  import opened Addresses
  import opened NatRules
  import opened Model
  import opened Messages
  import opened Ipam
  import opened FipRows
  import opened Disks
  import opened Control
  import opened System
  import opened Tracking
  import opened Invariants
  import opened Requests
  import opened NatJustified

  // ---- Succeeded tasks stay succeeded -----------------------------------------------------------------

  ghost predicate SuccessKept(a: Tasks, b: Tasks) {
    forall t :: t in a && a[t].status.Succeeded? ==> t in b && b[t].status.Succeeded?
  }

  ghost predicate NewTaskOnly(w: World, w': World, ids: set<Id>) {
    w'.tasks == w.tasks || exists t :: t in ids && t in w'.tasks && w'.tasks == w.tasks[t := w'.tasks[t]]
  }

  lemma RequestsAddTask(w: World, s: Step)
    requires s.InstanceAction? || s.TakeSnapshot? || s.RevertSnapshot? || s.AssociateFip? || s.DisassociateFip?
    ensures NewTaskOnly(w, Effect(w, s), NewIds(s))
  {
    hide ParseAction, TryAssociate, TakeDisassociate, SetState, NewTaskOnly;
    var tasks := Effect(w, s).tasks;
    match s
    case InstanceAction(_, _, _, t, _) => AddsTask(w, Effect(w, s), NewIds(s), t);
    case TakeSnapshot(_, _, _, _, t, _) => AddsTask(w, Effect(w, s), NewIds(s), t);
    case RevertSnapshot(_, _, _, t, _) => AddsTask(w, Effect(w, s), NewIds(s), t);
    case AssociateFip(_, _, _, t, _) => AddsTask(w, Effect(w, s), NewIds(s), t);
    case DisassociateFip(_, _, t, _) => AddsTask(w, Effect(w, s), NewIds(s), t);
  }

  lemma AddsTask(w: World, w': World, ids: set<Id>, t: Id)
    requires t in ids && (w'.tasks == w.tasks || (t in w'.tasks && w'.tasks == w.tasks[t := w'.tasks[t]]))
    ensures NewTaskOnly(w, w', ids)
  {
  }

  lemma CreateAddsTask(w: World, r: CreateRequest, pubOk: bool)
    ensures NewTaskOnly(w, RequestCreate(w, r, pubOk).0, {r.instance, r.task})
  {
    hide RequestCreate, CreateInstanceWithIpam;
    CreateRequestCases(w, r, pubOk);
    AddsTask(w, RequestCreate(w, r, pubOk).0, {r.instance, r.task}, r.task);
  }

  lemma NewTaskKeepsSuccess(w: World, w': World, ids: set<Id>)
    requires NewTaskOnly(w, w', ids) && ids !! w.used && w.tasks.Keys <= w.used
    ensures SuccessKept(w.tasks, w'.tasks)
  {
  }

  /** The worker only ever marks the task of the message it holds, and that one has not succeeded. */
  lemma WorkerKeepsSuccess(w: World, s: Step)
    requires Core(w) && (s.ReceiveStep? || s.FinishStep?)
    ensures SuccessKept(w.tasks, Effect(w, s).tasks)
  {
    hide Core, SuccessKept, FinishDelivery, ReceiveTask;
    if s.ReceiveStep? {
      ReceiveMarksUnfinished(w);
    } else {
      FinishKeepsSuccess(w, s.calls);
    }
  }

  lemma FinishKeepsSuccess(w: World, c: Calls)
    requires Core(w)
    ensures SuccessKept(w.tasks, FinishDelivery(w, c).tasks)
  {
    hide Core, FinishTask, FinalizeDelivery, InstancesSettled, TablesOk;
    if w.mq.inflight.Some? {
      HeldTaskSettles(w, c);
      HeldIsUnfinished(w);
    }
  }

  lemma HeldIsUnfinished(w: World)
    requires Core(w) && w.mq.inflight.Some?
    ensures var m := w.mq.inflight.value.msg; m.task in w.tasks && !w.tasks[m.task].status.Succeeded?
  {
  }

  lemma MarkKeepsSuccess(tasks: Tasks, project: Id, t: Id, status: TaskStatus)
    requires t in tasks && !tasks[t].status.Succeeded?
    ensures SuccessKept(tasks, SetTask(tasks, project, t, status))
  {
  }

  lemma ReceiveMarksUnfinished(w: World)
    requires Core(w)
    ensures SuccessKept(w.tasks, ReceiveTask(w).tasks)
  {
    TakingKeepsTracked(w.mq, w.tasks, w.instances, w.used);
    hide Core, Tracked, SuccessKept;
    var q := Receive(w.mq);
    if w.mq.inflight.None? && q.inflight.Some? {
      var m := q.inflight.value.msg;
      HeldIsNotDone(q, w.tasks, w.instances, w.used);
      MarkKeepsSuccess(w.tasks, m.project, m.task, InProgress);
    }
    NothingLostIfSame(w.tasks);
  }

  lemma NothingLostIfSame(tasks: Tasks)
    ensures SuccessKept(tasks, tasks)
  {
  }

  lemma QuietStepsKeepTasks(w: World, s: Step)
    requires s.NewNetwork? || s.AllocateFip? || s.NewVolume? || s.DropVolume? || s.AttachVolume? || s.DetachVolume?
             || s.SyncStep? || s.ReconcileStep? || s.GuestPower?
    ensures Effect(w, s).tasks == w.tasks
  {
  }

  /** No step changes a task that succeeded, the sweeper included. */
  lemma StepKeepsSuccess(w: World, s: Step)
    requires Core(w) && Enabled(w, s)
    ensures SuccessKept(w.tasks, Apply(w, s).tasks)
  {
    assert w.tasks.Keys <= w.used;
    hide Core, Effect, SuccessKept, NewTaskOnly;
    if s.ReceiveStep? || s.FinishStep? {
      WorkerKeepsSuccess(w, s);
    } else if s.NewInstance? {
      CreateAddsTask(w, s.req, s.pubOk);
      CreateEffect(w, s);
      NewTaskKeepsSuccess(w, Effect(w, s), NewIds(s));
    } else if s.InstanceAction? || s.TakeSnapshot? || s.RevertSnapshot? || s.AssociateFip? || s.DisassociateFip? {
      RequestsAddTask(w, s);
      NewTaskKeepsSuccess(w, Effect(w, s), NewIds(s));
    } else if s.SweepStep? {
      SweepEffect(w, s);
      SweepKeepsSuccess(w.tasks, s.stale);
    } else {
      QuietStepsKeepTasks(w, s);
      NothingLostIfSame(w.tasks);
    }
  }

  lemma CreateEffect(w: World, s: Step)
    requires s.NewInstance?
    ensures Effect(w, s) == RequestCreate(w, s.req, s.pubOk).0
  {
  }

  lemma SweepKeepsSuccess(tasks: Tasks, stale: set<Id>)
    ensures SuccessKept(tasks, SweepTasks(tasks, stale))
  {
  }

  lemma SweepEffect(w: World, s: Step)
    requires s.SweepStep?
    ensures Effect(w, s).tasks == SweepTasks(w.tasks, s.stale)
  {
  }

  lemma {:induction false} SucceededStaysSucceeded(w: World, steps: seq<Step>, t: Id)
    requires Core(w) && Runs(w, steps) && t in w.tasks && w.tasks[t].status.Succeeded?
    ensures t in After(w, steps).tasks && After(w, steps).tasks[t].status.Succeeded?
    decreases |steps|
  {
    hide Core, Apply;
    if steps != [] {
      StepKeepsCore(w, steps[0]);
      StepKeepsSuccess(w, steps[0]);
      SucceededStaysSucceeded(Apply(w, steps[0]), steps[1..], t);
    }
  }

  // ---- The floating IP pool ------------------------------------------------------------------------------

  lemma FinishKeepsPool(w: World, c: Calls)
    requires Core(w)
    ensures PoolKept(w.fips, FinishDelivery(w, c).fips)
  {
    if w.mq.inflight.Some? {
      var m := w.mq.inflight.value.msg;
      HeldTaskSettles(w, c);
      hide Core, FinishTask;
      HandlerKeepsPool(w, m, c);
    }
  }

  lemma HandlerKeepsPool(w: World, m: TaskMessage, c: Calls)
    ensures PoolKept(w.fips, FinishTask(w, m, c).0.fips)
  {
    if m.kind.InstanceDestroy? {
      if m.instance.Some? {
        DestroyKeepsPool(w, m, c);
      }
    } else {
      HandlerKeepsFips(w, m, c);
    }
  }

  lemma DestroyFips(w: World, m: TaskMessage, c: Calls)
    requires m.instance.Some?
    ensures var i := m.instance.value; var fips' := FinishDestroy(w, m, c).0.fips;
      || fips' == w.fips || fips' == ClearOfProject(w.fips, m.project, i)
      || fips' == ClearOfInstance(ClearOfProject(w.fips, m.project, i), i)
  {
    hide DetachAllDisks, DetachAllRows, RemoveEach, DeleteVm, SetState, SetTask, ForgetInstance, Release, DeleteBlocked,
         SnapshotsWithout, BindingsOf, RulesOfAll, ClearOfProject, ClearOfInstance;
  }

  lemma DestroyKeepsPool(w: World, m: TaskMessage, c: Calls)
    requires m.instance.Some?
    ensures PoolKept(w.fips, FinishDestroy(w, m, c).0.fips)
  {
    hide FinishDestroy;
    DestroyFips(w, m, c);
  }

  lemma HandlerKeepsFips(w: World, m: TaskMessage, c: Calls)
    requires !m.kind.InstanceDestroy?
    ensures FinishTask(w, m, c).0.fips == w.fips
  {
    hide FinishCreate, FinishLifecycle, FinishSnapshotCreate, FinishSnapshotRevert, FinishDestroy;
    if !m.kind.FipAssociate? && !m.kind.FipDisassociate? {
      OtherHandlersKeepRules(w, m, c);
    }
  }

  lemma FipRequestsKeepPool(w: World, s: Step)
    requires FipsOk(w.fips, w.instances) && (s.AllocateFip? || s.AssociateFip? || s.DisassociateFip?)
    ensures PoolKept(w.fips, Effect(w, s).fips)
  {
    assert PoolKept(w.fips, w.fips);
    hide FipsOk, Allocate, TryAssociate, TakeDisassociate, Rollback, PoolKept;
    match s
    case AllocateFip(p) =>
      AllocateKeeps(w.fips, w.instances, p);
    case AssociateFip(p, f, i, t, pubOk) =>
      AssociateKeeps(w.fips, w.instances, p, f, i);
      if TryAssociate(w.fips, w.instances, p, f, i).1.Accepted? {
        RollbackUndoesAssociate(w.fips, w.instances, p, f, i);
      }
    case DisassociateFip(p, f, t, pubOk) =>
      DisassociateKeeps(w.fips, w.instances, p, f);
  }

  lemma OtherStepsKeepFips(w: World, s: Step)
    requires !s.FinishStep? && !s.AllocateFip? && !s.AssociateFip? && !s.DisassociateFip?
    ensures Effect(w, s).fips == w.fips
  {
    hide ParseAction, SetState, Attach, Detach, CreateVolume, DeleteVolume;
    if s.NewInstance? {
      hide RequestCreate, CreateInstanceWithIpam;
      CreateRequestCases(w, s.req, s.pubOk);
    }
  }

  lemma ApplyFips(w: World, s: Step)
    ensures Apply(w, s).fips == Effect(w, s).fips
  {
    hide Effect, NewIds;
  }

  /** No step adds, drops or renumbers a pool row, or takes one from its project. */
  lemma StepKeepsPool(w: World, s: Step)
    requires Core(w)
    ensures PoolKept(w.fips, Apply(w, s).fips)
  {
    CoreFips(w);
    ApplyFips(w, s);
    hide Apply, Effect, Core, FipsOk, PoolKept;
    if s.FinishStep? {
      FinishEffect(w, s);
      FinishKeepsPool(w, s.calls);
    } else if s.AllocateFip? || s.AssociateFip? || s.DisassociateFip? {
      FipRequestsKeepPool(w, s);
    } else {
      OtherStepsKeepFips(w, s);
    }
  }

  lemma FinishEffect(w: World, s: Step)
    requires s.FinishStep?
    ensures Effect(w, s) == FinishDelivery(w, s.calls)
  {
    hide FinishDelivery;
  }

  lemma {:induction false} RunKeepsPool(w: World, steps: seq<Step>)
    requires Core(w) && Runs(w, steps)
    ensures PoolKept(w.fips, After(w, steps).fips)
    decreases |steps|
  {
    hide Core, Apply;
    if steps != [] {
      var next := Apply(w, steps[0]);
      StepKeepsCore(w, steps[0]);
      StepKeepsPool(w, steps[0]);
      RunKeepsPool(next, steps[1..]);
    }
  }

  /** In every run the pool is the initial one, and each row is free, held, or bound to its owner's live instance. */
  lemma PoolInEveryRun(w: World, steps: seq<Step>, f: Id)
    requires Init(w) && Runs(w, steps) && f in After(w, steps).fips
    ensures var w' := After(w, steps); var row := w'.fips[f];
      && w'.fips.Keys == w.fips.Keys && row.pub == w.fips[f].pub
      && (row.project.None? <==> row.status.Unallocated?)
      && (row.status.Active? <==> row.instance.Some? && row.priv.Some?)
      && (row.status.Active? ==>
          && row.instance.value in w'.instances
          && Some(w'.instances[row.instance.value].project) == row.project
          && w'.instances[row.instance.value].ipv4 == row.priv)
  {
    InitIsCore(w);
    RunKeepsCore(w, steps);
    RunKeepsPool(w, steps);
    hide Runs, After;
    assert RowOk(After(w, steps).fips[f], After(w, steps).instances);
  }

  // ---- Every run --------------------------------------------------------------------------------------------

  /** No instance is ever left between states: its message is still to be delivered. */
  lemma NoOrphansInAnyRun(w: World, steps: seq<Step>, i: Id)
    requires Init(w) && Runs(w, steps) && i in After(w, steps).instances
    ensures var w' := After(w, steps); var state := w'.instances[i].state;
      && !state.Deleting?
      && (state.Creating? ==> AwaitsCreate(w'.mq, i))
      && (state.Snapshotting? ==> AwaitsSnapshot(w'.mq, i))
      && (w'.mq.queue == [] && w'.mq.inflight.None? ==> state in {Running, Stopped, Errored})
  {
    InitIsCore(w);
    RunKeepsCore(w, steps);
    hide Runs, After;
    var w' := After(w, steps);
    if w'.mq.queue == [] && w'.mq.inflight.None? {
      EmptyQueueMeansSettled(w', i);
    }
  }

  /** Every published message is in one place, and done exactly when its task succeeded. */
  lemma MessagesInAnyRun(w: World, steps: seq<Step>, m: TaskMessage)
    requires Init(w) && Runs(w, steps) && m in After(w, steps).mq.published
    ensures var w' := After(w, steps);
      && Places(w'.mq, m) == 1
      && m.task in w'.tasks && w'.tasks[m.task].kind == m.kind
      && (w'.mq.done[m] == 1 <==> w'.tasks[m.task].status.Succeeded?)
  {
    InitIsCore(w);
    RunKeepsCore(w, steps);
    hide Runs, After;
    var w' := After(w, steps);
    EachMessageInOnePlace(w'.mq, m);
    assert Grounded(m, w'.tasks, w'.instances, w'.used);
  }

  /** Addresses in any run: the three tables agree, no two instances share one, and slots add up to the usable hosts. */
  lemma AddressesInAnyRun(w: World, steps: seq<Step>, i: Id, j: Id, network: Id)
    requires Init(w) && Runs(w, steps)
    ensures var w' := After(w, steps);
      && (i in w'.instances && j in w'.instances && i != j && w'.instances[i].ipv4.Some? ==>
          w'.instances[i].network != w'.instances[j].network || w'.instances[i].ipv4 != w'.instances[j].ipv4)
      && (SlotsOf(w'.ipam.slots, network) != {} ==>
          && network in w'.ipam.networks && Supported(w'.ipam.networks[network].prefix)
          && |FreeAddrs(w'.ipam.slots, network)| + |ClaimedAddrs(w'.ipam.slots, network)|
             == HostCount(w'.ipam.networks[network].prefix, w'.ipam.networks[network].gateway))
  {
    InitIsCore(w);
    RunKeepsCore(w, steps);
    hide Runs, After;
    var w' := After(w, steps);
    if i in w'.instances && j in w'.instances && i != j && w'.instances[i].ipv4.Some?
       && w'.instances[i].network == w'.instances[j].network && w'.instances[i].ipv4 == w'.instances[j].ipv4
    {
      AddressesAreDistinct(w'.ipam, w'.instances, i, j);
    }
    if SlotsOf(w'.ipam.slots, network) != {} {
      SlotsAddUp(w'.ipam, w'.instances, network);
    }
  }

  /** Who owns which address reads the same in slots, allocations and instances, after any run. */
  lemma TablesAgreeInAnyRun(w: World, steps: seq<Step>, network: Id, addr: Addr, i: Id)
    requires Init(w) && Runs(w, steps)
    ensures var w' := After(w, steps);
      var bySlot := Slot(network, addr) in w'.ipam.slots && w'.ipam.slots[Slot(network, addr)] == Some(i);
      var byRow := i in w'.instances && w'.instances[i].network == Some(network) && w'.instances[i].ipv4 == Some(addr);
      var byAllocation := i in w'.ipam.allocations && w'.ipam.allocations[i].network == network && w'.ipam.allocations[i].addr == addr;
      (bySlot <==> byRow) && (byRow <==> byAllocation)
  {
    InitIsCore(w);
    RunKeepsCore(w, steps);
    hide Runs, After;
    ThreeTablesAgree(After(w, steps).ipam, After(w, steps).instances, network, addr, i);
  }

  // ---- NAT rules ------------------------------------------------------------------------------------------------

  lemma HandlerKeepsSingles(w: World, m: TaskMessage, c: Calls)
    requires AtMostOnce(w.rules)
    ensures AtMostOnce(FinishTask(w, m, c).0.rules)
  {
    hide FinishDestroy, FinishCreate, FinishLifecycle, FinishSnapshotCreate, FinishSnapshotRevert, Associate, Disassociate, AtMostOnce;
    if m.kind.InstanceDestroy? {
      if m.instance.Some? {
        DestroyKeepsSingles(w, m, c);
      }
    } else if m.kind.FipAssociate? {
      if m.fip.Some? && m.fip.value in w.fips && w.fips[m.fip.value].priv.Some? {
        AssociateAddsOwnRules(w.rules, BindingOf(w.fips[m.fip.value]), c.faults);
      }
    } else if m.kind.FipDisassociate? {
      if m.pub.Some? && m.priv.Some? {
        DisassociateRemovesOwnRules(w.rules, Binding(m.pub.value, m.priv.value), c.faults);
      }
    } else {
      OtherHandlersKeepRules(w, m, c);
    }
  }

  lemma DestroyKeepsSingles(w: World, m: TaskMessage, c: Calls)
    requires m.instance.Some? && AtMostOnce(w.rules)
    ensures AtMostOnce(FinishDestroy(w, m, c).0.rules)
  {
    hide DetachAllDisks, DetachAllRows, DeleteVm, SetState, SetTask, ForgetInstance, Release, DeleteBlocked, AtMostOnce,
         ClearOfProject, ClearOfInstance;
    var i := m.instance.value;
    RemoveEachRemoves(w.rules, RulesOfAll(BindingsOf(w.fips, m.project, i)) - c.faults.del);
  }

  lemma OtherStepsKeepRules(w: World, s: Step)
    requires !s.FinishStep? && !s.ReconcileStep?
    ensures Effect(w, s).rules == w.rules
  {
    hide ParseAction, SetState, Attach, Detach, CreateVolume, DeleteVolume, TryAssociate, TakeDisassociate;
    if s.NewInstance? {
      hide RequestCreate, CreateInstanceWithIpam;
      CreateRequestCases(w, s.req, s.pubOk);
    }
  }

  lemma StepKeepsSingles(w: World, s: Step)
    requires AtMostOnce(w.rules)
    ensures AtMostOnce(Apply(w, s).rules)
  {
    if s.FinishStep? {
      hide AtMostOnce, FinishTask;
      if w.mq.inflight.Some? {
        HandlerKeepsSingles(w, w.mq.inflight.value.msg, s.calls);
      }
    } else if s.ReconcileStep? {
      ReconcileOnlyAppends(w.rules, s.rows, s.faults);
    } else {
      hide Effect;
      OtherStepsKeepRules(w, s);
    }
  }

  /** No run ever puts a second copy of a floating IP rule on the host. */
  lemma {:induction false} RunKeepsSingles(w: World, steps: seq<Step>)
    requires AtMostOnce(w.rules)
    ensures AtMostOnce(After(w, steps).rules)
    decreases |steps|
  {
    hide Apply, AtMostOnce;
    if steps != [] {
      StepKeepsSingles(w, steps[0]);
      RunKeepsSingles(Apply(w, steps[0]), steps[1..]);
    }
  }

  /** Reconciling after any run, with working commands: every row that needs its rules has each exactly once, the rest stands. */
  lemma ReconcileAfterAnyRun(w: World, steps: seq<Step>, rows: seq<Binding>, f: Id, r: Rule)
    requires Init(w) && Runs(w, steps)
    requires Lists(rows, BindingsToReconcile(After(w, steps).fips, After(w, steps).instances))
    ensures var w' := After(w, steps); var rules' := Reconcile(w'.rules, rows, NO_FAULTS);
      && w'.rules <= rules'
      && (f in w'.fips && NeedsRules(w'.fips[f], w'.instances) && r in RulesOf(BindingOf(w'.fips[f])) ==> Count(rules', r) == 1)
      && (Count(w'.rules, r) > 0 ==> Count(rules', r) == Count(w'.rules, r))
      && (r in rules' ==> r in w'.rules || exists g :: g in w'.fips && NeedsRules(w'.fips[g], w'.instances) && r in RulesOf(BindingOf(w'.fips[g])))
  {
    forall q: Rule | !q.Other? ensures Count(w.rules, q) <= 1 {
      CountPositive(w.rules, q);
    }
    RunKeepsSingles(w, steps);
    hide Runs, After, AtMostOnce;
    var w' := After(w, steps);
    var rules' := Reconcile(w'.rules, rows, NO_FAULTS);
    ReconcileOnlyAppends(w'.rules, rows, NO_FAULTS);
    ReconcileCounts(w'.rules, rows, NO_FAULTS, r);
    if f in w'.fips && NeedsRules(w'.fips[f], w'.instances) && r in RulesOf(BindingOf(w'.fips[f])) {
      assert BindingOf(w'.fips[f]) in rows;
      var k :| 0 <= k < |rows| && rows[k] == BindingOf(w'.fips[f]);
      ReconcileRestores(w'.rules, rows, k, r);
    }
    if r in rules' && r !in w'.rules {
      var i :| 0 <= i < |rules'| && rules'[i] == r;
      var k :| 0 <= k < |rows| && rules'[i] in RulesOf(rows[k]);
      assert rows[k] in BindingsToReconcile(w'.fips, w'.instances);
    }
  }

  /** A rule of a row that is active and whose instance runs. */
  predicate Serves(w: World, f: Id, r: Rule) {
    && f in w.fips && w.fips[f].status == Active && w.fips[f].priv.Some? && w.fips[f].instance.Some?
    && w.fips[f].instance.value in w.instances && w.instances[w.fips[f].instance.value].state == Running
    && Some(w.instances[w.fips[f].instance.value].project) == w.fips[f].project
    && (r == Dnat(w.fips[f].pub, w.fips[f].priv.value) || r == Snat(w.fips[f].pub, w.fips[f].priv.value))
  }

  /** A reconcile with working commands adds exactly the rules of active rows of running instances. */
  lemma ReconcileAddsExactly(w: World, rows: seq<Binding>, r: Rule)
    requires AtMostOnce(w.rules) && Lists(rows, BindingsToReconcile(w.fips, w.instances))
    ensures r in Reconcile(w.rules, rows, NO_FAULTS) <==> r in w.rules || exists f :: Serves(w, f, r)
  {
    var after := Reconcile(w.rules, rows, NO_FAULTS);
    ReconcileOnlyAppends(w.rules, rows, NO_FAULTS);
    hide AtMostOnce, Reconcile;
    if f :| Serves(w, f, r) {
      assert NeedsRules(w.fips[f], w.instances) && BindingOf(w.fips[f]) in BindingsToReconcile(w.fips, w.instances);
      var k :| 0 <= k < |rows| && rows[k] == BindingOf(w.fips[f]);
      ReconcileRestores(w.rules, rows, k, r);
      CountPositive(after, r);
    }
    if r in after && r !in w.rules {
      var i :| 0 <= i < |after| && after[i] == r;
      var k :| 0 <= k < |rows| && after[i] in RulesOf(rows[k]);
      assert rows[k] in BindingsToReconcile(w.fips, w.instances);
      var f :| f in w.fips && NeedsRules(w.fips[f], w.instances) && BindingOf(w.fips[f]) == rows[k];
      assert Serves(w, f, r);
    }
  }

  // ---- Revocations never die ------------------------------------------------------------------------------------

  /** No disassociation has ended in the dead-letter queue. */
  ghost predicate NoDeadRevocation(q: Mq) {
    forall m :: m in Bag(q.dlq) ==> !m.kind.FipDisassociate?
  }

  lemma OnlyFinishBuries(w: World, s: Step)
    requires !s.FinishStep?
    ensures Effect(w, s).mq.dlq == w.mq.dlq
  {
    hide ParseAction, SetState, Attach, Detach, CreateVolume, DeleteVolume, TryAssociate, TakeDisassociate, BeginTask;
    if s.NewInstance? {
      hide RequestCreate, CreateInstanceWithIpam;
      CreateRequestCases(w, s.req, s.pubOk);
    } else if s.ReceiveStep? {
      ReceiveEffect(w.mq);
      ReceiveKeepsDlq(w);
    }
  }

  lemma ReceiveKeepsDlq(w: World)
    ensures ReceiveTask(w).mq.dlq == w.mq.dlq
  {
  }

  /** The handler of a disassociation has no way to fail once its task exists, and it always does. */
  lemma FinishBuriesNoRevocation(w: World, c: Calls)
    requires Core(w) && NoDeadRevocation(w.mq)
    ensures NoDeadRevocation(FinishDelivery(w, c).mq)
  {
    if w.mq.inflight.Some? {
      var m := w.mq.inflight.value.msg;
      var ok := FinishTask(w, m, c).1;
      HeldTaskSettles(w, c);
      HeldTaskKeepsMessages(w, c);
      FinalizeEffect(w.mq, w.mq.inflight.value, ok, c.pubOk);
      if m.kind.FipDisassociate? {
        assert HasTask(w.tasks, m.project, m.task) && Dispatchable(m);
        assert FinishTask(w, m, c) == FinishDisassociate(w, m, c);
      }
      hide Core, FinishTask, FinalizeDelivery, Settled;
    }
  }

  lemma {:induction false} RunBuriesNoRevocation(w: World, steps: seq<Step>)
    requires Core(w) && Runs(w, steps) && NoDeadRevocation(w.mq)
    ensures NoDeadRevocation(After(w, steps).mq)
    decreases |steps|
  {
    hide Core, Effect, NoDeadRevocation;
    if steps != [] {
      var s := steps[0];
      StepKeepsCore(w, s);
      if s.FinishStep? {
        FinishEffect(w, s);
        FinishBuriesNoRevocation(w, s.calls);
      } else {
        OnlyFinishBuries(w, s);
        SameDeadSameRevocations(w.mq, Effect(w, s).mq);
      }
      RunBuriesNoRevocation(Apply(w, s), steps[1..]);
    }
  }

  lemma SameDeadSameRevocations(q: Mq, q': Mq)
    requires NoDeadRevocation(q) && q'.dlq == q.dlq
    ensures NoDeadRevocation(q')
  {
  }

  /**
   * Host and database agree once the queue is empty: every floating IP rule on the host is one of an active row, and
   * a reconcile with working commands then leaves every active row of a running instance with both its rules.
   */
  lemma HostAgreesWhenDrained(w: World, steps: seq<Step>, rows: seq<Binding>, f: Id, r: Rule)
    requires Init(w) && Runs(w, steps) && forall k :: 0 <= k < |steps| ==> NatReliable(steps[k])
    requires After(w, steps).mq.queue == [] && After(w, steps).mq.inflight.None?
    requires Lists(rows, BindingsToReconcile(After(w, steps).fips, After(w, steps).instances)) && !r.Other?
    ensures var w' := After(w, steps); var rules' := Reconcile(w'.rules, rows, NO_FAULTS);
      && (r in rules' ==> ActivePair(w'.fips, PairOf(r)))
      && (f in w'.fips && NeedsRules(w'.fips[f], w'.instances) && r in RulesOf(BindingOf(w'.fips[f])) ==> r in rules')
  {
    var w' := After(w, steps);
    InitIsCore(w);
    RunBuriesNoRevocation(w, steps);
    ReconcileAfterAnyRun(w, steps, rows, f, r);
    CountPositive(Reconcile(w'.rules, rows, NO_FAULTS), r);
    if r in w'.rules {
      RulesAreAlwaysJustified(w, steps, r);
      hide Runs, After, Core;
      assert Undelivered(w'.mq) == multiset{};
    } else if r in Reconcile(w'.rules, rows, NO_FAULTS) {
      hide Runs, After, Core;
      var g :| g in w'.fips && NeedsRules(w'.fips[g], w'.instances) && r in RulesOf(BindingOf(w'.fips[g]));
      ListAgain(w'.fips, PairOf(r), g);
    }
  }

  // ---- The worker drains the queue -----------------------------------------------------------------------------

  /** The worker alone: take a message, finish it, and so on. */
  function WorkerSteps(cs: seq<Calls>): seq<Step> {
    if cs == [] then [] else [ReceiveStep, FinishStep(cs[0])] + WorkerSteps(cs[1..])
  }

  lemma FinishIsFinalize(w: World, c: Calls)
    requires Core(w) && w.mq.inflight.Some? && c.pubOk
    ensures exists ok :: FinishDelivery(w, c).mq == FinalizeDelivery(w.mq, w.mq.inflight.value, ok, true)
  {
    var m := w.mq.inflight.value.msg;
    var (x, ok) := FinishTask(w, m, c);
    HeldTaskSettles(w, c);
    assert x.mq == w.mq;
    hide Core, FinishTask, Settled, FinalizeDelivery;
    assert FinishDelivery(w, c).mq == FinalizeDelivery(w.mq, w.mq.inflight.value, ok, true);
  }

  /** One delivery of the worker is one delivery of the queue. */
  lemma WorkerDelivers(w: World, c: Calls)
    requires Core(w) && w.mq.inflight.None? && w.mq.queue != [] && c.pubOk
    ensures Core(FinishDelivery(ReceiveTask(w), c))
    ensures exists ok :: FinishDelivery(ReceiveTask(w), c).mq == Deliver(w.mq, ok, true)
  {
    var taken := ReceiveTask(w);
    assert taken.mq == Receive(w.mq) && taken.mq.inflight.Some?;
    ReceiveKeepsCore(w);
    FinishKeepsCore(taken, c);
    FinishIsFinalize(taken, c);
    hide Core, FinishDelivery, ReceiveTask;
    var ok :| FinishDelivery(taken, c).mq == FinalizeDelivery(taken.mq, taken.mq.inflight.value, ok, true);
    assert FinishDelivery(taken, c).mq == Deliver(w.mq, ok, true);
  }

  lemma IdleWorker(w: World, c: Calls)
    requires w.mq.inflight.None? && w.mq.queue == []
    ensures FinishDelivery(ReceiveTask(w), c) == w
  {
  }

  lemma WorkerPair(w: World, c: Calls, rest: seq<Step>)
    ensures After(w, [ReceiveStep, FinishStep(c)] + rest) == After(FinishDelivery(ReceiveTask(w), c), rest)
  {
    hide FinishDelivery, ReceiveTask;
    var steps := [ReceiveStep, FinishStep(c)] + rest;
    assert steps[1..][1..] == rest;
  }

  /**
   * With working publishes the worker alone empties the queue within the attempts left, whatever its calls do. Then
   * no instance is between states.
   */
  lemma {:induction false} WorkerDrainsQueue(w: World, cs: seq<Calls>)
    requires Core(w) && w.mq.inflight.None?
    requires (forall k :: 0 <= k < |cs| ==> cs[k].pubOk) && |cs| >= Attempts(w.mq.queue)
    ensures var w' := After(w, WorkerSteps(cs));
      && Core(w') && w'.mq.queue == [] && w'.mq.inflight.None?
      && w'.mq.published == Bag(w'.mq.dlq) + w'.mq.done
      && forall i :: i in w'.instances ==> w'.instances[i].state in {Running, Stopped, Errored}
    decreases |cs|
  {
    CoreCounts(w);
    AttemptsCoverQueue(w.mq.queue);
    hide Core, FinishDelivery, ReceiveTask, CountsInRange, Deliver;
    if cs == [] {
      EmptyQueueIsDone(w);
    } else {
      var next := FinishDelivery(ReceiveTask(w), cs[0]);
      WorkerPair(w, cs[0], WorkerSteps(cs[1..]));
      if w.mq.queue == [] {
        IdleWorker(w, cs[0]);
      } else {
        WorkerDelivers(w, cs[0]);
        var ok :| next.mq == Deliver(w.mq, ok, true);
        DeliveryLowersAttempts(w.mq, ok);
      }
      WorkerDrainsQueue(next, cs[1..]);
    }
  }

  lemma CoreCounts(w: World)
    requires Core(w)
    ensures CountsInRange(w.mq)
    ensures forall i :: 0 <= i < |w.mq.queue| ==> CountInRange(w.mq.queue[i])
  {
  }

  lemma EmptyQueueIsDone(w: World)
    requires Core(w) && w.mq.queue == [] && w.mq.inflight.None?
    ensures w.mq.published == Bag(w.mq.dlq) + w.mq.done
    ensures forall i :: i in w.instances ==> w.instances[i].state in {Running, Stopped, Errored}
  {
    forall i | i in w.instances ensures w.instances[i].state in {Running, Stopped, Errored} {
      EmptyQueueMeansSettled(w, i);
    }
    assert Undelivered(w.mq) == multiset{};
  }
}
