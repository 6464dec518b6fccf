/** How often a message has failed, in every run: its header, the dead-letter queue, and the status of its task. */
module Retries {
  import opened Model
  import opened Messages
  import opened Control
  import opened System
  import opened Tracking
  import opened Invariants
  import opened Requests
  import opened History
  import Ipam
  import NatRules
  import FipRows

  // ---- Failed attempts ---------------------------------------------------------------------------------

  /** The step ends a delivery of the message with a failure that is passed on: republished or buried. */
  predicate FailedAttempt(w: World, s: Step, m: TaskMessage) {
    && s.FinishStep? && w.mq.inflight.Some? && w.mq.inflight.value.msg == m
    && !FinishTask(w, m, s.calls).1 && s.calls.pubOk
  }

  ghost function Failures(w: World, steps: seq<Step>, m: TaskMessage): nat
    decreases |steps|
  {
    if steps == [] then 0
    else (if FailedAttempt(w, steps[0], m) then 1 else 0) + Failures(Apply(w, steps[0]), steps[1..], m)
  }

  // ---- The count kept ---------------------------------------------------------------------------------------

  predicate HasCount(d: Delivery, m: TaskMessage, n: nat) {
    d.msg == m ==> RetryCount(d.headers) == n && n < MAX_CONSECUTIVE_FAILURES
  }

  /** Wherever the message waits its header says n, and it is dead exactly at the limit. */
  ghost predicate Counted(q: Mq, m: TaskMessage, n: nat) {
    && n <= MAX_CONSECUTIVE_FAILURES
    && (m !in q.published ==> n == 0)
    && (forall k :: 0 <= k < |q.queue| ==> HasCount(q.queue[k], m, n))
    && (q.inflight.Some? ==> HasCount(q.inflight.value, m, n))
    && (m in Bag(q.dlq) <==> n == MAX_CONSECUTIVE_FAILURES)
  }

  lemma {:induction false} QueuedIsInBag(ds: seq<Delivery>, k: nat)
    requires k < |ds|
    ensures ds[k].msg in Bag(ds)
  {
    if k > 0 {
      QueuedIsInBag(ds[1..], k - 1);
    }
  }

  lemma PublishKeepsCounted(q: Mq, x: TaskMessage, m: TaskMessage, n: nat)
    requires Counted(q, m, n) && x !in q.published
    ensures Counted(PublishTask(q, x), m, n)
  {
  }

  lemma ReceiveKeepsCounted(q: Mq, m: TaskMessage, n: nat)
    requires Counted(q, m, n)
    ensures Counted(Receive(q), m, n)
  {
  }

  /** Each failure that is passed on raises the count by one, and nothing else changes it. */
  lemma FinalizeCounts(q: Mq, m: TaskMessage, n: nat, ok: bool, pubOk: bool)
    requires Counted(q, m, n) && q.inflight.Some? && m in q.published
    requires q.inflight.value.msg == m ==> m !in Bag(q.queue)
    ensures Counted(FinalizeDelivery(q, q.inflight.value, ok, pubOk), m,
                    if q.inflight.value.msg == m && !ok && pubOk then n + 1 else n)
  {
    var d := q.inflight.value;
    var q' := FinalizeDelivery(q, d, ok, pubOk);
    FinalizeEffect(q, d, ok, pubOk);
    if d.msg == m {
      forall k | 0 <= k < |q.queue| ensures q.queue[k].msg != m {
        QueuedIsInBag(q.queue, k);
      }
      RetryCountOfRetry(n);
    }
  }

  lemma FinalizeOfOther(q: Mq, m: TaskMessage, n: nat, ok: bool, pubOk: bool)
    requires Counted(q, m, n) && q.inflight.Some? && q.inflight.value.msg != m
    ensures Counted(FinalizeDelivery(q, q.inflight.value, ok, pubOk), m, n)
  {
    FinalizeEffect(q, q.inflight.value, ok, pubOk);
  }

  // ---- What a step does to the messages ------------------------------------------------------------------------

  /** The kinds of task a request asks for. */
  predicate Asks(s: Step, k: TaskKind) {
    match s
    case NewInstance(_, _) => k.InstanceCreate?
    case InstanceAction(_, _, _, _, _) => k.InstanceStart? || k.InstanceStop? || k.InstanceReboot? || k.InstanceDestroy?
    case TakeSnapshot(_, _, _, _, _, _) => k.SnapshotCreate?
    case RevertSnapshot(_, _, _, _, _) => k.SnapshotRevert?
    case AssociateFip(_, _, _, _, _) => k.FipAssociate?
    case DisassociateFip(_, _, _, _) => k.FipDisassociate?
    case _ => false
  }

  /** Nothing, or one new message of a task drawn by the step, of the kind it asks for. */
  ghost predicate Publishes(q: Mq, q': Mq, s: Step) {
    q' == q || exists x: TaskMessage :: x.task in NewIds(s) && Asks(s, x.kind) && q' == PublishTask(q, x)
  }

  lemma EnqueuePublishes(w: World, x: World, m: TaskMessage, pubOk: bool, s: Step)
    requires x.mq == w.mq && m.task in NewIds(s) && Asks(s, m.kind)
    ensures Publishes(w.mq, Enqueue(x, m, pubOk).mq, s)
  {
  }

  lemma CreatePublishes(w: World, r: Ipam.CreateRequest, pubOk: bool)
    ensures Publishes(w.mq, RequestCreate(w, r, pubOk).0.mq, NewInstance(r, pubOk))
  {
    hide RequestCreate, Ipam.CreateInstanceWithIpam;
    CreateRequestCases(w, r, pubOk);
  }

  lemma RequestsPublish(w: World, s: Step)
    requires s.InstanceAction? || s.TakeSnapshot? || s.RevertSnapshot? || s.AssociateFip? || s.DisassociateFip?
    ensures Publishes(w.mq, Effect(w, s).mq, s)
  {
    hide ParseAction, FipRows.TakeDisassociate, FipRows.Rollback, SetState, Publishes, PublishTask;
    assert Publishes(w.mq, w.mq, s) by {
      SameMessages(w.mq, s);
    }
    match s
    case InstanceAction(p, i, action, t, pubOk) =>
      var a := ParseAction(action);
      if a.Some? {
        EnqueuePublishes(w, w, InstanceMessage(t, TaskKindFor(a.value), p, i), pubOk, s);
      }
    case TakeSnapshot(p, i, name, snap, t, pubOk) =>
      if HasInstance(w.instances, p, i) {
        EnqueuePublishes(w, w, SnapshotMessage(t, SnapshotCreate, p, i, snap, w.instances[i].state), pubOk, s);
      }
    case RevertSnapshot(p, i, snap, t, pubOk) =>
      if HasInstance(w.instances, p, i) {
        EnqueuePublishes(w, w, SnapshotMessage(t, SnapshotRevert, p, i, snap, w.instances[i].state), pubOk, s);
      }
    case AssociateFip(p, f, i, t, pubOk) =>
      if FipRows.CanAssociate(w.fips, w.instances, p, f, i) {
        EnqueuePublishes(w, w, AssociateMessage(t, p, i, f, NatRules.Binding(w.fips[f].pub, w.instances[i].ipv4.value)), pubOk, s);
      }
    case DisassociateFip(p, f, t, pubOk) =>
      var taken := FipRows.TakeDisassociate(w.fips, p, f).1;
      if taken.Some? {
        EnqueuePublishes(w, w, DisassociateMessage(t, p, f, taken.value), pubOk, s);
      }
  }

  lemma SameMessages(q: Mq, s: Step)
    ensures Publishes(q, q, s)
  {
  }

  lemma OthersKeepMessages(w: World, s: Step)
    requires s.NewNetwork? || s.AllocateFip? || s.NewVolume? || s.DropVolume? || s.AttachVolume? || s.DetachVolume?
             || s.SyncStep? || s.SweepStep? || s.ReconcileStep? || s.GuestPower?
    ensures Effect(w, s).mq == w.mq
  {
  }

  /** Every step but the worker's two at most publishes. */
  lemma StepPublishes(w: World, s: Step)
    requires !s.ReceiveStep? && !s.FinishStep?
    ensures Publishes(w.mq, Apply(w, s).mq, s)
  {
    ApplyMessages(w, s);
    if s.NewInstance? {
      CreatePublishes(w, s.req, s.pubOk);
      hide RequestCreate, Publishes;
    } else {
      hide Effect, Apply, Publishes;
      if s.InstanceAction? || s.TakeSnapshot? || s.RevertSnapshot? || s.AssociateFip? || s.DisassociateFip? {
        RequestsPublish(w, s);
      } else {
        OthersKeepMessages(w, s);
        SameMessages(w.mq, s);
      }
    }
  }

  lemma ApplyMessages(w: World, s: Step)
    ensures Apply(w, s).mq == Effect(w, s).mq && Apply(w, s).tasks == Effect(w, s).tasks
  {
    hide Effect, NewIds;
  }

  lemma NewTasksAreUnpublished(w: World, x: TaskMessage)
    requires Core(w) && x.task !in w.used
    ensures x !in w.mq.published
  {
  }

  // ---- The count over steps and runs --------------------------------------------------------------------------------

  lemma FinishCounts(w: World, c: Calls, m: TaskMessage, n: nat)
    requires Core(w) && Counted(w.mq, m, n)
    ensures Counted(FinishDelivery(w, c).mq, m, n + if FailedAttempt(w, FinishStep(c), m) then 1 else 0)
  {
    if w.mq.inflight.Some? {
      var held := w.mq.inflight.value.msg;
      var ok := FinishTask(w, held, c).1;
      assert FailedAttempt(w, FinishStep(c), m) <==> held == m && !ok && c.pubOk by {
        hide FinishTask;
      }
      HeldIsNotDone(w.mq, w.tasks, w.instances, w.used);
      FinishMq(w, c);
      hide *;
      if held == m {
        FinalizeCounts(w.mq, m, n, ok, c.pubOk);
      } else {
        FinalizeOfOther(w.mq, m, n, ok, c.pubOk);
      }
    }
  }

  lemma FinishMq(w: World, c: Calls)
    requires Core(w) && w.mq.inflight.Some?
    ensures FinishDelivery(w, c).mq
         == FinalizeDelivery(w.mq, w.mq.inflight.value, FinishTask(w, w.mq.inflight.value.msg, c).1, c.pubOk)
  {
    HeldTaskKeepsMq(w, c);
    hide Core, FinishTask, FinalizeDelivery;
  }

  lemma HeldTaskKeepsMq(w: World, c: Calls)
    requires Core(w) && w.mq.inflight.Some?
    ensures FinishTask(w, w.mq.inflight.value.msg, c).0.mq == w.mq
  {
    hide Core, FinishTask;
    HeldTaskSettles(w, c);
  }

  lemma ReceiveTaskMq(w: World)
    ensures ReceiveTask(w).mq == if w.mq.inflight.None? && Receive(w.mq).inflight.Some? then Receive(w.mq) else w.mq
  {
    hide Receive;
  }

  lemma OnlyFinishFails(w: World, s: Step, m: TaskMessage)
    ensures !s.FinishStep? ==> !FailedAttempt(w, s, m)
    ensures s.FinishStep? ==> s == FinishStep(s.calls)
    ensures s.ReceiveStep? ==> Effect(w, s).mq == if w.mq.inflight.None? && Receive(w.mq).inflight.Some? then Receive(w.mq) else w.mq
  {
    ReceiveTaskMq(w);
    hide ReceiveTask, Receive, FinishTask;
  }

  lemma StepCounts(w: World, s: Step, m: TaskMessage, n: nat)
    requires Core(w) && Enabled(w, s) && Counted(w.mq, m, n)
    ensures Counted(Apply(w, s).mq, m, n + if FailedAttempt(w, s, m) then 1 else 0)
  {
    hide *;
    ApplyMessages(w, s);
    OnlyFinishFails(w, s, m);
    if s.FinishStep? {
      FinishEffect(w, s);
      FinishCounts(w, s.calls, m, n);
    } else if s.ReceiveStep? {
      ReceiveKeepsCounted(w.mq, m, n);
    } else {
      DrawsNew(w, s);
      StepPublishes(w, s);
      PublishedCounts(w, s, m, n);
    }
  }

  lemma DrawsNew(w: World, s: Step)
    requires Enabled(w, s)
    ensures NewIds(s) !! w.used
  {
    hide NewIds;
  }

  lemma PublishedCounts(w: World, s: Step, m: TaskMessage, n: nat)
    requires Core(w) && NewIds(s) !! w.used && Counted(w.mq, m, n)
    requires Publishes(w.mq, Apply(w, s).mq, s)
    ensures Counted(Apply(w, s).mq, m, n)
  {
    hide Core, Counted, Apply, NewIds, PublishTask;
    if Apply(w, s).mq != w.mq {
      var x: TaskMessage :| x.task in NewIds(s) && Asks(s, x.kind) && Apply(w, s).mq == PublishTask(w.mq, x);
      NewTasksAreUnpublished(w, x);
      PublishKeepsCounted(w.mq, x, m, n);
    }
  }

  lemma {:induction false} RunCounts(w: World, steps: seq<Step>, m: TaskMessage, n: nat)
    requires Core(w) && Runs(w, steps) && Counted(w.mq, m, n)
    ensures Counted(After(w, steps).mq, m, n + Failures(w, steps, m))
    decreases |steps|
  {
    hide Core, Counted, Apply, FailedAttempt;
    if steps != [] {
      StepKeepsCore(w, steps[0]);
      StepCounts(w, steps[0], m, n);
      RunCounts(Apply(w, steps[0]), steps[1..], m, n + if FailedAttempt(w, steps[0], m) then 1 else 0);
    }
  }

  /**
   * In every run, whatever else happens: a message is dead exactly after three failures that were passed on, never fails
   * more often, and as long as it is queued or held its header is the number of them.
   */
  lemma FailuresInAnyRun(w: World, steps: seq<Step>, m: TaskMessage)
    requires Init(w) && Runs(w, steps)
    ensures var q := After(w, steps).mq; var n := Failures(w, steps, m);
      && n <= MAX_CONSECUTIVE_FAILURES
      && (m in Bag(q.dlq) <==> n == MAX_CONSECUTIVE_FAILURES)
      && (forall k :: 0 <= k < |q.queue| && q.queue[k].msg == m ==> RetryCount(q.queue[k].headers) == n && n < MAX_CONSECUTIVE_FAILURES)
      && (q.inflight.Some? && q.inflight.value.msg == m ==> RetryCount(q.inflight.value.headers) == n && n < MAX_CONSECUTIVE_FAILURES)
  {
    hide *;
    InitIsCore(w);
    StartsCounted(w, m);
    RunCounts(w, steps, m, 0);
    CountSays(After(w, steps).mq, m, Failures(w, steps, m));
  }

  lemma StartsCounted(w: World, m: TaskMessage)
    requires Init(w)
    ensures Counted(w.mq, m, 0)
  {
  }

  lemma CountSays(q: Mq, m: TaskMessage, n: nat)
    requires Counted(q, m, n)
    ensures n <= MAX_CONSECUTIVE_FAILURES && (m in Bag(q.dlq) <==> n == MAX_CONSECUTIVE_FAILURES)
    ensures forall k :: 0 <= k < |q.queue| && q.queue[k].msg == m ==> RetryCount(q.queue[k].headers) == n && n < MAX_CONSECUTIVE_FAILURES
    ensures q.inflight.Some? && q.inflight.value.msg == m ==>
      RetryCount(q.inflight.value.headers) == n && n < MAX_CONSECUTIVE_FAILURES
  {
    hide RetryCount;
    assert forall k :: 0 <= k < |q.queue| ==> HasCount(q.queue[k], m, n);
  }

  // ---- Failures that cannot be passed on --------------------------------------------------------------------------------

  /** So many deliveries of the head in a row, each failing and each with a publish that fails. */
  function NeverPassedOn(q: Mq, times: nat): Mq
    decreases times
  {
    if times == 0 then q
    else
      var taken := Receive(q);
      if taken.inflight.None? then q
      else NeverPassedOn(FinalizeDelivery(taken, taken.inflight.value, false, false), times - 1)
  }

  /** Such failures are not counted: however many there are, the message is where it was, with the header it had. */
  lemma {:induction false} UncountedFailures(q: Mq, times: nat)
    requires q.inflight.None?
    ensures NeverPassedOn(q, times) == q
  {
    if times > 0 && q.queue != [] {
      assert [q.queue[0]] + q.queue[1..] == q.queue;
      UncountedFailures(q, times - 1);
    }
  }

  // ---- Dead messages have failed tasks ---------------------------------------------------------------------------------------

  ghost predicate DeadHaveFailed(q: Mq, tasks: Tasks) {
    forall m :: m in Bag(q.dlq) ==> m.task in tasks && tasks[m.task].status.Failed?
  }

  lemma NewTaskKeepsDead(w: World, w': World, ids: set<Id>)
    requires DeadHaveFailed(w.mq, w.tasks) && w'.mq.dlq == w.mq.dlq && NewTaskOnly(w, w', ids)
    requires ids !! w.used && w.tasks.Keys <= w.used
    ensures DeadHaveFailed(w'.mq, w'.tasks)
  {
  }

  lemma ReceiveKeepsDead(w: World)
    requires Core(w) && DeadHaveFailed(w.mq, w.tasks)
    ensures var w' := ReceiveTask(w); DeadHaveFailed(w'.mq, w'.tasks)
  {
    if w.mq.inflight.None? && Receive(w.mq).inflight.Some? {
      var q := Receive(w.mq);
      TakingKeepsTracked(w.mq, w.tasks, w.instances, w.used);
      MarkKeepsDead(q, w.tasks, w.instances, w.used);
    }
  }

  lemma DeadAreOthers(q: Mq, tasks: Tasks, instances: map<Id, Instance>, used: set<Id>, m: TaskMessage)
    requires Tracked(q, tasks, instances, used) && q.inflight.Some? && m in Bag(q.dlq)
    ensures m.task != q.inflight.value.msg.task
  {
    HeldIsNotDone(q, tasks, instances, used);
    assert Everywhere(q)[m] >= Bag(q.dlq)[m] > 0;
    assert m in q.published;
  }

  lemma MarkKeepsDead(q: Mq, tasks: Tasks, instances: map<Id, Instance>, used: set<Id>)
    requires Tracked(q, tasks, instances, used) && q.inflight.Some? && DeadHaveFailed(q, tasks)
    ensures var m := q.inflight.value.msg; DeadHaveFailed(q, SetTask(tasks, m.project, m.task, InProgress))
  {
    forall m | m in Bag(q.dlq) ensures m.task != q.inflight.value.msg.task {
      DeadAreOthers(q, tasks, instances, used, m);
    }
  }

  lemma CloseKeepsDead(q: Mq, tasks: Tasks, tasks': Tasks, instances: map<Id, Instance>, used: set<Id>, ok: bool, pubOk: bool)
    requires Tracked(q, tasks, instances, used) && q.inflight.Some? && DeadHaveFailed(q, tasks)
    requires TaskClosed(tasks, tasks', q.inflight.value.msg.task, ok)
    ensures DeadHaveFailed(FinalizeDelivery(q, q.inflight.value, ok, pubOk), tasks')
  {
    var d := q.inflight.value;
    HeldIsNotDone(q, tasks, instances, used);
    FinalizeEffect(q, d, ok, pubOk);
    forall m | m in Bag(q.dlq) ensures m.task != d.msg.task {
      DeadAreOthers(q, tasks, instances, used, m);
    }
    hide Tracked, FinalizeDelivery;
  }

  lemma FinishKeepsDead(w: World, c: Calls)
    requires Core(w) && DeadHaveFailed(w.mq, w.tasks)
    ensures var w' := FinishDelivery(w, c); DeadHaveFailed(w'.mq, w'.tasks)
  {
    if w.mq.inflight.Some? {
      var m := w.mq.inflight.value.msg;
      var (w', ok) := FinishTask(w, m, c);
      HeldTaskSettles(w, c);
      hide FinishTask, FinalizeDelivery, TaskClosed, InstancesSettled, TablesOk, DeadHaveFailed, NoOrphans, Tracked;
      CloseKeepsDead(w.mq, w.tasks, w'.tasks, w.instances, w.used, ok, c.pubOk);
    }
  }

  lemma SweepKeepsDead(q: Mq, tasks: Tasks, stale: set<Id>)
    requires DeadHaveFailed(q, tasks)
    ensures DeadHaveFailed(q, SweepTasks(tasks, stale))
  {
  }

  lemma PublishesKeepsDlq(q: Mq, q': Mq, s: Step)
    requires Publishes(q, q', s)
    ensures q'.dlq == q.dlq && q.published <= q'.published
  {
  }

  lemma AddTasks(w: World, s: Step)
    requires !s.ReceiveStep? && !s.FinishStep? && !s.SweepStep?
    ensures NewTaskOnly(w, Effect(w, s), NewIds(s))
  {
    if s.NewInstance? {
      CreateAddsTask(w, s.req, s.pubOk);
      CreateEffect(w, s);
      hide Effect, RequestCreate;
    } else if s.InstanceAction? || s.TakeSnapshot? || s.RevertSnapshot? || s.AssociateFip? || s.DisassociateFip? {
      hide Effect;
      RequestsAddTask(w, s);
    } else {
      hide Effect;
      QuietStepsKeepTasks(w, s);
    }
  }

  lemma StepKeepsDead(w: World, s: Step)
    requires Core(w) && Enabled(w, s) && DeadHaveFailed(w.mq, w.tasks)
    ensures var w' := Apply(w, s); DeadHaveFailed(w'.mq, w'.tasks)
  {
    ApplyMessages(w, s);
    assert w.tasks.Keys <= w.used;
    hide Apply, Core, DeadHaveFailed;
    if s.FinishStep? {
      hide FinishDelivery;
      FinishKeepsDead(w, s.calls);
    } else if s.ReceiveStep? {
      hide ReceiveTask;
      ReceiveKeepsDead(w);
    } else if s.SweepStep? {
      SweepKeepsDead(w.mq, w.tasks, s.stale);
    } else {
      hide Effect;
      StepPublishes(w, s);
      PublishesKeepsDlq(w.mq, Effect(w, s).mq, s);
      AddTasks(w, s);
      NewTaskKeepsDead(w, Effect(w, s), NewIds(s));
    }
  }

  lemma {:induction false} RunKeepsDead(w: World, steps: seq<Step>)
    requires Core(w) && Runs(w, steps) && DeadHaveFailed(w.mq, w.tasks)
    ensures var w' := After(w, steps); DeadHaveFailed(w'.mq, w'.tasks)
    decreases |steps|
  {
    hide Core, Apply, DeadHaveFailed;
    if steps != [] {
      StepKeepsCore(w, steps[0]);
      StepKeepsDead(w, steps[0]);
      RunKeepsDead(Apply(w, steps[0]), steps[1..]);
    }
  }

  // ---- From an accepted request to its end ----------------------------------------------------------------------------------------

  lemma FinalizeTakesOff(q: Mq, ok: bool, pubOk: bool)
    requires q.inflight.Some?
    ensures var q' := FinalizeDelivery(q, q.inflight.value, ok, pubOk);
      q'.published == q.published && Undelivered(q') <= Undelivered(q)
  {
    FinalizeEffect(q, q.inflight.value, ok, pubOk);
    FinalizeKeeps(q, q.inflight.value, ok, pubOk);
    hide FinalizeDelivery, Undelivered;
  }

  /** The worker's steps publish nothing and only ever take messages off the line. */
  lemma FinishTakesOff(w: World, c: Calls)
    requires Core(w)
    ensures var q' := FinishDelivery(w, c).mq; q'.published == w.mq.published && Undelivered(q') <= Undelivered(w.mq)
  {
    if w.mq.inflight.Some? {
      var ok := FinishTask(w, w.mq.inflight.value.msg, c).1;
      FinishMq(w, c);
      hide *;
      FinalizeTakesOff(w.mq, ok, c.pubOk);
    } else {
      hide Core, FinishTask;
    }
  }

  lemma ReceiveTakesNothingOff(w: World)
    ensures var q' := ReceiveTask(w).mq; q'.published == w.mq.published && Undelivered(q') == Undelivered(w.mq)
  {
    ReceiveTaskMq(w);
    ReceiveEffect(w.mq);
    hide ReceiveTask, Receive, Undelivered;
  }

  lemma WorkerTakesOff(w: World, s: Step)
    requires Core(w) && (s.FinishStep? || s.ReceiveStep?)
    ensures var q' := Apply(w, s).mq; q'.published == w.mq.published && Undelivered(q') <= Undelivered(w.mq)
  {
    ApplyMessages(w, s);
    if s.FinishStep? {
      FinishEffect(w, s);
      hide *;
      FinishTakesOff(w, s.calls);
    } else {
      ReceiveIs(w, s);
      hide *;
      ReceiveTakesNothingOff(w);
    }
  }

  lemma ReceiveIs(w: World, s: Step)
    requires s.ReceiveStep?
    ensures Effect(w, s) == ReceiveTask(w)
  {
    hide ReceiveTask;
  }

  lemma StepKeepsPublished(w: World, s: Step, m: TaskMessage)
    requires Core(w) && m in w.mq.published
    ensures m in Apply(w, s).mq.published
  {
    hide *;
    if s.FinishStep? || s.ReceiveStep? {
      WorkerTakesOff(w, s);
    } else {
      StepPublishes(w, s);
      PublishesKeepsDlq(w.mq, Apply(w, s).mq, s);
    }
  }

  lemma {:induction false} RunKeepsPublished(w: World, steps: seq<Step>, m: TaskMessage)
    requires Core(w) && Runs(w, steps) && m in w.mq.published
    ensures m in After(w, steps).mq.published
    decreases |steps|
  {
    hide Core, Apply;
    if steps != [] {
      StepKeepsCore(w, steps[0]);
      StepKeepsPublished(w, steps[0], m);
      RunKeepsPublished(Apply(w, steps[0]), steps[1..], m);
    }
  }

  lemma {:induction false} RunsInTwo(w: World, a: seq<Step>, b: seq<Step>)
    ensures After(w, a + b) == After(After(w, a), b)
    ensures Runs(w, a + b) <==> Runs(w, a) && Runs(After(w, a), b)
    decreases |a|
  {
    hide Apply;
    if a == [] {
      assert a + b == b;
    } else {
      assert (a + b)[1..] == a[1..] + b;
      RunsInTwo(Apply(w, a[0]), a[1..], b);
    }
  }

  /** Once published, a message is always in one place, and with the queue drained its task's status says in which. */
  lemma PublishedInAnyRun(w: World, before: seq<Step>, later: seq<Step>, m: TaskMessage)
    requires Init(w) && Runs(w, before + later) && m in After(w, before).mq.published
    ensures var w' := After(w, before + later); var q := w'.mq; var n := Failures(w, before + later, m);
      && Places(q, m) == 1 && m.task in w'.tasks
      && (q.done[m] == 1 <==> w'.tasks[m.task].status.Succeeded?)
      && (Bag(q.dlq)[m] == 1 <==> n == MAX_CONSECUTIVE_FAILURES)
      && (Bag(q.dlq)[m] == 1 ==> w'.tasks[m.task].status.Failed?)
      && (q.queue == [] && q.inflight.None? ==>
          if q.done[m] == 1 then w'.tasks[m.task].status.Succeeded? && n < MAX_CONSECUTIVE_FAILURES
          else w'.tasks[m.task].status.Failed? && n == MAX_CONSECUTIVE_FAILURES)
  {
    RunsInTwo(w, before, later);
    InitIsCore(w);
    hide Core, Failures;
    RunKeepsCore(w, before);
    RunKeepsPublished(After(w, before), later, m);
    var steps := before + later;
    assert DeadHaveFailed(w.mq, w.tasks);
    RunKeepsDead(w, steps);
    MessagesInAnyRun(w, steps, m);
    FailuresInAnyRun(w, steps, m);
    hide Runs, After;
  }

  /** In particular for an action a request accepted: the task it made tells its end. */
  lemma AcceptedActionEnds(w: World, before: seq<Step>, s: Step, later: seq<Step>)
    requires s.InstanceAction? && Init(w) && Runs(w, before + [s] + later)
    requires var x := After(w, before); RequestAction(x, s.project, s.instance, s.action, s.task, s.pubOk).1.Accepted?
    ensures ParseAction(s.action).Some?
    ensures var m := InstanceMessage(s.task, TaskKindFor(ParseAction(s.action).value), s.project, s.instance);
      var w' := After(w, before + [s] + later); var q := w'.mq;
      && Places(q, m) == 1 && s.task in w'.tasks
      && (q.done[m] == 1 <==> w'.tasks[s.task].status.Succeeded?)
      && (q.queue == [] && q.inflight.None? ==>
          if w'.tasks[s.task].status.Succeeded? then q.done[m] == 1
          else w'.tasks[s.task].status.Failed? && Bag(q.dlq)[m] == 1
               && Failures(w, before + [s] + later, m) == MAX_CONSECUTIVE_FAILURES)
  {
    var x := After(w, before);
    var m := InstanceMessage(s.task, TaskKindFor(ParseAction(s.action).value), s.project, s.instance);
    AcceptedIsPublished(x, s);
    RunsInTwo(w, before, [s]);
    assert After(x, [s]) == Apply(x, s) by {
      hide Apply;
      assert [s][1..] == [];
    }
    hide *;
    PublishedInAnyRun(w, before + [s], later, m);
  }

  lemma AcceptedIsPublished(x: World, s: Step)
    requires s.InstanceAction? && RequestAction(x, s.project, s.instance, s.action, s.task, s.pubOk).1.Accepted?
    ensures ParseAction(s.action).Some?
    ensures InstanceMessage(s.task, TaskKindFor(ParseAction(s.action).value), s.project, s.instance) in Apply(x, s).mq.published
  {
    hide ParseAction;
  }
}
