/** Every published message is in one place, and its task says which. */
module Tracking {
  import opened Model
  import opened Messages
  import opened Control

  type Tasks = map<Id, Task>
  type InstanceTable = map<Id, Instance>

  predicate IsSnapshotKind(k: TaskKind) {
    k.SnapshotCreate? || k.SnapshotRevert?
  }

  /** A message as requests make them. */
  predicate Proper(m: TaskMessage) {
    && Dispatchable(m) && !m.kind.UnknownKind?
    && (IsSnapshotKind(m.kind) ==> CanSnapshot(m.prior.value))
  }

  /** A message and the rows it names. */
  predicate Grounded(m: TaskMessage, tasks: Tasks, instances: InstanceTable, used: set<Id>) {
    && m.task in tasks && tasks[m.task].kind == m.kind && tasks[m.task].project == m.project
    && (m.instance.Some? ==> m.instance.value in used)
    && (m.instance.Some? && m.instance.value in instances ==> instances[m.instance.value].project == m.project)
  }

  ghost predicate Conserved(q: Mq) {
    && q.published == Everywhere(q)
    && forall m :: m in q.published ==> q.published[m] == 1
  }

  ghost predicate AllGrounded(q: Mq, tasks: Tasks, instances: InstanceTable, used: set<Id>) {
    && tasks.Keys <= used && instances.Keys <= used
    && forall m :: m in q.published ==> Proper(m) && Grounded(m, tasks, instances, used)
  }

  ghost predicate OneMessagePerTask(q: Mq) {
    && (forall m, n :: m in q.published && n in q.published && m.task == n.task ==> m == n)
    && (forall m, n ::
          m in q.published && n in q.published && m.kind.InstanceCreate? && n.kind.InstanceCreate? && m.instance == n.instance
          ==> m == n)
  }

  /** A message is done exactly when its task succeeded. */
  ghost predicate Truthful(q: Mq, tasks: Tasks) {
    forall m :: m in q.published && m.task in tasks ==> (m in q.done <==> tasks[m.task].status.Succeeded?)
  }

  /** A task is in progress only while the worker holds its message. */
  ghost predicate ProgressIsHeld(q: Mq, tasks: Tasks) {
    forall t :: t in tasks && tasks[t].status.InProgress? ==> q.inflight.Some? && q.inflight.value.msg.task == t
  }

  ghost predicate Tracked(q: Mq, tasks: Tasks, instances: InstanceTable, used: set<Id>) {
    && Conserved(q) && AllGrounded(q, tasks, instances, used) && OneMessagePerTask(q)
    && Truthful(q, tasks) && ProgressIsHeld(q, tasks) && CountsInRange(q)
  }

  // ---- Consequences ---------------------------------------------------------------------------------

  /** In how many of the four places a message is. */
  function Places(q: Mq, m: TaskMessage): nat {
    Bag(q.queue)[m] + Held(q.inflight)[m] + Bag(q.dlq)[m] + q.done[m]
  }

  lemma EachMessageInOnePlace(q: Mq, m: TaskMessage)
    requires Conserved(q)
    ensures Places(q, m) == if m in q.published then 1 else 0
  {
  }

  lemma HeldIsNotDone(q: Mq, tasks: Tasks, instances: InstanceTable, used: set<Id>)
    requires Tracked(q, tasks, instances, used) && q.inflight.Some?
    ensures var m := q.inflight.value.msg;
      && m in q.published && m !in Bag(q.queue) && m !in q.done && m !in Bag(q.dlq)
      && Proper(m) && Grounded(m, tasks, instances, used) && m.task in tasks && !tasks[m.task].status.Succeeded?
  {
  }

  // ---- New messages ------------------------------------------------------------------------------------

  lemma NewTaskIsUnpublished(q: Mq, tasks: Tasks, instances: InstanceTable, used: set<Id>, m: TaskMessage)
    requires Tracked(q, tasks, instances, used) && m.task !in used
    ensures m !in q.published
    ensures forall n :: n in q.published ==> n.task != m.task
  {
  }

  lemma PublishKeepsConserved(q: Mq, m: TaskMessage)
    requires Conserved(q) && m !in q.published
    ensures Conserved(PublishTask(q, m))
  {
    var q' := PublishTask(q, m);
    PublishEffect(q, m);
    assert Everywhere(q') == Everywhere(q) + multiset{m};
    forall n | n in q'.published ensures q'.published[n] == 1 {
      if n != m {
        assert n in q.published;
      }
    }
  }

  /** What a request has to ensure about the message it enqueues. */
  ghost predicate Enqueueable(q: Mq, instances: InstanceTable, m: TaskMessage, used: set<Id>, more: set<Id>) {
    && m.task !in used && m.task in more && used <= more && Proper(m)
    && (m.instance.Some? ==> m.instance.value in more)
    && (m.instance.Some? && m.instance.value in instances ==> instances[m.instance.value].project == m.project)
    && (m.kind.InstanceCreate? ==> forall n :: n in q.published && n.kind.InstanceCreate? ==> n.instance != m.instance)
  }

  lemma EnqueueKeepsGrounded(w: World, m: TaskMessage, pubOk: bool, more: set<Id>)
    requires Tracked(w.mq, w.tasks, w.instances, w.used) && Enqueueable(w.mq, w.instances, m, w.used, more)
    ensures var w' := Enqueue(w, m, pubOk); AllGrounded(w'.mq, w'.tasks, w.instances, more)
  {
    var w' := Enqueue(w, m, pubOk);
    forall n | n in w'.mq.published ensures Proper(n) && Grounded(n, w'.tasks, w.instances, more) {
      if n != m {
        assert n in w.mq.published;
      }
    }
  }

  lemma EnqueueKeepsUnique(q: Mq, m: TaskMessage, pubOk: bool)
    requires OneMessagePerTask(q)
    requires forall n :: n in q.published ==> n.task != m.task
    requires m.kind.InstanceCreate? ==> forall n :: n in q.published && n.kind.InstanceCreate? ==> n.instance != m.instance
    ensures OneMessagePerTask(if pubOk then PublishTask(q, m) else q)
  {
  }

  lemma NewTaskKeepsTruth(q: Mq, tasks: Tasks, m: TaskMessage, row: Task, pubOk: bool)
    requires Truthful(q, tasks) && ProgressIsHeld(q, tasks)
    requires m !in q.done && row.status in {Pending, Failed}
    requires forall n :: n in q.published ==> n.task != m.task
    ensures var q' := if pubOk then PublishTask(q, m) else q;
      Truthful(q', tasks[m.task := row]) && ProgressIsHeld(q', tasks[m.task := row])
  {
  }

  /** A request adds a task row and, if the publish works, its message. */
  lemma EnqueueKeepsTracked(w: World, m: TaskMessage, pubOk: bool, more: set<Id>)
    requires Tracked(w.mq, w.tasks, w.instances, w.used) && Enqueueable(w.mq, w.instances, m, w.used, more)
    ensures var w' := Enqueue(w, m, pubOk); Tracked(w'.mq, w'.tasks, w.instances, more)
  {
    EnqueueKeepsGrounded(w, m, pubOk, more);
    NewTaskIsUnpublished(w.mq, w.tasks, w.instances, w.used, m);
    EnqueueKeepsUnique(w.mq, m, pubOk);
    assert m !in w.mq.done by {
      assert Everywhere(w.mq)[m] >= w.mq.done[m];
    }
    NewTaskKeepsTruth(w.mq, w.tasks, m, Task(m.kind, m.project, m.instance, if pubOk then Pending else Failed), pubOk);
    if pubOk {
      PublishKeepsConserved(w.mq, m);
      PublishKeepsCounts(w.mq, m);
    }
  }

  // ---- Changes of other tables ----------------------------------------------------------------------------

  /** Instances may change state, disappear, or appear under identifiers never used before. */
  lemma InstancesMayChange(q: Mq, tasks: Tasks, a: InstanceTable, b: InstanceTable, used: set<Id>, more: set<Id>)
    requires Tracked(q, tasks, a, used) && used <= more && b.Keys <= more
    requires forall i :: i in b ==> i !in used || (i in a && b[i].project == a[i].project)
    ensures Tracked(q, tasks, b, more)
  {
  }

  // ---- The worker ----------------------------------------------------------------------------------------------

  lemma TakingKeepsTracked(q: Mq, tasks: Tasks, instances: InstanceTable, used: set<Id>)
    requires Tracked(q, tasks, instances, used)
    ensures Tracked(Receive(q), tasks, instances, used)
  {
    ReceiveEffect(q);
    ReceiveKeepsCounts(q);
    assert Everywhere(Receive(q)) == Everywhere(q);
  }

  lemma MarkingKeepsTracked(q: Mq, tasks: Tasks, instances: InstanceTable, used: set<Id>)
    requires Tracked(q, tasks, instances, used) && q.inflight.Some?
    ensures var m := q.inflight.value.msg; Tracked(q, SetTask(tasks, m.project, m.task, InProgress), instances, used)
  {
    var m := q.inflight.value.msg;
    var tasks' := SetTask(tasks, m.project, m.task, InProgress);
    HeldIsNotDone(q, tasks, instances, used);
    forall n | n in q.published && n.task in tasks' ensures n in q.done <==> tasks'[n.task].status.Succeeded? {
      if n != m {
        assert n.task != m.task;
      }
    }
  }

  lemma ReceiveKeepsTracked(w: World)
    requires Tracked(w.mq, w.tasks, w.instances, w.used)
    ensures var w' := ReceiveTask(w); Tracked(w'.mq, w'.tasks, w'.instances, w'.used)
  {
    TakingKeepsTracked(w.mq, w.tasks, w.instances, w.used);
    if w.mq.inflight.None? && Receive(w.mq).inflight.Some? {
      MarkingKeepsTracked(Receive(w.mq), w.tasks, w.instances, w.used);
    }
  }

  /** How a handler may leave the task table. */
  ghost predicate TaskClosed(a: Tasks, b: Tasks, t: Id, ok: bool) {
    && b.Keys == a.Keys
    && (forall x :: x in a ==> b[x].kind == a[x].kind && b[x].project == a[x].project)
    && (forall x :: x in a && x != t ==> b[x].status == a[x].status)
    && (t in a ==> b[t].status == if ok then Succeeded else Failed)
  }

  lemma FinishKeepsTruth(q: Mq, tasks: Tasks, tasks': Tasks, ok: bool, pubOk: bool)
    requires Truthful(q, tasks) && ProgressIsHeld(q, tasks) && OneMessagePerTask(q) && q.inflight.Some?
    requires q.inflight.value.msg in q.published && q.inflight.value.msg !in q.done
    requires TaskClosed(tasks, tasks', q.inflight.value.msg.task, ok)
    ensures var q' := FinalizeDelivery(q, q.inflight.value, ok, pubOk); Truthful(q', tasks') && ProgressIsHeld(q', tasks')
  {
  }

  lemma FinishKeepsTracked(q: Mq, tasks: Tasks, instances: InstanceTable, used: set<Id>,
                           tasks': Tasks, instances': InstanceTable, ok: bool, pubOk: bool)
    requires Tracked(q, tasks, instances, used) && q.inflight.Some?
    requires TaskClosed(tasks, tasks', q.inflight.value.msg.task, ok)
    requires forall i :: i in instances' ==> i in instances && instances'[i].project == instances[i].project
    ensures Tracked(FinalizeDelivery(q, q.inflight.value, ok, pubOk), tasks', instances', used)
  {
    var d := q.inflight.value;
    HeldIsNotDone(q, tasks, instances, used);
    FinishKeepsTruth(q, tasks, tasks', ok, pubOk);
    FinalizeEffect(q, d, ok, pubOk);
    FinalizeKeeps(q, d, ok, pubOk);
    FinalizeKeepsCounts(q, d, ok, pubOk);
  }

  // ---- The sweeper ------------------------------------------------------------------------------------------------

  lemma SweepKeepsTasks(q: Mq, tasks: Tasks, instances: InstanceTable, used: set<Id>, stale: set<Id>)
    requires Tracked(q, tasks, instances, used)
    ensures Tracked(q, SweepTasks(tasks, stale), instances, used)
  {
    var tasks' := SweepTasks(tasks, stale);
    forall m | m in q.published ensures Grounded(m, tasks', instances, used) {
      assert Grounded(m, tasks, instances, used);
    }
    assert Truthful(q, tasks') && ProgressIsHeld(q, tasks');
  }

  lemma SweepKeepsTracked(w: World, stale: set<Id>)
    requires Tracked(w.mq, w.tasks, w.instances, w.used)
    ensures Tracked(w.mq, SweepTasks(w.tasks, stale), SweepInstances(w.instances, w.tasks, stale), w.used)
  {
    var tasks', instances' := SweepTasks(w.tasks, stale), SweepInstances(w.instances, w.tasks, stale);
    SweepKeepsTasks(w.mq, w.tasks, w.instances, w.used, stale);
    forall i | i in instances' ensures i in w.instances && instances'[i].project == w.instances[i].project {
    }
    InstancesMayChange(w.mq, tasks', w.instances, instances', w.used, w.used);
  }

  /** The sweeper reaches at most the task in the worker's hands, and never one that succeeded. */
  lemma SweepTouchesOnlyHeldTask(w: World, stale: set<Id>, t: Id)
    requires Tracked(w.mq, w.tasks, w.instances, w.used)
    requires t in w.tasks && SweepTasks(w.tasks, stale)[t] != w.tasks[t]
    ensures w.mq.inflight.Some? && w.mq.inflight.value.msg.task == t && !w.tasks[t].status.Succeeded?
  {
  }
}
