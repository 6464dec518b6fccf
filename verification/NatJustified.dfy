/** Every NAT rule of a floating IP on the host has a reason to be there, in every run. */
module NatJustified {
  import opened Wrappers
  import opened HostNames
  import opened NatRules
  import opened Model
  import opened Messages
  import opened FipRows
  import opened Disks
  import opened Control
  import opened System
  import opened Tracking
  import opened Invariants
  import opened Requests
  import Ipam

  type Rules = seq<Rule>
  type FipTable = map<Id, FloatingIp>

  function PairOf(r: Rule): Binding
    requires !r.Other?
  {
    Binding(r.pub, r.priv)
  }

  /** The message asks for the rules of this pair to be removed. */
  predicate Revokes(m: TaskMessage, b: Binding) {
    m.kind.FipDisassociate? && m.pub == Some(b.pub) && m.priv == Some(b.priv)
  }

  /** A disassociation of the pair is still queued, in the worker's hands, or dead. */
  ghost predicate Awaited(q: Mq, b: Binding) {
    exists m :: m in Undelivered(q) + Bag(q.dlq) && Revokes(m, b)
  }

  ghost predicate Justified(r: Rule, fips: FipTable, q: Mq) {
    r.Other? || ActivePair(fips, PairOf(r)) || Awaited(q, PairOf(r))
  }

  /** Rules are single copies, each of an active row or of a pair about to be removed. */
  ghost predicate AllJustified(rules: Rules, fips: FipTable, q: Mq) {
    AtMostOnce(rules) && forall r :: r in rules ==> Justified(r, fips, q)
  }

  // ---- Changes that keep it -------------------------------------------------------------------------

  /** More active pairs and more waiting messages justify at least as much. */
  lemma GrowthKeepsJustified(rules: Rules, fips: FipTable, fips': FipTable, q: Mq, q': Mq)
    requires AllJustified(rules, fips, q)
    requires forall b :: ActivePair(fips, b) ==> ActivePair(fips', b)
    requires Undelivered(q) + Bag(q.dlq) <= Undelivered(q') + Bag(q'.dlq)
    ensures AllJustified(rules, fips', q')
  {
  }

  lemma ListAgain(fips: FipTable, b: Binding, f: Id)
    requires f in fips && fips[f].status.Active? && fips[f].priv.Some? && BindingOf(fips[f]) == b
    ensures ActivePair(fips, b)
  {
  }

  /** Adding rules of active pairs only. */
  lemma AssociateKeepsJustified(rules: Rules, fips: FipTable, q: Mq, b: Binding, f: Faults)
    requires AllJustified(rules, fips, q) && ActivePair(fips, b)
    ensures AllJustified(Associate(rules, b, f).0, fips, q)
  {
    AssociateAddsOwnRules(rules, b, f);
  }

  lemma ReconcileKeepsJustified(rules: Rules, fips: FipTable, q: Mq, rows: seq<Binding>, f: Faults)
    requires AllJustified(rules, fips, q) && forall k :: 0 <= k < |rows| ==> ActivePair(fips, rows[k])
    ensures AllJustified(Reconcile(rules, rows, f), fips, q)
  {
    var after := Reconcile(rules, rows, f);
    ReconcileOnlyAppends(rules, rows, f);
    forall r | r in after ensures Justified(r, fips, q) {
      var i :| 0 <= i < |after| && after[i] == r;
      if i < |rules| {
        assert rules[i] == r;
      } else {
        var k :| 0 <= k < |rows| && after[i] in RulesOf(rows[k]);
        assert ActivePair(fips, rows[k]);
      }
    }
  }

  /** Once the pair's rules are gone, its message is needed no longer. */
  lemma DisassociateKeepsJustified(rules: Rules, fips: FipTable, q: Mq, q': Mq, m: TaskMessage, b: Binding, f: Faults)
    requires AllJustified(rules, fips, q) && f.del == {} && m.pub == Some(b.pub) && m.priv == Some(b.priv)
    requires forall n :: n in Undelivered(q) + Bag(q.dlq) && n != m ==> n in Undelivered(q') + Bag(q'.dlq)
    ensures AllJustified(Disassociate(rules, b, f), fips, q')
  {
    var after := Disassociate(rules, b, f);
    DisassociateRemovesOwnRules(rules, b, f);
    forall r | r in after ensures Justified(r, fips, q') {
      assert r in rules && r !in RulesOf(b);
      if !r.Other? && Awaited(q, PairOf(r)) {
        var n :| n in Undelivered(q) + Bag(q.dlq) && Revokes(n, PairOf(r));
        assert n != m;
      }
    }
  }

  /** Tearing down an instance removes the rules of its rows together with their bindings. */
  lemma TearDownKeepsJustified(rules: Rules, fips: FipTable, instances: map<Id, Instance>, q: Mq, project: Id, i: Id, gone: set<Rule>)
    requires AllJustified(rules, fips, q) && FipsOk(fips, instances)
    requires i in instances && instances[i].project == project
    requires gone == RulesOfAll(BindingsOf(fips, project, i))
    ensures AllJustified(RemoveEach(rules, gone), ClearOfProject(fips, project, i), q)
  {
    var after := RemoveEach(rules, gone);
    RemoveEachRemoves(rules, gone);
    ClearKeeps(fips, instances, project, i);
    forall r | r in after ensures Justified(r, ClearOfProject(fips, project, i), q) {
      assert Justified(r, fips, q);
      if !r.Other? {
        assert PairOf(r) in BindingsOf(fips, project, i) ==> r in gone;
      }
    }
  }

  // ---- The worker ------------------------------------------------------------------------------------

  /** Finalizing loses no message but one that is done. */
  lemma FinalizeKeepsWaiting(q: Mq, ok: bool, pubOk: bool)
    requires q.inflight.Some?
    ensures var m := q.inflight.value.msg; var q' := FinalizeDelivery(q, q.inflight.value, ok, pubOk);
      && (!ok ==> Undelivered(q) + Bag(q.dlq) == Undelivered(q') + Bag(q'.dlq))
      && (forall n :: n in Undelivered(q) + Bag(q.dlq) && n != m ==> n in Undelivered(q') + Bag(q'.dlq))
  {
    FinalizeEffect(q, q.inflight.value, ok, pubOk);
  }

  lemma FinalizeKeepsJustified(rules: Rules, fips: FipTable, q: Mq, ok: bool, pubOk: bool)
    requires AllJustified(rules, fips, q) && q.inflight.Some?
    requires ok ==> !q.inflight.value.msg.kind.FipDisassociate?
    ensures AllJustified(rules, fips, FinalizeDelivery(q, q.inflight.value, ok, pubOk))
  {
    var m := q.inflight.value.msg;
    var q' := FinalizeDelivery(q, q.inflight.value, ok, pubOk);
    FinalizeKeepsWaiting(q, ok, pubOk);
    forall r | r in rules ensures Justified(r, fips, q') {
      assert Justified(r, fips, q);
      if !r.Other? && Awaited(q, PairOf(r)) {
        var n :| n in Undelivered(q) + Bag(q.dlq) && Revokes(n, PairOf(r));
        assert ok ==> n != m;
      }
    }
  }

  predicate SameRulesAndFips(a: World, b: World) {
    b.rules == a.rules && b.fips == a.fips
  }

  lemma CreateKeepsRules(w: World, m: TaskMessage, c: Calls)
    requires m.instance.Some?
    ensures SameRulesAndFips(w, FinishCreate(w, m, c).0)
  {
  }

  lemma LifecycleKeepsRules(w: World, m: TaskMessage, c: Calls)
    requires m.instance.Some? && m.kind in {InstanceStart, InstanceStop, InstanceReboot}
    ensures SameRulesAndFips(w, FinishLifecycle(w, m, c).0)
  {
  }

  lemma EndWithKeepsRules(w: World, x: World, m: TaskMessage, ok: bool, good: InstanceState, bad: InstanceState)
    requires SameRulesAndFips(w, x) && m.instance.Some?
    ensures SameRulesAndFips(w, EndWith(x, m, ok, good, bad).0)
  {
  }

  lemma SnapshotHandlersKeepRules(w: World, m: TaskMessage, c: Calls)
    requires m.instance.Some? && m.snapshot.Some? && m.prior.Some?
    ensures SameRulesAndFips(w, FinishSnapshotCreate(w, m, c).0)
    ensures SameRulesAndFips(w, FinishSnapshotRevert(w, m, c).0)
  {
    hide EndWith, SetSnapshot;
    var i, snap, prior := m.instance.value, m.snapshot.value, m.prior.value;
    EndWithKeepsRules(w, w, m, false, prior, prior);
    EndWithKeepsRules(w, w.(snapshots := SetSnapshot(w.snapshots, m.project, snap, SnapError)), m, false, prior, prior);
    if HasInstance(w.instances, m.project, i) && HasSnapshotOf(w.snapshots, m.project, i, snap) {
      var name := Sanitized(w.instances[i].name);
      var (made, ok) := CreateInternalSnapshot(w.domains, name, c.callOk);
      var (reverted, fine) := RevertToInternalSnapshot(
        w.domains, name, w.snapshots[snap].domainWasRunning, prior.Running?, c.revert);
      EndWithKeepsRules(w, w.(domains := made, snapshots := SetSnapshot(w.snapshots, m.project, snap,
        if ok then SnapAvailable else SnapError)), m, ok, prior, prior);
      EndWithKeepsRules(w, w.(domains := reverted), m, fine, prior, prior);
    }
  }

  /** Only the two floating IP handlers and the destroy handler touch rules or floating IP rows. */
  lemma OtherHandlersKeepRules(w: World, m: TaskMessage, c: Calls)
    requires !m.kind.InstanceDestroy? && !m.kind.FipAssociate? && !m.kind.FipDisassociate?
    ensures SameRulesAndFips(w, FinishTask(w, m, c).0)
  {
    hide FinishCreate, FinishLifecycle, FinishSnapshotCreate, FinishSnapshotRevert;
    if Dispatchable(m) && m.instance.Some? {
      if m.kind.InstanceCreate? {
        CreateKeepsRules(w, m, c);
      } else if IsSnapshotKind(m.kind) {
        SnapshotHandlersKeepRules(w, m, c);
      } else if !m.kind.UnknownKind? {
        LifecycleKeepsRules(w, m, c);
      }
    }
  }

  /** With its instance there, a destroy clears the rows and sends the deletes, however it ends. */
  lemma DestroyRules(w: World, m: TaskMessage, c: Calls)
    requires m.instance.Some? && FipsOk(w.fips, w.instances)
    ensures var w' := FinishDestroy(w, m, c).0; var i := m.instance.value;
      if HasInstance(w.instances, m.project, i) then
        && w'.rules == RemoveEach(w.rules, RulesOfAll(BindingsOf(w.fips, m.project, i)) - c.faults.del)
        && w'.fips == ClearOfProject(w.fips, m.project, i)
      else w'.rules == w.rules && w'.fips == w.fips
  {
    var i := m.instance.value;
    if HasInstance(w.instances, m.project, i) {
      var bare := TearDown(w, m.project, i, c);
      ClearKeeps(w.fips, w.instances, m.project, i);
      assert bare.fips == ClearOfProject(w.fips, m.project, i);
      assert ClearOfInstance(bare.fips, i) == bare.fips;
      hide ClearOfProject, ClearOfInstance, RemoveEach, DeleteVm, Ipam.Release, ForgetInstance, SnapshotsWithout, DeleteBlocked,
           DetachAllRows, DetachAllDisks, SetState, SetTask;
    }
  }

  lemma HandlerKeepsJustified(w: World, m: TaskMessage, c: Calls)
    requires AllJustified(w.rules, w.fips, w.mq) && FipsOk(w.fips, w.instances)
    requires !m.kind.FipDisassociate? && (m.kind.InstanceDestroy? ==> c.faults.del == {})
    ensures var w' := FinishTask(w, m, c).0; AllJustified(w'.rules, w'.fips, w.mq)
  {
    var w' := FinishTask(w, m, c).0;
    if !(Dispatchable(m) && HasTask(w.tasks, m.project, m.task)) {
      assert w' == w;
    } else if m.kind.InstanceDestroy? {
      DestroyRules(w, m, c);
      var i := m.instance.value;
      if HasInstance(w.instances, m.project, i) {
        assert RulesOfAll(BindingsOf(w.fips, m.project, i)) - {} == RulesOfAll(BindingsOf(w.fips, m.project, i));
        TearDownKeepsJustified(w.rules, w.fips, w.instances, w.mq, m.project, i, RulesOfAll(BindingsOf(w.fips, m.project, i)));
      }
    } else if m.kind.FipAssociate? {
      var f := m.fip.value;
      if IsActiveOf(w.fips, m.project, f) && w.fips[f].instance == m.instance && w.fips[f].priv.Some? {
        ListAgain(w.fips, BindingOf(w.fips[f]), f);
        AssociateKeepsJustified(w.rules, w.fips, w.mq, BindingOf(w.fips[f]), c.faults);
      }
    } else {
      OtherHandlersKeepRules(w, m, c);
    }
  }

  lemma DisassociateDelivery(w: World, c: Calls)
    requires AllJustified(w.rules, w.fips, w.mq) && c.faults.del == {}
    requires w.mq.inflight.Some? && w.mq.inflight.value.msg.kind.FipDisassociate? && Dispatchable(w.mq.inflight.value.msg)
    ensures var (w', ok) := FinishDisassociate(w, w.mq.inflight.value.msg, c);
      AllJustified(w'.rules, w'.fips, FinalizeDelivery(w.mq, w.mq.inflight.value, ok, c.pubOk))
  {
    hide AllJustified, FinalizeDelivery;
    var m := w.mq.inflight.value.msg;
    var ok := FinishDisassociate(w, m, c).1;
    FinalizeKeepsWaiting(w.mq, ok, c.pubOk);
    DisassociateKeepsJustified(w.rules, w.fips, w.mq, FinalizeDelivery(w.mq, w.mq.inflight.value, ok, c.pubOk), m,
      Binding(m.pub.value, m.priv.value), c.faults);
  }

  lemma OtherDelivery(w: World, c: Calls)
    requires AllJustified(w.rules, w.fips, w.mq) && FipsOk(w.fips, w.instances)
    requires w.mq.inflight.Some? && !w.mq.inflight.value.msg.kind.FipDisassociate?
    requires w.mq.inflight.value.msg.kind.InstanceDestroy? ==> c.faults.del == {}
    ensures var (w', ok) := FinishTask(w, w.mq.inflight.value.msg, c);
      AllJustified(w'.rules, w'.fips, FinalizeDelivery(w.mq, w.mq.inflight.value, ok, c.pubOk))
  {
    hide AllJustified, FinalizeDelivery, FinishTask, FipsOk;
    var m := w.mq.inflight.value.msg;
    var (w', ok) := FinishTask(w, m, c);
    HandlerKeepsJustified(w, m, c);
    FinalizeKeepsJustified(w'.rules, w'.fips, w.mq, ok, c.pubOk);
  }

  lemma FinishKeepsJustified(w: World, c: Calls)
    requires Core(w) && AllJustified(w.rules, w.fips, w.mq) && c.faults.del == {}
    ensures var w' := FinishDelivery(w, c); AllJustified(w'.rules, w'.fips, w'.mq)
  {
    if w.mq.inflight.Some? {
      var m := w.mq.inflight.value.msg;
      HeldTaskSettles(w, c);
      CoreFips(w);
      HeldTaskKeepsMessages(w, c);
      hide Core, AllJustified, FinalizeDelivery, Settled;
      if m.kind.FipDisassociate? {
        assert HasTask(w.tasks, m.project, m.task) && Dispatchable(m);
        DisassociateDelivery(w, c);
        assert FinishTask(w, m, c) == FinishDisassociate(w, m, c);
      } else {
        hide FinishTask;
        OtherDelivery(w, c);
      }
    }
  }

  lemma CoreFips(w: World)
    requires Core(w)
    ensures FipsOk(w.fips, w.instances)
  {
  }

  lemma HeldTaskKeepsMessages(w: World, c: Calls)
    requires Core(w) && w.mq.inflight.Some?
    ensures FinishTask(w, w.mq.inflight.value.msg, c).0.mq == w.mq
  {
    hide Core, FinishTask;
    HeldTaskSettles(w, c);
  }

  // ---- Requests ----------------------------------------------------------------------------------------

  lemma EnqueueKeepsJustified(w: World, x: World, m: TaskMessage, pubOk: bool)
    requires AllJustified(w.rules, w.fips, w.mq) && x.mq == w.mq && x.rules == w.rules
    requires forall b :: ActivePair(w.fips, b) ==> ActivePair(x.fips, b)
    ensures var w' := Enqueue(x, m, pubOk); AllJustified(w'.rules, w'.fips, w'.mq)
  {
    var w' := Enqueue(x, m, pubOk);
    EnqueueGrows(x, m, pubOk);
    assert w'.mq.dlq == w.mq.dlq;
    GrowthKeepsJustified(w.rules, w.fips, x.fips, w.mq, w'.mq);
  }

  lemma AssociateRequestKeepsJustified(w: World, project: Id, f: Id, i: Id, t: Id, pubOk: bool)
    requires Core(w) && AllJustified(w.rules, w.fips, w.mq)
    ensures var w' := RequestAssociate(w, project, f, i, t, pubOk).0; AllJustified(w'.rules, w'.fips, w'.mq)
  {
    assert FipsOk(w.fips, w.instances);
    hide Core, AllJustified, FipsOk, Enqueue, PoolKept, Rollback;
    var (fips, reply) := TryAssociate(w.fips, w.instances, project, f, i);
    if reply.Accepted? {
      AssociateKeeps(w.fips, w.instances, project, f, i);
      RollbackUndoesAssociate(w.fips, w.instances, project, f, i);
      var b := Binding(w.fips[f].pub, w.instances[i].ipv4.value);
      EnqueueKeepsJustified(w, w.(fips := if pubOk then fips else Rollback(fips, project, f)),
        AssociateMessage(t, project, i, f, b), pubOk);
    }
  }

  /** A row that is cleared leaves a message behind for its rules. */
  lemma DisassociateRequestKeepsJustified(w: World, project: Id, f: Id, t: Id)
    requires Core(w) && AllJustified(w.rules, w.fips, w.mq)
    ensures var w' := RequestDisassociate(w, project, f, t, true).0; AllJustified(w'.rules, w'.fips, w'.mq)
  {
    var (fips, taken) := TakeDisassociate(w.fips, project, f);
    if taken.Some? {
      var m := DisassociateMessage(t, project, f, taken.value);
      var q' := PublishTask(w.mq, m);
      PublishEffect(w.mq, m);
      DisassociateKeeps(w.fips, w.instances, project, f);
      assert m in Undelivered(q') + Bag(q'.dlq) && Revokes(m, taken.value);
      forall r | r in w.rules ensures Justified(r, fips, q') {
        assert Justified(r, w.fips, w.mq);
        if !r.Other? && Awaited(w.mq, PairOf(r)) {
          var n :| n in Undelivered(w.mq) + Bag(w.mq.dlq) && Revokes(n, PairOf(r));
          assert n in Undelivered(q') + Bag(q'.dlq);
        }
      }
    }
  }

  /** Requests that leave floating IP rows and rules alone and only enqueue. */
  lemma OtherRequestsKeepJustified(w: World, s: Step)
    requires AllJustified(w.rules, w.fips, w.mq)
    requires s.NewInstance? || s.InstanceAction? || s.TakeSnapshot? || s.RevertSnapshot?
    ensures var w' := Effect(w, s); AllJustified(w'.rules, w'.fips, w'.mq)
  {
    hide AllJustified, ParseAction, SetState, SnapshotNameTaken, HasVolumes, Ipam.CreateInstanceWithIpam;
    var w' := Effect(w, s);
    assert w'.rules == w.rules && w'.fips == w.fips;
    assert w'.mq == w.mq || exists m :: w'.mq == PublishTask(w.mq, m) by {
      match s
      case NewInstance(r, pubOk) =>
        CreateRequestCases(w, r, pubOk);
        assert w'.mq == w.mq || w'.mq == PublishTask(w.mq, InstanceMessage(r.task, InstanceCreate, r.project, r.instance));
      case InstanceAction(p, i, a, t, pubOk) =>
        assert w'.mq == w.mq || w'.mq == PublishTask(w.mq, InstanceMessage(t, TaskKindFor(ParseAction(a).value), p, i));
      case TakeSnapshot(p, i, name, snap, t, pubOk) =>
        assert w'.mq == w.mq || w'.mq == PublishTask(w.mq, SnapshotMessage(t, SnapshotCreate, p, i, snap, w.instances[i].state));
      case RevertSnapshot(p, i, snap, t, pubOk) =>
        assert w'.mq == w.mq || w'.mq == PublishTask(w.mq, SnapshotMessage(t, SnapshotRevert, p, i, snap, w.instances[i].state));
    }
    if w'.mq != w.mq {
      var m :| w'.mq == PublishTask(w.mq, m);
      PublishEffect(w.mq, m);
      GrowthKeepsJustified(w.rules, w.fips, w.fips, w.mq, w'.mq);
    }
  }

  lemma ReconcileStepKeepsJustified(w: World, rows: seq<Binding>, f: Faults)
    requires AllJustified(w.rules, w.fips, w.mq) && Lists(rows, BindingsToReconcile(w.fips, w.instances))
    ensures AllJustified(Reconcile(w.rules, rows, f), w.fips, w.mq)
  {
    forall k | 0 <= k < |rows| ensures ActivePair(w.fips, rows[k]) {
      assert rows[k] in BindingsToReconcile(w.fips, w.instances);
      var g :| g in w.fips && NeedsRules(w.fips[g], w.instances) && BindingOf(w.fips[g]) == rows[k];
      ListAgain(w.fips, rows[k], g);
    }
    ReconcileKeepsJustified(w.rules, w.fips, w.mq, rows, f);
  }

  // ---- Every step, every run ---------------------------------------------------------------------------------

  /** Steps that touch neither rules, floating IP rows nor messages. */
  lemma QuietStep(w: World, s: Step)
    requires s.NewNetwork? || s.NewVolume? || s.DropVolume? || s.AttachVolume? || s.DetachVolume? || s.SyncStep?
             || s.SweepStep? || s.GuestPower?
    ensures var w' := Effect(w, s); w'.rules == w.rules && w'.fips == w.fips && w'.mq == w.mq
  {
  }

  lemma ReceiveStepKeepsJustified(w: World)
    requires AllJustified(w.rules, w.fips, w.mq)
    ensures var w' := ReceiveTask(w); AllJustified(w'.rules, w'.fips, w'.mq)
  {
    ReceiveEffect(w.mq);
    ReceiveShape(w);
    GrowthKeepsJustified(w.rules, w.fips, w.fips, w.mq, Receive(w.mq));
  }

  lemma EffectKeepsJustified(w: World, s: Step)
    requires Core(w) && AllJustified(w.rules, w.fips, w.mq) && Enabled(w, s) && NatReliable(s)
    ensures var w' := Effect(w, s); AllJustified(w'.rules, w'.fips, w'.mq)
  {
    hide AllJustified, FinishDelivery, ReceiveTask, RequestAssociate, RequestDisassociate, RequestCreate, RequestParsed,
         RequestSnapshotCreate, RequestSnapshotRevert, Reconcile;
    match s
    case AllocateFip(p) =>
      hide Core;
      AllocatedKeepsJustified(w, p);
    case AssociateFip(p, f, i, t, pubOk) => AssociateRequestKeepsJustified(w, p, f, i, t, pubOk);
    case DisassociateFip(p, f, t, pubOk) => DisassociateRequestKeepsJustified(w, p, f, t);
    case FinishStep(c) => FinishKeepsJustified(w, c);
    case ReceiveStep => ReceiveStepKeepsJustified(w);
    case ReconcileStep(rows, f) => ReconcileStepKeepsJustified(w, rows, f);
    case NewInstance(_, _) => OtherRequestsKeepJustified(w, s);
    case InstanceAction(_, _, _, _, _) => OtherRequestsKeepJustified(w, s);
    case TakeSnapshot(_, _, _, _, _, _) => OtherRequestsKeepJustified(w, s);
    case RevertSnapshot(_, _, _, _, _) => OtherRequestsKeepJustified(w, s);
    case _ => QuietStep(w, s);
  }

  lemma AllocatedKeepsJustified(w: World, project: Id)
    requires Core(w) && AllJustified(w.rules, w.fips, w.mq)
    ensures AllJustified(w.rules, Allocate(w.fips, project).0, w.mq)
  {
    AllocateKeeps(w.fips, w.instances, project);
    GrowthKeepsJustified(w.rules, w.fips, Allocate(w.fips, project).0, w.mq, w.mq);
  }

  lemma StepKeepsJustified(w: World, s: Step)
    requires Core(w) && AllJustified(w.rules, w.fips, w.mq) && Enabled(w, s) && NatReliable(s)
    ensures var w' := Apply(w, s); AllJustified(w'.rules, w'.fips, w'.mq)
  {
    hide AllJustified, Effect;
    EffectKeepsJustified(w, s);
  }

  /** In every run with working rule deletes and disassociation publishes, every rule is justified all the time. */
  lemma {:induction false} RunKeepsJustified(w: World, steps: seq<Step>)
    requires Core(w) && AllJustified(w.rules, w.fips, w.mq)
    requires Runs(w, steps) && forall k :: 0 <= k < |steps| ==> NatReliable(steps[k])
    ensures var w' := After(w, steps); AllJustified(w'.rules, w'.fips, w'.mq)
    decreases |steps|
  {
    hide AllJustified, Core, Apply;
    if steps != [] {
      StepKeepsCore(w, steps[0]);
      StepKeepsJustified(w, steps[0]);
      RunKeepsJustified(Apply(w, steps[0]), steps[1..]);
    }
  }

  /** From an initial state on: a rule without an active row still has its disassociation pending or dead. */
  lemma RulesAreAlwaysJustified(w: World, steps: seq<Step>, r: Rule)
    requires Init(w) && Runs(w, steps) && forall k :: 0 <= k < |steps| ==> NatReliable(steps[k])
    requires var w' := After(w, steps); r in w'.rules && !r.Other?
    ensures var w' := After(w, steps);
      && Count(w'.rules, r) == 1
      && (ActivePair(w'.fips, PairOf(r)) || Awaited(w'.mq, PairOf(r)))
  {
    hide Core, After, Runs;
    InitIsCore(w);
    forall q: Rule | !q.Other? ensures Count(w.rules, q) <= 1 {
      CountPositive(w.rules, q);
    }
    RunKeepsJustified(w, steps);
    CountPositive(After(w, steps).rules, r);
  }

  /**
   * The assumption on publishes is needed: a disassociation whose message is lost strands the rules of its pair,
   * exactly when there are any and nothing else is going to remove them.
   */
  lemma LostDisassociationStrandsRules(w: World, project: Id, f: Id, t: Id)
    requires Core(w) && AllJustified(w.rules, w.fips, w.mq) && IsActiveOf(w.fips, project, f)
    ensures w.fips[f].priv.Some?
    ensures var b := BindingOf(w.fips[f]); var w' := RequestDisassociate(w, project, f, t, false).0;
      AllJustified(w'.rules, w'.fips, w'.mq) <==> Awaited(w.mq, b) || RulesOf(b) !! (set r | r in w.rules)
  {
    assert RowOk(w.fips[f], w.instances);
    var b := BindingOf(w.fips[f]);
    var w' := RequestDisassociate(w, project, f, t, false).0;
    DisassociateKeeps(w.fips, w.instances, project, f);
    assert forall g :: g in w'.fips && g != f ==> w'.fips[g] == w.fips[g];
    assert !ActivePair(w'.fips, b);
    forall r | r in w.rules && !r.Other? && PairOf(r) != b ensures Justified(r, w'.fips, w'.mq) {
      assert Justified(r, w.fips, w.mq);
    }
  }
}
