/** Active floating IP rows have their rules on the host, or an association in line behind every removal. */
module Associations {
  import opened Wrappers
  import opened NatRules
  import opened Model
  import opened Messages
  import opened FipRows
  import opened Control
  import opened System
  import opened Invariants
  import opened Requests
  import opened NatJustified
  import opened NatExact
  import opened History
  import opened Retries

  /** Checks and appends of association handlers work; deletes and publishes may fail. */
  predicate AssociationsWork(s: Step) {
    s.FinishStep? ==> s.calls.faults.check == {} && s.calls.faults.add == {}
  }

  // ---- The line of messages --------------------------------------------------------------------------

  function Bodies(ds: seq<Delivery>): (ms: seq<TaskMessage>)
    ensures |ms| == |ds| && forall k :: 0 <= k < |ms| ==> ms[k] == ds[k].msg
  {
    if ds == [] then [] else [ds[0].msg] + Bodies(ds[1..])
  }

  /** Undelivered messages in the order of their delivery: what is held, then the queue. */
  function Line(q: Mq): seq<TaskMessage> {
    (if q.inflight.Some? then [q.inflight.value.msg] else []) + Bodies(q.queue)
  }

  lemma BodiesOfConcat(a: seq<Delivery>, b: seq<Delivery>)
    ensures Bodies(a + b) == Bodies(a) + Bodies(b)
  {
  }

  lemma PublishJoinsLine(q: Mq, x: TaskMessage)
    ensures Line(PublishTask(q, x)) == Line(q) + [x]
  {
    BodiesOfConcat(q.queue, [Delivery(x, map[])]);
  }

  lemma ReceiveKeepsLine(q: Mq)
    ensures Line(Receive(q)) == Line(q)
  {
    if q.inflight.None? && q.queue != [] {
      assert q.queue == [q.queue[0]] + q.queue[1..];
      BodiesOfConcat([q.queue[0]], q.queue[1..]);
    }
  }

  /** After a delivery the rest of the line has moved up; a message that failed may be at its head again or at its end. */
  lemma FinalizeMovesLine(q: Mq, ok: bool, pubOk: bool)
    requires q.inflight.Some?
    ensures var m := q.inflight.value.msg; var rest := Bodies(q.queue);
      var line := Line(FinalizeDelivery(q, q.inflight.value, ok, pubOk));
      && Line(q) == [m] + rest
      && (line == rest || (!ok && (line == [m] + rest || line == rest + [m])))
  {
    var d := q.inflight.value;
    var again := Delivery(d.msg, RetryHeaders(RetryCount(d.headers)));
    BodiesOfConcat([d], q.queue);
    BodiesOfConcat(q.queue, [again]);
    hide RetryCount, RetryHeaders;
  }

  // ---- The invariant ----------------------------------------------------------------------------------------

  /** The message asks for the rules of the row's present binding. */
  predicate Provides(m: TaskMessage, f: Id, row: FloatingIp) {
    m.kind.FipAssociate? && m.fip == Some(f) && Some(m.project) == row.project && m.instance.Some? && m.instance == row.instance
  }

  predicate NoneRevokesFrom(line: seq<TaskMessage>, k: int, b: Binding) {
    forall j :: k <= j < |line| && 0 <= j ==> !Revokes(line[j], b)
  }

  /** An association of the row is in line, and behind it no removal of its pair. */
  ghost predicate Coming(line: seq<TaskMessage>, f: Id, row: FloatingIp)
    requires row.priv.Some?
  {
    exists k :: 0 <= k < |line| && Provides(line[k], f, row) && NoneRevokesFrom(line, k + 1, BindingOf(row))
  }

  /** Both rules are there, and no removal of the pair is in line. */
  predicate Provided(rules: Rules, line: seq<TaskMessage>, b: Binding) {
    Dnat(b.pub, b.priv) in rules && Snat(b.pub, b.priv) in rules && NoneRevokesFrom(line, 0, b)
  }

  ghost predicate RowServed(rules: Rules, line: seq<TaskMessage>, f: Id, row: FloatingIp) {
    row.status.Active? && row.priv.Some? ==> Provided(rules, line, BindingOf(row)) || Coming(line, f, row)
  }

  ghost predicate AllServed(rules: Rules, line: seq<TaskMessage>, fips: FipTable) {
    forall f :: f in fips ==> RowServed(rules, line, f, fips[f])
  }

  // ---- Changes of the line ---------------------------------------------------------------------------------------

  /** A message that removes nothing of the row may join. */
  lemma JoiningServes(rules: Rules, line: seq<TaskMessage>, x: TaskMessage, f: Id, row: FloatingIp)
    requires RowServed(rules, line, f, row) && (row.priv.Some? ==> !Revokes(x, BindingOf(row)))
    ensures RowServed(rules, line + [x], f, row)
  {
    if row.status.Active? && row.priv.Some? && Coming(line, f, row) {
      var k :| 0 <= k < |line| && Provides(line[k], f, row) && NoneRevokesFrom(line, k + 1, BindingOf(row));
      assert (line + [x])[k] == line[k];
    }
  }

  lemma HeadLeaves(rules: Rules, m: TaskMessage, rest: seq<TaskMessage>, f: Id, row: FloatingIp)
    requires RowServed(rules, [m] + rest, f, row) && !Provides(m, f, row)
    ensures RowServed(rules, rest, f, row)
  {
    var line := [m] + rest;
    if row.status.Active? && row.priv.Some? {
      var b := BindingOf(row);
      assert forall j :: 0 <= j < |rest| ==> rest[j] == line[j + 1];
      if Coming(line, f, row) {
        var k :| 0 <= k < |line| && Provides(line[k], f, row) && NoneRevokesFrom(line, k + 1, b);
        assert rest[k - 1] == line[k] && NoneRevokesFrom(rest, k, b);
        assert Provides(rest[k - 1], f, row) && NoneRevokesFrom(rest, k - 1 + 1, b);
      }
    }
  }

  /** Once the rules are there, the association that provided them may go. */
  lemma ProviderLeaves(rules: Rules, rules': Rules, m: TaskMessage, rest: seq<TaskMessage>, f: Id, row: FloatingIp)
    requires RowServed(rules, [m] + rest, f, row) && row.priv.Some?
    requires Dnat(row.pub, row.priv.value) in rules' && Snat(row.pub, row.priv.value) in rules'
    ensures RowServed(rules', rest, f, row)
  {
    var line, b := [m] + rest, BindingOf(row);
    if row.status.Active? {
      assert forall j :: 0 <= j < |rest| ==> rest[j] == line[j + 1];
      if !Provided(rules, line, b) {
        var k :| 0 <= k < |line| && Provides(line[k], f, row) && NoneRevokesFrom(line, k + 1, b);
        if k == 0 {
          assert NoneRevokesFrom(rest, 0, b);
        } else {
          assert rest[k - 1] == line[k] && NoneRevokesFrom(rest, k, b);
          assert Provides(rest[k - 1], f, row) && NoneRevokesFrom(rest, k - 1 + 1, b);
        }
      }
    }
  }

  lemma MoreRulesServe(rules: Rules, rules': Rules, line: seq<TaskMessage>, f: Id, row: FloatingIp)
    requires RowServed(rules, line, f, row) && forall r :: r in rules ==> r in rules'
    ensures RowServed(rules', line, f, row)
  {
  }

  /** Deletes of other pairs do no harm, and deletes of this pair none while an association is to come. */
  lemma DisassociationServes(rules: Rules, m: TaskMessage, rest: seq<TaskMessage>, f: Id, row: FloatingIp, b: Binding, ft: Faults)
    requires RowServed(rules, [m] + rest, f, row) && Revokes(m, b)
    ensures RowServed(Disassociate(rules, b, ft), rest, f, row)
  {
    var line, after := [m] + rest, Disassociate(rules, b, ft);
    DisassociateRemovesOwnRules(rules, b, ft);
    if row.status.Active? && row.priv.Some? && Provided(rules, line, BindingOf(row)) {
      assert line[0] == m && BindingOf(row) != b;
      assert Provided(after, line, BindingOf(row));
      assert RowServed(after, line, f, row);
      HeadLeaves(after, m, rest, f, row);
    } else {
      assert RowServed(after, line, f, row);
      HeadLeaves(after, m, rest, f, row);
    }
  }

  /** What the line becomes after a delivery that provided nothing for the row. */
  lemma MovedLineServes(rules: Rules, m: TaskMessage, rest: seq<TaskMessage>, line: seq<TaskMessage>, f: Id, row: FloatingIp)
    requires RowServed(rules, [m] + rest, f, row) && !Provides(m, f, row)
    requires line == rest || (!m.kind.FipDisassociate? && (line == [m] + rest || line == rest + [m]))
    ensures RowServed(rules, line, f, row)
  {
    HeadLeaves(rules, m, rest, f, row);
    if line == rest + [m] && !m.kind.FipDisassociate? {
      JoiningServes(rules, rest, m, f, row);
    }
  }

  // ---- The end of a handler -----------------------------------------------------------------------------------------

  lemma AssociationServes(w: World, c: Calls, line: seq<TaskMessage>)
    requires FipsOk(w.fips, w.instances) && w.mq.inflight.Some? && AssociationsWork(FinishStep(c))
    requires AllServed(w.rules, Line(w.mq), w.fips)
    requires var m := w.mq.inflight.value.msg;
      m.kind.FipAssociate? && Dispatchable(m) && HasTask(w.tasks, m.project, m.task)
    requires var m := w.mq.inflight.value.msg; var rest := Bodies(w.mq.queue); var ok := FinishAssociate(w, m, c).1;
      Line(w.mq) == [m] + rest && (line == rest || (!ok && (line == [m] + rest || line == rest + [m])))
    ensures var w' := FinishAssociate(w, w.mq.inflight.value.msg, c).0; AllServed(w'.rules, line, w'.fips)
  {
    var m := w.mq.inflight.value.msg;
    var rest := Bodies(w.mq.queue);
    var (w', ok) := FinishAssociate(w, m, c);
    AssociationRules(w, m, c);
    hide FinishAssociate, Line, Bodies;
    forall f | f in w.fips ensures RowServed(w'.rules, line, f, w.fips[f]) {
      var row := w.fips[f];
      assert RowServed(w.rules, [m] + rest, f, row);
      assert RowOk(row, w.instances);
      if Provides(m, f, row) && row.status.Active? {
        ProviderLeaves(w.rules, w'.rules, m, rest, f, row);
      } else if row.status.Active? {
        MoreRulesServe(w.rules, w'.rules, [m] + rest, f, row);
        MovedLineServes(w'.rules, m, rest, line, f, row);
      }
    }
  }

  /** With working commands the handler of a row's present binding succeeds and leaves both rules. */
  lemma AssociationRules(w: World, m: TaskMessage, c: Calls)
    requires m.kind.FipAssociate? && Dispatchable(m) && c.faults.check == {} && c.faults.add == {}
    ensures var (w', ok) := FinishAssociate(w, m, c);
      && w'.fips == w.fips && (forall r :: r in w.rules ==> r in w'.rules)
      && forall f :: f in w.fips && Provides(m, f, w.fips[f]) && w.fips[f].status.Active? && w.fips[f].priv.Some? ==>
           ok && Dnat(w.fips[f].pub, w.fips[f].priv.value) in w'.rules && Snat(w.fips[f].pub, w.fips[f].priv.value) in w'.rules
  {
    hide SetTask;
  }

  lemma RevocationServes(w: World, c: Calls, line: seq<TaskMessage>)
    requires w.mq.inflight.Some? && AllServed(w.rules, Line(w.mq), w.fips)
    requires var m := w.mq.inflight.value.msg; m.kind.FipDisassociate? && Dispatchable(m)
    requires Line(w.mq) == [w.mq.inflight.value.msg] + line
    ensures var w' := FinishDisassociate(w, w.mq.inflight.value.msg, c).0; AllServed(w'.rules, line, w'.fips)
  {
    var m := w.mq.inflight.value.msg;
    var b := Binding(m.pub.value, m.priv.value);
    forall f | f in w.fips ensures RowServed(Disassociate(w.rules, b, c.faults), line, f, w.fips[f]) {
      DisassociationServes(w.rules, m, line, f, w.fips[f], b, c.faults);
    }
  }

  /** A destroy clears its instance's rows and removes the rules of their pairs only. */
  lemma DestroyServes(w: World, c: Calls, line: seq<TaskMessage>)
    requires FipsOk(w.fips, w.instances) && w.mq.inflight.Some? && AllServed(w.rules, Line(w.mq), w.fips)
    requires var m := w.mq.inflight.value.msg; m.kind.InstanceDestroy? && m.instance.Some?
    requires var m := w.mq.inflight.value.msg; var rest := Bodies(w.mq.queue);
      Line(w.mq) == [m] + rest && (line == rest || line == [m] + rest || line == rest + [m])
    ensures var w' := FinishDestroy(w, w.mq.inflight.value.msg, c).0; AllServed(w'.rules, line, w'.fips)
  {
    var m := w.mq.inflight.value.msg;
    var rest := Bodies(w.mq.queue);
    var w' := FinishDestroy(w, m, c).0;
    DestroyRules(w, m, c);
    hide FinishDestroy, Line, Bodies;
    var i := m.instance.value;
    forall f | f in w'.fips ensures RowServed(w'.rules, line, f, w'.fips[f]) {
      assert f in w.fips && RowServed(w.rules, [m] + rest, f, w.fips[f]) && RowOk(w.fips[f], w.instances);
      if w'.fips[f].status.Active? && HasInstance(w.instances, m.project, i) {
        assert w'.fips[f] == w.fips[f] && w.fips[f].instance != Some(i);
        OtherPairsStay(w.fips, w.instances, w.rules, m.project, i, f, c.faults.del);
        SameRulesServe(w.rules, w'.rules, [m] + rest, f, w.fips[f]);
      }
      if w'.fips[f].status.Active? {
        MovedLineServes(w'.rules, m, rest, line, f, w'.fips[f]);
      }
    }
  }

  lemma SameRulesServe(rules: Rules, rules': Rules, line: seq<TaskMessage>, f: Id, row: FloatingIp)
    requires RowServed(rules, line, f, row)
    requires row.priv.Some? ==> forall r :: r in RulesOf(BindingOf(row)) && r in rules ==> r in rules'
    ensures RowServed(rules', line, f, row)
  {
  }

  lemma OtherPairsStay(fips: FipTable, instances: map<Id, Instance>, rules: Rules, project: Id, i: Id, f: Id, del: set<Rule>)
    requires FipsOk(fips, instances) && f in fips && fips[f].status.Active? && fips[f].priv.Some? && fips[f].instance != Some(i)
    ensures forall r :: r in RulesOf(BindingOf(fips[f])) && r in rules ==>
      r in RemoveEach(rules, RulesOfAll(BindingsOf(fips, project, i)) - del)
  {
    RemoveEachRemoves(rules, RulesOfAll(BindingsOf(fips, project, i)) - del);
    assert BindingOf(fips[f]) !in BindingsOf(fips, project, i);
  }

  lemma OthersServe(w: World, c: Calls, line: seq<TaskMessage>)
    requires w.mq.inflight.Some? && AllServed(w.rules, Line(w.mq), w.fips)
    requires var m := w.mq.inflight.value.msg; !m.kind.FipAssociate? && !m.kind.FipDisassociate?
    requires var m := w.mq.inflight.value.msg; var rest := Bodies(w.mq.queue);
      Line(w.mq) == [m] + rest && (line == rest || line == [m] + rest || line == rest + [m])
    ensures AllServed(w.rules, line, w.fips)
  {
    var m := w.mq.inflight.value.msg;
    forall f | f in w.fips ensures RowServed(w.rules, line, f, w.fips[f]) {
      MovedLineServes(w.rules, m, Bodies(w.mq.queue), line, f, w.fips[f]);
    }
  }

  lemma FinishServes(w: World, c: Calls)
    requires Core(w) && AllServed(w.rules, Line(w.mq), w.fips) && AssociationsWork(FinishStep(c)) && w.mq.inflight.Some?
    ensures var w' := FinishDelivery(w, c); AllServed(w'.rules, Line(w'.mq), w'.fips)
  {
    var m := w.mq.inflight.value.msg;
    var (x, ok) := FinishTask(w, m, c);
    var line := Line(FinalizeDelivery(w.mq, w.mq.inflight.value, ok, c.pubOk));
    HeldFacts(w, c);
    HeldTaskKeepsMessages(w, c);
    FinishParts(w, c);
    HandlerOf(w, m, c);
    FinalizeMovesLine(w.mq, ok, c.pubOk);
    hide *;
    if m.kind.FipAssociate? {
      AssociationServes(w, c, line);
    } else if m.kind.FipDisassociate? {
      DispatchableFields(m);
      RevocationServes(w, c, line);
    } else if m.kind.InstanceDestroy? {
      DispatchableFields(m);
      DestroyServes(w, c, line);
    } else {
      OtherHandlersKeepRules(w, m, c);
      SameParts(w, x);
      OthersServe(w, c, line);
    }
  }

  lemma SameParts(a: World, b: World)
    requires SameRulesAndFips(a, b)
    ensures b.rules == a.rules && b.fips == a.fips
  {
  }

  lemma DispatchableFields(m: TaskMessage)
    requires Dispatchable(m)
    ensures m.kind.FipDisassociate? ==> m.pub.Some? && m.priv.Some?
    ensures m.kind.InstanceDestroy? ==> m.instance.Some?
  {
  }

  // ---- Requests --------------------------------------------------------------------------------------------------------

  lemma PublishServes(rules: Rules, fips: FipTable, q: Mq, x: TaskMessage)
    requires AllServed(rules, Line(q), fips)
    requires forall f :: f in fips && fips[f].status.Active? && fips[f].priv.Some? ==> !Revokes(x, BindingOf(fips[f]))
    ensures AllServed(rules, Line(PublishTask(q, x)), fips)
  {
    PublishJoinsLine(q, x);
    forall f | f in fips ensures RowServed(rules, Line(q) + [x], f, fips[f]) {
      if fips[f].status.Active? && fips[f].priv.Some? {
        JoiningServes(rules, Line(q), x, f, fips[f]);
      }
    }
  }

  /** A new binding comes with its association at the end of the line. */
  lemma AssociateRequestServes(w: World, p: Id, f: Id, i: Id, t: Id, pubOk: bool)
    requires FipsOk(w.fips, w.instances) && AllServed(w.rules, Line(w.mq), w.fips)
    ensures var w' := RequestAssociate(w, p, f, i, t, pubOk).0; AllServed(w'.rules, Line(w'.mq), w'.fips)
  {
    if CanAssociate(w.fips, w.instances, p, f, i) {
      RollbackUndoesAssociate(w.fips, w.instances, p, f, i);
      if pubOk {
        var x := AssociateMessage(t, p, i, f, Binding(w.fips[f].pub, w.instances[i].ipv4.value));
        var w' := RequestAssociate(w, p, f, i, t, pubOk).0;
        PublishServes(w.rules, w.fips, w.mq, x);
        PublishJoinsLine(w.mq, x);
        var line := Line(w.mq) + [x];
        assert w'.mq == PublishTask(w.mq, x) && w'.rules == w.rules;
        forall g | g in w'.fips ensures RowServed(w.rules, line, g, w'.fips[g]) {
          if g == f {
            assert line[|line| - 1] == x && Provides(x, f, w'.fips[f]) && NoneRevokesFrom(line, |line|, BindingOf(w'.fips[f]));
            assert Provides(line[|line| - 1], f, w'.fips[f]) && NoneRevokesFrom(line, |line| - 1 + 1, BindingOf(w'.fips[f]));
          } else {
            assert w'.fips[g] == w.fips[g] && RowServed(w.rules, line, g, w.fips[g]);
          }
        }
      }
    }
  }

  /** A removal is queued only for a pair that is no longer active. */
  lemma DisassociateRequestServes(w: World, p: Id, f: Id, t: Id, pubOk: bool)
    requires FipsOk(w.fips, w.instances) && AllServed(w.rules, Line(w.mq), w.fips)
    ensures var w' := RequestDisassociate(w, p, f, t, pubOk).0; AllServed(w'.rules, Line(w'.mq), w'.fips)
  {
    var (fips, taken) := TakeDisassociate(w.fips, p, f);
    if taken.Some? {
      var x := DisassociateMessage(t, p, f, taken.value);
      assert AllServed(w.rules, Line(w.mq), fips) by {
        forall g | g in fips ensures RowServed(w.rules, Line(w.mq), g, fips[g]) {
          assert RowServed(w.rules, Line(w.mq), g, w.fips[g]);
        }
      }
      forall g | g in fips && fips[g].status.Active? && fips[g].priv.Some? ensures !Revokes(x, BindingOf(fips[g])) {
        assert g != f && fips[g] == w.fips[g];
      }
      PublishServes(w.rules, fips, w.mq, x);
    }
  }

  /** Allocation touches no active row. */
  lemma AllocateServes(rules: Rules, line: seq<TaskMessage>, fips: FipTable, p: Id)
    requires AllServed(rules, line, fips)
    ensures AllServed(rules, line, Allocate(fips, p).0)
  {
    var fips' := Allocate(fips, p).0;
    forall f | f in fips' ensures RowServed(rules, line, f, fips'[f]) {
      assert RowServed(rules, line, f, fips[f]);
    }
  }

  lemma ReconcileServes(rules: Rules, line: seq<TaskMessage>, fips: FipTable, rows: seq<Binding>, ft: Faults)
    requires AllServed(rules, line, fips)
    ensures AllServed(Reconcile(rules, rows, ft), line, fips)
  {
    ReconcileOnlyAppends(rules, rows, ft);
    forall f | f in fips ensures RowServed(Reconcile(rules, rows, ft), line, f, fips[f]) {
      MoreRulesServe(rules, Reconcile(rules, rows, ft), line, f, fips[f]);
    }
  }

  // ---- Every step, every run -----------------------------------------------------------------------------------------------

  /** Steps that change neither rules nor floating IP rows at most publish a message that removes nothing. */
  lemma OtherStepsServe(w: World, s: Step)
    requires AllServed(w.rules, Line(w.mq), w.fips)
    requires !s.FinishStep? && !s.ReconcileStep? && !s.AllocateFip? && !s.AssociateFip? && !s.DisassociateFip? && !s.ReceiveStep?
    ensures var w' := Effect(w, s); AllServed(w'.rules, Line(w'.mq), w'.fips)
  {
    OtherStepsKeepRules(w, s);
    OtherStepsKeepFips(w, s);
    StepPublishes(w, s);
    ApplyMessages(w, s);
    hide Effect, Apply, NewIds, AllServed, Line, PublishTask;
    if Effect(w, s).mq != w.mq {
      var x: TaskMessage :| x.task in NewIds(s) && Asks(s, x.kind) && Effect(w, s).mq == PublishTask(w.mq, x);
      PublishServes(w.rules, w.fips, w.mq, x);
    }
  }

  lemma EffectOf(w: World, s: Step)
    ensures s.FinishStep? ==> Effect(w, s) == FinishDelivery(w, s.calls)
    ensures s.ReconcileStep? ==> Effect(w, s) == w.(rules := Reconcile(w.rules, s.rows, s.faults))
    ensures s.AllocateFip? ==> Effect(w, s) == w.(fips := Allocate(w.fips, s.project).0)
    ensures s.AssociateFip? ==> Effect(w, s) == RequestAssociate(w, s.project, s.fip, s.instance, s.task, s.pubOk).0
    ensures s.DisassociateFip? ==> Effect(w, s) == RequestDisassociate(w, s.project, s.fip, s.task, s.pubOk).0
    ensures s.ReceiveStep? ==> Effect(w, s) == ReceiveTask(w)
  {
    hide FinishDelivery, Reconcile, Allocate, RequestAssociate, RequestDisassociate, ReceiveTask;
  }

  lemma ReceiveServes(w: World)
    requires AllServed(w.rules, Line(w.mq), w.fips)
    ensures var w' := ReceiveTask(w); AllServed(w'.rules, Line(w'.mq), w'.fips)
  {
    ReceiveKeepsLine(w.mq);
    ReceiveTaskMq(w);
    ReceiveShape(w);
    hide AllServed, Line, ReceiveTask, Receive;
  }

  lemma StepServes(w: World, s: Step)
    requires Core(w) && AllServed(w.rules, Line(w.mq), w.fips) && AssociationsWork(s)
    ensures var w' := Apply(w, s); AllServed(w'.rules, Line(w'.mq), w'.fips)
  {
    ApplyNat(w, s);
    EffectOf(w, s);
    CoreFips(w);
    StepIsItself(s);
    hide *;
    if s.FinishStep? {
      if w.mq.inflight.Some? {
        FinishServes(w, s.calls);
      } else {
        IdleFinish(w, s.calls);
      }
    } else if s.ReconcileStep? {
      ReconcileServes(w.rules, Line(w.mq), w.fips, s.rows, s.faults);
    } else if s.AllocateFip? {
      AllocateServes(w.rules, Line(w.mq), w.fips, s.project);
    } else if s.AssociateFip? {
      AssociateRequestServes(w, s.project, s.fip, s.instance, s.task, s.pubOk);
    } else if s.DisassociateFip? {
      DisassociateRequestServes(w, s.project, s.fip, s.task, s.pubOk);
    } else if s.ReceiveStep? {
      ReceiveServes(w);
    } else {
      OtherStepsServe(w, s);
    }
  }

  lemma StepIsItself(s: Step)
    ensures s.FinishStep? ==> s == FinishStep(s.calls)
  {
  }

  lemma {:induction false} RunServes(w: World, steps: seq<Step>)
    requires Core(w) && AllServed(w.rules, Line(w.mq), w.fips)
    requires Runs(w, steps) && forall k :: 0 <= k < |steps| ==> AssociationsWork(steps[k])
    ensures var w' := After(w, steps); AllServed(w'.rules, Line(w'.mq), w'.fips)
    decreases |steps|
  {
    hide Core, AllServed, Line, Apply, AssociationsWork;
    if steps != [] {
      StepKeepsCore(w, steps[0]);
      StepServes(w, steps[0]);
      RunServes(Apply(w, steps[0]), steps[1..]);
    }
  }

  lemma StartsServed(w: World)
    requires Init(w)
    ensures AllServed(w.rules, Line(w.mq), w.fips)
  {
  }

  /**
   * In every run whose association commands work: an active row has both its rules and no removal of its pair is in line,
   * or an association of it is in line behind every removal of its pair.
   */
  lemma ActiveRowsAreServed(w: World, steps: seq<Step>, f: Id)
    requires Init(w) && Runs(w, steps) && forall k :: 0 <= k < |steps| ==> AssociationsWork(steps[k])
    requires f in After(w, steps).fips && After(w, steps).fips[f].status.Active?
    ensures var w' := After(w, steps); var row := w'.fips[f];
      && row.priv.Some?
      && (Provided(w'.rules, Line(w'.mq), BindingOf(row)) || Coming(Line(w'.mq), f, row))
  {
    InitIsCore(w);
    StartsServed(w);
    RunKeepsCore(w, steps);
    RunServes(w, steps);
    CoreFips(After(w, steps));
    hide Runs, After, Core;
    assert RowOk(After(w, steps).fips[f], After(w, steps).instances);
  }

  lemma DrainedServes(rules: Rules, q: Mq, f: Id, row: FloatingIp)
    requires q.queue == [] && q.inflight.None? && row.priv.Some?
    requires Provided(rules, Line(q), BindingOf(row)) || Coming(Line(q), f, row)
    ensures forall r :: r in RulesOf(BindingOf(row)) ==> r in rules
  {
    assert Line(q) == [];
  }

  /**
   * With the queue drained, and no reconcile, the host has exactly the rules of the active rows: whenever rule commands
   * and disassociation publishes work.
   */
  lemma DrainedHostIsExact(w: World, steps: seq<Step>, r: Rule)
    requires Init(w) && Runs(w, steps) && !r.Other?
    requires forall k :: 0 <= k < |steps| ==> NatReliable(steps[k]) && AssociationsWork(steps[k])
    requires After(w, steps).mq.queue == [] && After(w, steps).mq.inflight.None?
    ensures r in After(w, steps).rules <==> ActivePair(After(w, steps).fips, PairOf(r))
  {
    var w' := After(w, steps);
    if r in w'.rules {
      InitIsCore(w);
      RunBuriesNoRevocation(w, steps);
      RulesAreAlwaysJustified(w, steps, r);
      hide Runs, After, Core;
      assert Undelivered(w'.mq) == multiset{};
    }
    if ActivePair(w'.fips, PairOf(r)) {
      hide Runs, AssociationsWork, NatReliable, Line, Coming, Provided;
      var f :| f in w'.fips && w'.fips[f].status.Active? && w'.fips[f].pub == r.pub && w'.fips[f].priv == Some(r.priv);
      ActiveRowsAreServed(w, steps, f);
      DrainedServes(w'.rules, w'.mq, f, w'.fips[f]);
      assert r in RulesOf(BindingOf(w'.fips[f]));
    }
  }
}
