/** Runs from an initial state that leave something on the host which no row and no message accounts for. */
module StrandedRules {
  import opened Wrappers
  import opened HostNames
  import opened NatRules
  import opened Model
  import opened Messages
  import opened FipRows
  import opened Control
  import opened System
  import opened Tracking
  import opened Requests
  import opened Invariants
  import opened Destroy
  import opened NatJustified
  import opened NatExact
  import opened Scenes

  const PAIR := Binding(PUBLIC, HOST)
  const ASSOCIATE := AssociateMessage(6, 1, 1, 5, PAIR)
  const REVOKE := DisassociateMessage(7, 1, 5, PAIR)
  const DESTROY := InstanceMessage(8, InstanceDestroy, 1, 1)
  const HELD := FloatingIp(Some(1), PUBLIC, None, None, Allocated)
  const BOUND := FloatingIp(Some(1), PUBLIC, Some(1), Some(HOST), Active)
  const BOTH: seq<Rule> := [Dnat(PUBLIC, HOST), Snat(PUBLIC, HOST)]

  const BIND := AssociateFip(1, 5, 1, 6, true)

  function Unbind(pubOk: bool): Step {
    DisassociateFip(1, 5, 7, pubOk)
  }

  function AllWork(): Step {
    FinishStep(Fine())
  }

  /** Everything works but the rule deletes. */
  function NoDeletes(): Step {
    FinishStep(CallsWith(true, true, true, RulesOf(PAIR)))
  }

  /** Everything works but the lookup of the domain to delete. */
  function NoLookup(): Step {
    FinishStep(CallsWith(true, true, false, {}))
  }

  // ---- The states -----------------------------------------------------------------------------------------

  function Busy(fip: FloatingIp, rules: seq<Rule>, tasks: Tasks, q: Mq, used: set<Id>): World {
    Scene(Running, tasks, map[], map[5 := fip], Just(ROOT, true), rules, q, used)
  }

  function Tasks6(status: TaskStatus): Tasks {
    CreateTask(Succeeded)[6 := Task(FipAssociate, 1, Some(1), status)]
  }

  function Tasks7(status: TaskStatus): Tasks {
    Tasks6(Succeeded)[7 := Task(FipDisassociate, 1, None, status)]
  }

  function Owned(): World {
    Up().(fips := map[5 := HELD])
  }

  function Binding1(): World {
    Busy(BOUND, [], Tasks6(Pending),
      Mq([Delivery(ASSOCIATE, map[])], None, [], multiset{CREATE}, multiset{CREATE, ASSOCIATE}), {9, 1, 2, 6})
  }

  function Binding2(): World {
    Busy(BOUND, [], Tasks6(InProgress),
      Mq([], Some(Delivery(ASSOCIATE, map[])), [], multiset{CREATE}, multiset{CREATE, ASSOCIATE}), {9, 1, 2, 6})
  }

  function Bound(): World {
    Busy(BOUND, BOTH, Tasks6(Succeeded),
      Mq([], None, [], multiset{CREATE, ASSOCIATE}, multiset{CREATE, ASSOCIATE}), {9, 1, 2, 6})
  }

  function Lost(): World {
    Busy(HELD, BOTH, Tasks7(Failed),
      Mq([], None, [], multiset{CREATE, ASSOCIATE}, multiset{CREATE, ASSOCIATE}), {9, 1, 2, 6, 7})
  }

  function Revoking1(): World {
    Busy(HELD, BOTH, Tasks7(Pending), Mq([Delivery(REVOKE, map[])], None, [], multiset{CREATE, ASSOCIATE},
      multiset{CREATE, ASSOCIATE, REVOKE}), {9, 1, 2, 6, 7})
  }

  function Revoking2(): World {
    Busy(HELD, BOTH, Tasks7(InProgress), Mq([], Some(Delivery(REVOKE, map[])), [], multiset{CREATE, ASSOCIATE},
      multiset{CREATE, ASSOCIATE, REVOKE}), {9, 1, 2, 6, 7})
  }

  function Undeleted(): World {
    Busy(HELD, BOTH, Tasks7(Succeeded), Mq([], None, [], multiset{CREATE, ASSOCIATE, REVOKE},
      multiset{CREATE, ASSOCIATE, REVOKE}), {9, 1, 2, 6, 7})
  }

  // ---- The steps -----------------------------------------------------------------------------------------------

  lemma AllocateStep()
    ensures Enabled(Up(), AllocateFip(1)) && Apply(Up(), AllocateFip(1)) == Owned()
  {
    PlainIsEnabled(Up(), AllocateFip(1));
    hide Enabled;
    assert IsNextFree(map[5 := FREED], 5);
  }

  lemma BindStep()
    ensures Enabled(Owned(), BIND) && Apply(Owned(), BIND) == Binding1()
  {
    PlainIsEnabled(Owned(), BIND);
    hide Enabled;
    assert map[5 := HELD][5 := BOUND] == map[5 := BOUND];
    assert CanAssociate(map[5 := HELD], Rows(Running), 1, 5, 1);
    assert {9, 1, 2} + {6} == {9, 1, 2, 6};
  }

  lemma BoundSteps()
    ensures Enabled(Binding1(), ReceiveStep) && Apply(Binding1(), ReceiveStep) == Binding2()
    ensures Enabled(Binding2(), AllWork()) && Apply(Binding2(), AllWork()) == Bound()
  {
    hide Apply, Enabled;
    Received(Binding1(), Delivery(ASSOCIATE, map[]));
    var none: seq<Rule> := [];
    assert AppendMissing(none, BOTH[0]) == [BOTH[0]];
    assert AppendMissing([BOTH[0]], BOTH[1]) == BOTH;
    assert Associate(none, PAIR, NO_FAULTS) == (BOTH, true);
    assert SetTask(Tasks6(InProgress), 1, 6, Succeeded) == Tasks6(Succeeded);
    var x := Binding2().(rules := BOTH, tasks := Tasks6(Succeeded));
    assert FinishTask(Binding2(), ASSOCIATE, Fine()) == (x, true);
    Finished(Binding2(), Delivery(ASSOCIATE, map[]), Fine(), x, true);
  }

  lemma UnbindStep(pubOk: bool)
    ensures Enabled(Bound(), Unbind(pubOk)) && Apply(Bound(), Unbind(pubOk)) == if pubOk then Revoking1() else Lost()
  {
    PlainIsEnabled(Bound(), Unbind(pubOk));
    hide Enabled;
    Released();
    assert {9, 1, 2, 6} + {7} == {9, 1, 2, 6, 7};
    if pubOk {
      assert Apply(Bound(), Unbind(true)) == Revoking1();
    } else {
      assert Apply(Bound(), Unbind(false)) == Lost();
    }
  }

  lemma Released()
    ensures Unbound(BOUND) == HELD && map[5 := BOUND][5 := HELD] == map[5 := HELD]
  {
  }

  lemma UndeletedSteps()
    ensures Enabled(Revoking1(), ReceiveStep) && Apply(Revoking1(), ReceiveStep) == Revoking2()
    ensures Enabled(Revoking2(), NoDeletes()) && Apply(Revoking2(), NoDeletes()) == Undeleted()
  {
    hide Apply, Enabled;
    Received(Revoking1(), Delivery(REVOKE, map[]));
    var c := CallsWith(true, true, true, RulesOf(PAIR));
    assert Disassociate(BOTH, PAIR, c.faults) == BOTH;
    assert SetTask(Tasks7(InProgress), 1, 7, Succeeded) == Tasks7(Succeeded);
    var x := Revoking2().(tasks := Tasks7(Succeeded));
    assert FinishTask(Revoking2(), REVOKE, c) == (x, true);
    Finished(Revoking2(), Delivery(REVOKE, map[]), c, x, true);
  }

  // ---- Rules without a reason --------------------------------------------------------------------------------------

  function ToBound(rest: seq<Step>): seq<Step> {
    [REQUEST] + ([ReceiveStep] + ([FinishStep(Fine())]
      + ([AllocateFip(1)] + ([BIND] + ([ReceiveStep] + ([AllWork()] + rest))))))
  }

  lemma BoundIsReached(rest: seq<Step>, end: World)
    requires Leads(Bound(), rest, end)
    ensures Leads(Beginning(), ToBound(rest), end)
  {
    AllocateStep();
    BindStep();
    BoundSteps();
    hide Apply, Enabled, Leads, Beginning, Up, Owned, Binding1, Binding2, Bound, AllWork, Fine;
    LeadsOn(Binding2(), AllWork(), Bound(), rest, end);
    LeadsOn(Binding1(), ReceiveStep, Binding2(), [AllWork()] + rest, end);
    LeadsOn(Owned(), BIND, Binding1(), [ReceiveStep] + ([AllWork()] + rest), end);
    LeadsOn(Up(), AllocateFip(1), Owned(), [BIND] + ([ReceiveStep] + ([AllWork()] + rest)), end);
    FromTheBeginning([AllocateFip(1)] + ([BIND] + ([ReceiveStep] + ([AllWork()] + rest))), end);
  }

  ghost predicate Stranded(w: World, r: Rule) {
    r in w.rules && !r.Other? && !ActivePair(w.fips, PairOf(r)) && !Awaited(w.mq, PairOf(r))
  }

  lemma NothingAccounts(w: World)
    requires w.mq.queue == [] && w.mq.inflight.None? && w.mq.dlq == [] && w.fips == map[5 := HELD] && w.rules == BOTH
    ensures Stranded(w, BOTH[0])
  {
    assert Undelivered(w.mq) + Bag(w.mq.dlq) == multiset{};
    assert BOTH[0] in w.rules;
  }

  /** A run that loses the publish of a disassociation: both rules of the pair stay, and nothing will remove them. */
  lemma LostPublishStrandsRule()
    ensures var steps := ToBound([Unbind(false)] + []); var w' := After(Beginning(), steps);
      Init(Beginning()) && Runs(Beginning(), steps) && !ReasonedRun(Beginning(), steps) && Stranded(w', BOTH[0])
  {
    var steps := ToBound([Unbind(false)] + []);
    BeginningIsInitial();
    UnbindStep(false);
    NoStepsLead(Lost());
    NothingAccounts(Lost());
    assert Leads(Bound(), [Unbind(false)] + [], Lost()) by {
      hide Apply, Enabled, Leads, Bound, Lost, Unbind;
      LeadsOn(Bound(), Unbind(false), Lost(), [], Lost());
    }
    BoundIsReached([Unbind(false)] + [], Lost());
    StrandedIsUnreasoned(steps, Lost());
    hide ToBound, Beginning, Runs, After, Lost, ReasonedRun, Init, Stranded;
  }

  /** A run in which only rule deletes fail: the disassociation is done, and its rules stay all the same. */
  lemma FailedDeleteStrandsRule()
    ensures var steps := ToBound([Unbind(true)] + ([ReceiveStep] + ([NoDeletes()] + []))); var w' := After(Beginning(), steps);
      Init(Beginning()) && Runs(Beginning(), steps) && !ReasonedRun(Beginning(), steps) && Stranded(w', BOTH[0])
  {
    var last := [Unbind(true)] + ([ReceiveStep] + ([NoDeletes()] + []));
    BeginningIsInitial();
    UnbindStep(true);
    UndeletedSteps();
    NoStepsLead(Undeleted());
    NothingAccounts(Undeleted());
    assert Leads(Bound(), last, Undeleted()) by {
      hide Apply, Enabled, Leads, Bound, Revoking1, Revoking2, Undeleted, Unbind, NoDeletes;
      LeadsOn(Revoking2(), NoDeletes(), Undeleted(), [], Undeleted());
      LeadsOn(Revoking1(), ReceiveStep, Revoking2(), [NoDeletes()] + [], Undeleted());
      LeadsOn(Bound(), Unbind(true), Revoking1(), [ReceiveStep] + ([NoDeletes()] + []), Undeleted());
    }
    BoundIsReached(last, Undeleted());
    StrandedIsUnreasoned(ToBound(last), Undeleted());
    hide ToBound, Beginning, Runs, After, Undeleted, ReasonedRun, Init, Stranded;
  }

  lemma {:induction false} JustifiedAtTheEnd(w: World, steps: seq<Step>)
    requires JustifiedThroughout(w, steps)
    ensures var w' := After(w, steps); AllJustified(w'.rules, w'.fips, w'.mq)
    decreases |steps|
  {
    hide AllJustified, Apply;
    if steps != [] {
      JustifiedAtTheEnd(Apply(w, steps[0]), steps[1..]);
    }
  }

  lemma StrandedIsUnreasoned(steps: seq<Step>, end: World)
    requires Leads(Beginning(), steps, end) && Stranded(end, BOTH[0])
    ensures Runs(Beginning(), steps) && After(Beginning(), steps) == end && !ReasonedRun(Beginning(), steps)
  {
    BeginningIsInitial();
    hide Beginning, Runs, After, Init, ReasonedRun, JustifiedThroughout;
    if ReasonedRun(Beginning(), steps) {
      JustificationIsExact(Beginning(), steps);
      JustifiedAtTheEnd(Beginning(), steps);
      assert false;
    }
  }

  // ---- A domain without a row ------------------------------------------------------------------------------------------

  const DROP := InstanceAction(1, 1, "destroy", 8, true)

  function Tasks8(status: TaskStatus): Tasks {
    CreateTask(Succeeded)[8 := Task(InstanceDestroy, 1, Some(1), status)]
  }

  function Doomed1(): World {
    Scene(Running, Tasks8(Pending), map[], map[5 := FREED], Just(ROOT, true), [],
      Mq([Delivery(DESTROY, map[])], None, [], multiset{CREATE}, multiset{CREATE, DESTROY}), {9, 1, 2, 8})
  }

  function Doomed2(): World {
    Doomed1().(tasks := Tasks8(InProgress), mq := Mq([], Some(Delivery(DESTROY, map[])), [], multiset{CREATE}, multiset{CREATE, DESTROY}))
  }

  lemma DestroyWord()
    ensures ParseAction("destroy") == Some(Destroy)
  {
  }

  lemma DropStep()
    ensures Enabled(Up(), DROP) && Apply(Up(), DROP) == Doomed1()
  {
    DropQueues();
    DestroyWord();
    UpIsFree();
    hide *;
    Acted(Up(), 1, 1, "destroy", Destroy, 8);
    DropIs();
  }

  lemma DropIs()
    ensures DROP == InstanceAction(1, 1, "destroy", 8, true) && DESTROY == InstanceMessage(8, TaskKindFor(Destroy), 1, 1)
  {
  }

  lemma UpIsFree()
    ensures var w := Up();
      HasInstance(w.instances, 1, 1) && ActionAllowed(w.instances[1].state, Destroy) && 8 !in w.used && !HasVolumes(w.volumes, 1, 1)
  {
  }

  lemma DropQueues()
    ensures Enqueue(Up(), DESTROY, true).(used := Up().used + {8}) == Doomed1()
  {
    assert {9, 1, 2} + {8} == {9, 1, 2, 8};
  }

  lemma DoomedStep()
    ensures Enabled(Doomed1(), ReceiveStep) && Apply(Doomed1(), ReceiveStep) == Doomed2()
  {
    hide Apply, Enabled;
    Received(Doomed1(), Delivery(DESTROY, map[]));
  }

  /** The state at the end of the run. */
  function Orphaned(): World {
    FinishDelivery(Doomed2(), CallsWith(true, true, false, {}))
  }

  lemma FinishIs(w: World, c: Calls)
    ensures Enabled(w, FinishStep(c)) && Apply(w, FinishStep(c)) == FinishDelivery(w, c)
  {
    hide FinishDelivery;
  }

  lemma OrphanIsReached()
    ensures Leads(Up(), [DROP] + ([ReceiveStep] + []), Doomed2())
    ensures Leads(Up(), [DROP] + ([ReceiveStep] + ([NoLookup()] + [])), Orphaned())
  {
    DropStep();
    DoomedStep();
    FinishIs(Doomed2(), CallsWith(true, true, false, {}));
    NoStepsLead(Doomed2());
    NoStepsLead(Orphaned());
    hide Apply, Enabled, Leads, Up, Doomed1, Doomed2, FinishDelivery;
    LeadsOn(Doomed1(), ReceiveStep, Doomed2(), [], Doomed2());
    LeadsOn(Up(), DROP, Doomed1(), [ReceiveStep] + [], Doomed2());
    LeadsOn(Doomed2(), NoLookup(), Orphaned(), [], Orphaned());
    LeadsOn(Doomed1(), ReceiveStep, Doomed2(), [NoLookup()] + [], Orphaned());
    LeadsOn(Up(), DROP, Doomed1(), [ReceiveStep] + ([NoLookup()] + []), Orphaned());
  }

  lemma DoomedIsDestroyable()
    ensures Destroyable(Doomed2(), DESTROY)
  {
    var steps := [REQUEST] + ([ReceiveStep] + ([FinishStep(Fine())] + ([DROP] + ([ReceiveStep] + []))));
    BeginningIsInitial();
    OrphanIsReached();
    FromTheBeginning([DROP] + ([ReceiveStep] + []), Doomed2());
    assert Runs(Beginning(), steps) && After(Beginning(), steps) == Doomed2();
    hide Beginning, Init, Runs, After;
    InitIsCore(Beginning());
    RunKeepsCore(Beginning(), steps);
    assert AtMostOnce(Doomed2().rules);
    HeldDestroyIsDestroyable(Doomed2());
  }

  lemma DomainOutlivesRow()
    ensures var w := Orphaned(); var name := Sanitized("vm");
      1 !in w.instances && name in w.domains && w.domains[name].running && 8 in w.tasks && w.tasks[8].status.Succeeded?
  {
    DoomedIsDestroyable();
    var c := CallsWith(true, true, false, {});
    assert Sanitized("vm") in Doomed2().domains && Doomed2().domains[Sanitized("vm")].running;
    FailedLookupOrphansDomain(Doomed2(), DESTROY, c);
    var (x, ok) := FinishDestroy(Doomed2(), DESTROY, c);
    DoomedFinish(c, x, ok);
    hide FinishDestroy, FinishDelivery, Destroyable;
  }

  lemma DoomedFinish(c: Calls, x: World, ok: bool)
    requires FinishDestroy(Doomed2(), DESTROY, c) == (x, ok)
    ensures var w' := FinishDelivery(Doomed2(), c); w'.instances == x.instances && w'.domains == x.domains && w'.tasks == x.tasks
  {
    hide FinishDestroy;
  }

  /** A run in which only one lookup fails: the destroy has succeeded, no row is left, and the guest still runs. */
  lemma FailedLookupLeavesGuest()
    ensures var steps := [REQUEST] + ([ReceiveStep] + ([FinishStep(Fine())] + ([DROP] + ([ReceiveStep] + ([NoLookup()] + [])))));
      var w' := After(Beginning(), steps); var name := Sanitized("vm");
      && Init(Beginning()) && Runs(Beginning(), steps)
      && 1 !in w'.instances && name in w'.domains && w'.domains[name].running && 8 in w'.tasks && w'.tasks[8].status.Succeeded?
  {
    BeginningIsInitial();
    OrphanIsReached();
    FromTheBeginning([DROP] + ([ReceiveStep] + ([NoLookup()] + [])), Orphaned());
    DomainOutlivesRow();
    hide Beginning, Init, Runs, After, Orphaned;
  }
}
