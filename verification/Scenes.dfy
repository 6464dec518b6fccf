/** One instance in one small network, from an initial state: the common beginning of the example runs. */
module Scenes {
  import opened Wrappers
  import opened Addresses
  import opened HostNames
  import opened NatRules
  import opened Model
  import opened Messages
  import opened Ipam
  import opened Disks
  import opened Control
  import opened System
  import opened Tracking

  // ---- Runs put together ------------------------------------------------------------------------------

  /** The steps lead from one state to another. */
  ghost predicate Leads(a: World, steps: seq<Step>, b: World) {
    Runs(a, steps) && After(a, steps) == b
  }

  lemma NoStepsLead(w: World)
    ensures Leads(w, [], w)
  {
  }

  lemma LeadsOn(a: World, s: Step, b: World, rest: seq<Step>, end: World)
    requires Enabled(a, s) && Apply(a, s) == b && Leads(b, rest, end)
    ensures Leads(a, [s] + rest, end)
  {
    hide Apply, Enabled;
    assert ([s] + rest)[1..] == rest;
  }

  lemma PlainIsEnabled(w: World, s: Step)
    requires NewIds(s) !! w.used && !s.NewInstance? && !s.ReconcileStep?
    ensures Enabled(w, s)
  {
  }

  /** Taking the head of the queue. */
  lemma Received(w: World, d: Delivery)
    requires w.mq.inflight.None? && w.mq.queue != [] && w.mq.queue[0] == d && Begins(w, d.msg)
    ensures Enabled(w, ReceiveStep)
    ensures Apply(w, ReceiveStep)
         == w.(mq := w.mq.(queue := w.mq.queue[1..], inflight := Some(d)),
               tasks := w.tasks[d.msg.task := w.tasks[d.msg.task].(status := InProgress)])
  {
  }

  /** Finishing what is held. */
  lemma Finished(w: World, d: Delivery, c: Calls, x: World, ok: bool)
    requires w.mq.inflight == Some(d) && FinishTask(w, d.msg, c) == (x, ok)
    ensures Enabled(w, FinishStep(c))
    ensures Apply(w, FinishStep(c)) == x.(mq := FinalizeDelivery(x.mq, d, ok, c.pubOk))
  {
    hide FinishTask;
  }

  /** An action that is accepted. */
  lemma Acted(w: World, p: Id, i: Id, action: string, a: Action, t: Id)
    requires ParseAction(action) == Some(a) && HasInstance(w.instances, p, i) && ActionAllowed(w.instances[i].state, a)
    requires t !in w.used && !(a.Destroy? && HasVolumes(w.volumes, p, i))
    ensures Enabled(w, InstanceAction(p, i, action, t, true))
    ensures Apply(w, InstanceAction(p, i, action, t, true))
         == Enqueue(w, InstanceMessage(t, TaskKindFor(a), p, i), true).(used := w.used + {t})
  {
    hide ParseAction, Enqueue;
  }

  // ---- The scene ------------------------------------------------------------------------------------------

  /** 10.0.0.0/30 with its gateway at .1 leaves one address. */
  const NETWORK: Network := Network(1, Prefix(0x0A00_0000, 30), 0x0A00_0001)
  const HOST: Addr := 0x0A00_0002
  const PUBLIC: Addr := 0xCB00_7102

  const FREED := FloatingIp(None, PUBLIC, None, None, Unallocated)
  const CREATE := InstanceMessage(2, InstanceCreate, 1, 1)
  const CREATES := Delivery(CREATE, map[])
  const ROOT: map<char, DiskFile> := map['a' := RootDisk(1)]

  function Rows(state: InstanceState): map<Id, Instance> {
    map[1 := Instance(1, "vm", state, Some(9), Some(HOST))]
  }

  function Claimed(): Tables {
    Tables(map[9 := NETWORK], map[Slot(9, HOST) := Some(1)], map[1 := Allocation(9, 1, HOST)])
  }

  function Scene(state: InstanceState, tasks: Tasks, volumes: map<Id, Volume>, fips: map<Id, FloatingIp>, domains: Domains,
                 rules: seq<Rule>, q: Mq, used: set<Id>): World
  {
    World(Claimed(), Rows(state), tasks, map[], volumes, fips, domains, rules, q, used)
  }

  function Just(disks: map<char, DiskFile>, running: bool): Domains {
    map[Sanitized("vm") := Domain(running, disks)]
  }

  /** All calls work but those named. */
  function CallsWith(start: bool, cleanUp: bool, lookup: bool, del: set<Rule>): Calls {
    Calls(true, VmCalls(true, true, true, true, true, true, true, start, cleanUp), true, {},
      DeleteCalls(true, lookup, true, true, true, true), RevertCalls(true, true, true, true), Faults({}, {}, del), true)
  }

  function Fine(): Calls {
    CallsWith(true, true, true, {})
  }

  function CreateTask(status: TaskStatus): Tasks {
    map[2 := Task(InstanceCreate, 1, Some(1), status)]
  }

  /** A network from before slots existed, one public address, and nothing else. */
  function Beginning(): World {
    World(Tables(map[9 := NETWORK], map[], map[]), map[], map[], map[], map[], map[5 := FREED], map[], [],
      Mq([], None, [], multiset{}, multiset{}), {9})
  }

  const REQUEST := System.NewInstance(CreateRequest(1, "vm", 9, 1, 2, true, true), true)

  function Requested(): World {
    Scene(Creating, CreateTask(Pending), map[], map[5 := FREED], map[], [],
      Mq([CREATES], None, [], multiset{}, multiset{CREATE}), {9, 1, 2})
  }

  lemma BeginningIsInitial()
    ensures Init(Beginning())
  {
  }

  lemma OneHost()
    ensures Supported(NETWORK.prefix) && HostSet(NETWORK.prefix, NETWORK.gateway) == {HOST}
  {
    assert Pow2(2) == 2 * Pow2(1) == 4;
    assert Span(NETWORK.prefix) == 4;
    assert Masked(NETWORK.prefix) == 0x0A00_0000;
    forall u: Addr ensures u in HostSet(NETWORK.prefix, NETWORK.gateway) <==> u == HOST {
    }
  }

  lemma RequestCommits()
    ensures CreateInstanceWithIpam(Beginning().ipam, map[], REQUEST.req) == Committed(Claimed(), Rows(Creating))
  {
    var t := Beginning().ipam;
    var empty: map<Slot, Option<Id>> := map[];
    OneHost();
    assert SlotsOf(empty, 9) == {};
    var seeded := Seed(empty, 9, {HOST});
    assert HostSlots(9, {HOST}) == {Slot(9, HOST)};
    assert seeded == map[Slot(9, HOST) := None];
    assert FreeAddrs(seeded, 9) == {HOST};
    assert Least({HOST}) == HOST by {
      assert IsLeast({HOST}, Least({HOST}));
    }
  }

  lemma RequestStep()
    ensures Enabled(Beginning(), REQUEST) && Apply(Beginning(), REQUEST) == Requested()
  {
    RequestCommits();
    hide CreateInstanceWithIpam;
    assert {9} + {1, 2} == {9, 1, 2};
  }

  /** The two last writes of a handler. */
  lemma EndsOnRow(w: World, m: TaskMessage, ok: bool, good: InstanceState, bad: InstanceState, a: InstanceState, tasks: Tasks)
    requires m.instance == Some(1) && m.project == 1 && w.instances == Rows(a)
    requires tasks == SetTask(w.tasks, 1, m.task, if ok then Succeeded else Failed)
    ensures EndWith(w, m, ok, good, bad) == (w.(instances := Rows(if ok then good else bad), tasks := tasks), ok)
  {
    assert SetState(Rows(a), 1, 1, if ok then good else bad) == Rows(if ok then good else bad);
  }

  // ---- The instance comes up ----------------------------------------------------------------------------------

  function Provisioning(): World {
    Requested().(tasks := CreateTask(InProgress), mq := Mq([], Some(CREATES), [], multiset{}, multiset{CREATE}))
  }

  function Up(): World {
    Scene(Running, CreateTask(Succeeded), map[], map[5 := FREED], Just(ROOT, true), [],
      Mq([], None, [], multiset{CREATE}, multiset{CREATE}), {9, 1, 2})
  }

  lemma MadeFromNothing(k: VmCalls)
    requires k.connect && k.files && k.define
    ensures var none: Domains := map[];
      CreateVm(none, Sanitized("vm"), 1, k)
      == if k.start then (Just(ROOT, true), true) else if k.cleanUp then (none, false) else (Just(ROOT, false), false)
  {
    var none: Domains := map[];
    var name := Sanitized("vm");
    var defined := Defined(none, name, 1);
    assert defined == Just(ROOT, false);
    assert defined[name := defined[name].(running := true)] == Just(ROOT, true);
    assert defined - {name} == none;
    assert Halted(defined, name) == defined;
  }

  lemma ComesUp()
    ensures Enabled(Requested(), ReceiveStep) && Apply(Requested(), ReceiveStep) == Provisioning()
    ensures Enabled(Provisioning(), FinishStep(Fine())) && Apply(Provisioning(), FinishStep(Fine())) == Up()
  {
    hide Apply, Enabled;
    Received(Requested(), CREATES);
    assert [CREATES][1..] == [];
    var y := Provisioning().(domains := Just(ROOT, true));
    MadeFromNothing(Fine().vm);
    EndsOnRow(y, CREATE, true, Running, Errored, Creating, CreateTask(Succeeded));
    hide EndWith;
    assert FinishTask(Provisioning(), CREATE, Fine()) == EndWith(y, CREATE, true, Running, Errored);
    Finished(Provisioning(), CREATES, Fine(), y.(instances := Rows(Running), tasks := CreateTask(Succeeded)), true);
  }

  /** Whatever the running instance can be led to can be reached from the beginning. */
  lemma FromTheBeginning(rest: seq<Step>, end: World)
    requires Leads(Up(), rest, end)
    ensures Leads(Beginning(), [REQUEST] + ([ReceiveStep] + ([FinishStep(Fine())] + rest)), end)
  {
    RequestStep();
    ComesUp();
    hide Apply, Enabled, Leads, Beginning, Requested, Provisioning, Up;
    LeadsOn(Provisioning(), FinishStep(Fine()), Up(), rest, end);
    LeadsOn(Requested(), ReceiveStep, Provisioning(), [FinishStep(Fine())] + rest, end);
    LeadsOn(Beginning(), REQUEST, Requested(), [ReceiveStep] + ([FinishStep(Fine())] + rest), end);
  }
}
