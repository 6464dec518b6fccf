/** A failed start that is not cleaned up, and a retry that takes the disks of a domain in use. */
module LeftoverDomain {
  import opened Wrappers
  import opened HostNames
  import opened Model
  import opened Messages
  import opened Disks
  import opened Control
  import opened System
  import opened Tracking
  import opened VolumeAgreement
  import opened Scenes

  const START := InstanceMessage(4, InstanceStart, 1, 1)
  const FREE := Volume(1, "data", Available, None, None)
  const USED := Volume(1, "data", InUse, Some(1), Some('b'))
  const RETRIED := Delivery(CREATE, RetryHeaders(0))
  const LAST := Delivery(CREATE, RetryHeaders(1))
  const STARTS := Delivery(START, map[])
  const IDS: set<Id> := {9, 1, 2, 3, 4}

  const VOLUME := NewVolume(1, 3, "data", true)
  const RESTART := InstanceAction(1, 1, "start", 4, true)
  const ATTACH := AttachVolume(1, 1, 3, AttachCalls(true, true, true, true))

  /** Provisioning that fails at the start of the domain. */
  function NoStart(cleanUp: bool): Step {
    FinishStep(CallsWith(false, cleanUp, true, {}))
  }

  function AllWork(): Step {
    FinishStep(Fine())
  }

  function BothTasks(create: TaskStatus, start: TaskStatus): Tasks {
    map[2 := Task(InstanceCreate, 1, Some(1), create), 4 := Task(InstanceStart, 1, Some(1), start)]
  }

  function Late(state: InstanceState, tasks: Tasks, volume: Volume, domains: Domains,
                ds: seq<Delivery>, held: Option<Delivery>, done: multiset<TaskMessage>): World
  {
    Scene(state, tasks, map[3 := volume], map[5 := FREED], domains, [], Mq(ds, held, [], done, multiset{CREATE, START}), IDS)
  }

  // ---- The states of the run -----------------------------------------------------------------------------

  function WithVolume(): World {
    Requested().(volumes := map[3 := FREE], used := {9, 1, 2, 3})
  }

  function FirstTry(): World {
    WithVolume().(tasks := CreateTask(InProgress), mq := Mq([], Some(CREATES), [], multiset{}, multiset{CREATE}))
  }

  function CleanedUp(): World {
    Scene(Errored, CreateTask(Failed), map[3 := FREE], map[5 := FREED], map[], [],
      Mq([RETRIED], None, [], multiset{}, multiset{CREATE}), {9, 1, 2, 3})
  }

  function Waiting(): World {
    Late(Errored, BothTasks(Failed, Pending), FREE, map[], [RETRIED, STARTS], None, multiset{})
  }

  function Retrying(): World {
    Late(Errored, BothTasks(InProgress, Pending), FREE, map[], [STARTS], Some(RETRIED), multiset{})
  }

  function LeftDefined(): World {
    Late(Errored, BothTasks(Failed, Pending), FREE, Just(ROOT, false), [STARTS, LAST], None, multiset{})
  }

  function Starting(): World {
    Late(Errored, BothTasks(Failed, InProgress), FREE, Just(ROOT, false), [LAST], Some(STARTS), multiset{})
  }

  function Started(): World {
    Late(Running, BothTasks(Failed, Succeeded), FREE, Just(ROOT, true), [LAST], None, multiset{START})
  }

  function InService(): World {
    Late(Running, BothTasks(Failed, Succeeded), USED, Just(ROOT['b' := VolumeFile(3)], true), [LAST], None, multiset{START})
  }

  function CreatingAgain(): World {
    Late(Running, BothTasks(InProgress, Succeeded), USED, Just(ROOT['b' := VolumeFile(3)], true), [], Some(LAST), multiset{START})
  }

  function DiskLost(): World {
    Late(Running, BothTasks(Succeeded, Succeeded), USED, Just(ROOT, true), [], None, multiset{START, CREATE})
  }

  // ---- The steps between them --------------------------------------------------------------------------------

  lemma VolumeStep()
    ensures Enabled(Requested(), VOLUME) && Apply(Requested(), VOLUME) == WithVolume()
  {
    assert {9, 1, 2} + {3} == {9, 1, 2, 3};
  }

  lemma FirstSteps()
    ensures Enabled(WithVolume(), ReceiveStep) && Apply(WithVolume(), ReceiveStep) == FirstTry()
    ensures Enabled(FirstTry(), NoStart(true)) && Apply(FirstTry(), NoStart(true)) == CleanedUp()
  {
    hide Apply, Enabled;
    Received(WithVolume(), CREATES);
    assert [CREATES][1..] == [];
    var c := CallsWith(false, true, true, {});
    MadeFromNothing(c.vm);
    EndsOnRow(FirstTry(), CREATE, false, Running, Errored, Creating, CreateTask(Failed));
    hide EndWith;
    assert FinishTask(FirstTry(), CREATE, c) == EndWith(FirstTry(), CREATE, false, Running, Errored);
    Finished(FirstTry(), CREATES, c, FirstTry().(instances := Rows(Errored), tasks := CreateTask(Failed)), false);
  }

  lemma RestartStep()
    ensures Enabled(CleanedUp(), RESTART) && Apply(CleanedUp(), RESTART) == Waiting()
  {
    StartWord();
    hide ParseAction;
    Acted(CleanedUp(), 1, 1, "start", Start, 4);
    hide Apply, Enabled;
    assert IDS == {9, 1, 2, 3} + {4};
    assert CreateTask(Failed)[4 := Task(InstanceStart, 1, Some(1), Pending)] == BothTasks(Failed, Pending);
  }

  lemma StartWord()
    ensures ParseAction("start") == Some(Start)
  {
  }

  lemma RetrySteps()
    ensures Enabled(Waiting(), ReceiveStep) && Apply(Waiting(), ReceiveStep) == Retrying()
    ensures Enabled(Retrying(), NoStart(false)) && Apply(Retrying(), NoStart(false)) == LeftDefined()
    ensures Enabled(LeftDefined(), ReceiveStep) && Apply(LeftDefined(), ReceiveStep) == Starting()
  {
    hide Apply, Enabled;
    Received(Waiting(), RETRIED);
    Received(LeftDefined(), STARTS);
    var c := CallsWith(false, false, true, {});
    var y := Retrying().(domains := Just(ROOT, false));
    MadeFromNothing(c.vm);
    EndsOnRow(y, CREATE, false, Running, Errored, Errored, BothTasks(Failed, Pending));
    hide EndWith;
    assert FinishTask(Retrying(), CREATE, c) == EndWith(y, CREATE, false, Running, Errored);
    Finished(Retrying(), RETRIED, c, y.(tasks := BothTasks(Failed, Pending)), false);
  }

  lemma StartSteps()
    ensures Enabled(Starting(), AllWork()) && Apply(Starting(), AllWork()) == Started()
    ensures Enabled(InService(), ReceiveStep) && Apply(InService(), ReceiveStep) == CreatingAgain()
  {
    hide Apply, Enabled;
    Received(InService(), LAST);
    var y := Starting().(domains := Just(ROOT, true));
    assert StartVm(Just(ROOT, false), Sanitized("vm"), true).0 == Just(ROOT, true);
    EndsOnRow(y, START, true, Running, Errored, Errored, BothTasks(Failed, Succeeded));
    hide EndWith;
    assert FinishTask(Starting(), START, Fine()) == EndWith(y, START, true, Running, Errored);
    Finished(Starting(), STARTS, Fine(), y.(instances := Rows(Running), tasks := BothTasks(Failed, Succeeded)), true);
  }

  lemma AttachStep()
    ensures Enabled(Started(), ATTACH) && Apply(Started(), ATTACH) == InService()
  {
    PlainIsEnabled(Started(), ATTACH);
    hide Enabled;
    var name := Sanitized("vm");
    assert NextLetter(ROOT) == Some('b');
    assert AttachDisk(Just(ROOT, true), name, 'b', VolumeFile(3), true).0 == Just(ROOT['b' := VolumeFile(3)], true);
    assert AttachRecord(map[3 := FREE], 1, 3, 1, 'b') == map[3 := USED];
  }

  lemma ReplacedDisks()
    ensures CreateVm(Just(ROOT['b' := VolumeFile(3)], true), Sanitized("vm"), 1, Fine().vm) == (Just(ROOT, true), true)
  {
    var name := Sanitized("vm");
    var none: Domains := map[];
    assert Just(ROOT['b' := VolumeFile(3)], true) - {name} == none;
    MadeFromNothing(Fine().vm);
  }

  lemma LastStep()
    ensures Enabled(CreatingAgain(), AllWork()) && Apply(CreatingAgain(), AllWork()) == DiskLost()
  {
    hide Apply, Enabled;
    var y := CreatingAgain().(domains := Just(ROOT, true));
    ReplacedDisks();
    EndsOnRow(y, CREATE, true, Running, Errored, Running, BothTasks(Succeeded, Succeeded));
    hide EndWith;
    assert FinishTask(CreatingAgain(), CREATE, Fine()) == EndWith(y, CREATE, true, Running, Errored);
    Finished(CreatingAgain(), LAST, Fine(), y.(tasks := BothTasks(Succeeded, Succeeded)), true);
  }

  // ---- The run ---------------------------------------------------------------------------------------------------

  function LastSteps(): seq<Step> {
    [ATTACH] + ([ReceiveStep] + ([AllWork()] + []))
  }

  function MiddleSteps(): seq<Step> {
    [ReceiveStep] + ([NoStart(false)] + ([ReceiveStep] + ([AllWork()] + LastSteps())))
  }

  function Steps(): seq<Step> {
    [REQUEST] + ([VOLUME] + ([ReceiveStep] + ([NoStart(true)] + ([RESTART] + MiddleSteps()))))
  }

  lemma LastStepsLead()
    ensures Leads(Started(), LastSteps(), DiskLost())
  {
    AttachStep();
    StartSteps();
    LastStep();
    NoStepsLead(DiskLost());
    hide Apply, Enabled, Leads, Started, InService, CreatingAgain, DiskLost, AllWork;
    LeadsOn(CreatingAgain(), AllWork(), DiskLost(), [], DiskLost());
    LeadsOn(InService(), ReceiveStep, CreatingAgain(), [AllWork()] + [], DiskLost());
    LeadsOn(Started(), ATTACH, InService(), [ReceiveStep] + ([AllWork()] + []), DiskLost());
  }

  lemma MiddleStepsLead()
    ensures Leads(Waiting(), MiddleSteps(), DiskLost())
  {
    RetrySteps();
    StartSteps();
    LastStepsLead();
    hide Apply, Enabled, Leads, Waiting, Retrying, LeftDefined, Starting, Started, DiskLost, LastSteps, AllWork, NoStart;
    var rest := LastSteps();
    LeadsOn(Starting(), AllWork(), Started(), rest, DiskLost());
    LeadsOn(LeftDefined(), ReceiveStep, Starting(), [AllWork()] + rest, DiskLost());
    LeadsOn(Retrying(), NoStart(false), LeftDefined(), [ReceiveStep] + ([AllWork()] + rest), DiskLost());
    LeadsOn(Waiting(), ReceiveStep, Retrying(), [NoStart(false)] + ([ReceiveStep] + ([AllWork()] + rest)), DiskLost());
  }

  lemma StepsLead()
    ensures Leads(Beginning(), Steps(), DiskLost())
  {
    RequestStep();
    VolumeStep();
    FirstSteps();
    RestartStep();
    MiddleStepsLead();
    hide Apply, Enabled, Leads, Beginning, Requested, WithVolume, FirstTry, CleanedUp, Waiting, DiskLost, MiddleSteps, NoStart;
    var rest := MiddleSteps();
    LeadsOn(CleanedUp(), RESTART, Waiting(), rest, DiskLost());
    LeadsOn(FirstTry(), NoStart(true), CleanedUp(), [RESTART] + rest, DiskLost());
    LeadsOn(WithVolume(), ReceiveStep, FirstTry(), [NoStart(true)] + ([RESTART] + rest), DiskLost());
    LeadsOn(Requested(), VOLUME, WithVolume(), [ReceiveStep] + ([NoStart(true)] + ([RESTART] + rest)), DiskLost());
    LeadsOn(Beginning(), REQUEST, Requested(),
      [VOLUME] + ([ReceiveStep] + ([NoStart(true)] + ([RESTART] + rest))), DiskLost());
  }

  lemma DiskLostIsUnsound()
    ensures var w := DiskLost();
      w.volumes[3] == USED && w.instances[1].state == Running && !VolumesOk(w.volumes, w.instances, w.domains)
  {
    var w := DiskLost();
    assert !VolumeRowOk(3, USED, w.instances, w.domains);
  }

  /** A run from an initial state at whose end a volume is in use by a running instance, and its disk is gone. */
  lemma RetriedCreateLosesDisk()
    ensures var w, w' := Beginning(), After(Beginning(), Steps());
      && Init(w) && Runs(w, Steps()) && !SparingRun(w, Steps())
      && 3 in w'.volumes && w'.volumes[3] == USED && 1 in w'.instances && w'.instances[1].state == Running
      && !VolumesOk(w'.volumes, w'.instances, w'.domains)
  {
    BeginningIsInitial();
    StepsLead();
    DiskLostIsUnsound();
    assert 3 in DiskLost().volumes && 1 in DiskLost().instances;
    hide Beginning, Steps, DiskLost, VolumesOk, Init, Runs, After;
    if SparingRun(Beginning(), Steps()) {
      AgreementIsExact(Beginning(), Steps());
      PlacedAtTheEnd(Beginning(), Steps());
      assert false;
    }
  }
}
