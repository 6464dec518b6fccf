/** The services wired together: whatever is called, the state is that of a run from an initial one. */
module ControlPlane {
  import opened HostNames
  import opened NatRules
  import opened Model
  import opened Ipam
  import opened FipRows
  import opened Disks
  import opened Control
  import opened System
  import opened Invariants
  import opened Requests
  import opened Retries
  import opened Plant
  import opened Ingress
  import opened DiskTargets
  import InstanceService
  import VolumeService
  import FloatingIpService
  import Worker

  class Plane {
    const sys: Deployment
    const instances: InstanceService.Instances
    const volumes: VolumeService.Volumes
    const floatingIps: FloatingIpService.FloatingIps
    const worker: Worker.Worker
    /** Where it started, and every step since. */
    ghost const start: World
    ghost var history: seq<Step>

    predicate Wired() {
      && instances.sys == sys && instances.volumes == volumes && volumes.sys == sys && floatingIps.sys == sys
      && worker.sys == sys && worker.instances == instances && worker.floatingIps == floatingIps
    }

    /** The state of the parts is the one the recorded steps lead to, and nothing is being delivered. */
    ghost predicate Valid()
      reads this, sys, sys.repo, sys.broker, sys.libvirt, sys.ingress
    {
      && Wired() && sys.Valid() && sys.broker.inflight.None?
      && Init(start) && Runs(start, history) && After(start, history) == sys.State()
    }

    constructor (pool: map<Id, FloatingIp>, head: string, before: (char, DiskFile) -> string, rest: string,
                 exclude: string, others: seq<seq<string>>)
      requires Inert(head) && Inert(rest) && forall c, f :: Inert(before(c, f))
      requires PublicsDistinct(pool)
      requires forall f :: f in pool ==>
        pool[f].status.Unallocated? && pool[f].project.None? && pool[f].instance.None? && pool[f].priv.None?
      requires Foreign(AllOthers(others), exclude)
      ensures Valid() && history == []
    {
      var deployment := new Deployment.Fresh(pool, head, before, rest, exclude, others);
      var vols := new VolumeService.Volumes(deployment);
      var insts := new InstanceService.Instances(deployment, vols);
      var fips := new FloatingIpService.FloatingIps(deployment);
      sys, volumes, instances, floatingIps := deployment, vols, insts, fips;
      worker := new Worker.Worker(deployment, insts, fips);
      start := deployment.State();
      history := [];
    }

    /** Hence the invariant holds, and every theorem about runs is one about this object. */
    lemma StateIsSound()
      requires Valid()
      ensures Core(sys.State())
    {
      InitIsCore(start);
      RunKeepsCore(start, history);
      hide Init, Runs, After, Core;
    }

    /** Records a step that was just taken. */
    ghost method Record(s: Step, before: World)
      requires Wired() && sys.Valid() && sys.broker.inflight.None?
      requires Init(start) && Runs(start, history) && After(start, history) == before
      requires Enabled(before, s) && Apply(before, s) == sys.State()
      modifies this`history
      ensures Valid() && history == old(history) + [s]
    {
      OneMore(start, history, s);
      history := history + [s];
    }

    // ---- API requests -----------------------------------------------------------------------------------

    method NewNetwork(id: Id, n: Network) returns (reply: Reply)
      requires Valid() && id !in sys.used
      modifies this`history, sys`used, sys.repo
      ensures Valid() && history == old(history) + [System.NewNetwork(id, n)]
    {
      ghost var before := sys.State();
      reply := sys.repo.CreateProjectNetwork(id, n);
      sys.used := sys.used + {id};
      Record(System.NewNetwork(id, n), before);
    }

    method NewInstance(r: CreateRequest, pubOk: bool) returns (reply: Reply)
      requires Valid() && {r.instance, r.task} !! sys.used && r.instance != r.task
      requires forall i :: i in sys.repo.instances ==> Sanitized(sys.repo.instances[i].name) != Sanitized(r.name)
      modifies this`history, sys`used, sys.repo, sys.broker
      ensures Valid() && history == old(history) + [System.NewInstance(r, pubOk)]
      ensures reply == RequestCreate(old(sys.State()), r, pubOk).1
    {
      hide RequestCreate, Runs, After, Init;
      ghost var before := sys.State();
      CreatedIdle(before, r, pubOk);
      CreatedPublics(before, r, pubOk);
      reply := instances.CreateAsync(r, pubOk);
      sys.used := sys.used + {r.instance, r.task};
      CreateIs(before, r, pubOk);
      hide Apply, Enabled;
      Record(System.NewInstance(r, pubOk), before);
    }

    method InstanceAction(project: Id, i: Id, action: string, task: Id, pubOk: bool) returns (reply: Reply)
      requires Valid() && task !in sys.used
      modifies this`history, sys`used, sys.repo, sys.broker
      ensures Valid() && history == old(history) + [System.InstanceAction(project, i, action, task, pubOk)]
      ensures reply == RequestAction(old(sys.State()), project, i, action, task, pubOk).1
    {
      hide ParseAction, Runs, After, Init;
      ghost var before := sys.State();
      reply := instances.RequestInstanceAction(project, i, action, task, pubOk);
      sys.used := sys.used + {task};
      Record(System.InstanceAction(project, i, action, task, pubOk), before);
    }

    method TakeSnapshot(project: Id, i: Id, name: string, snap: Id, task: Id, pubOk: bool) returns (reply: Reply)
      requires Valid() && {snap, task} !! sys.used
      modifies this`history, sys`used, sys.repo, sys.broker
      ensures Valid() && history == old(history) + [System.TakeSnapshot(project, i, name, snap, task, pubOk)]
      ensures reply == RequestSnapshotCreate(old(sys.State()), project, i, name, snap, task, pubOk).1
    {
      hide Runs, After, Init;
      ghost var before := sys.State();
      reply := instances.RequestSnapshotCreate(project, i, name, snap, task, pubOk);
      sys.used := sys.used + {snap, task};
      Record(System.TakeSnapshot(project, i, name, snap, task, pubOk), before);
    }

    method RevertSnapshot(project: Id, i: Id, snap: Id, task: Id, pubOk: bool) returns (reply: Reply)
      requires Valid() && task !in sys.used
      modifies this`history, sys`used, sys.repo, sys.broker
      ensures Valid() && history == old(history) + [System.RevertSnapshot(project, i, snap, task, pubOk)]
      ensures reply == RequestSnapshotRevert(old(sys.State()), project, i, snap, task, pubOk).1
    {
      hide Runs, After, Init;
      ghost var before := sys.State();
      reply := instances.RequestSnapshotRevert(project, i, snap, task, pubOk);
      sys.used := sys.used + {task};
      Record(System.RevertSnapshot(project, i, snap, task, pubOk), before);
    }

    method AllocateFip(project: Id) returns (reply: Reply)
      requires Valid()
      modifies this`history, sys.repo
      ensures Valid() && history == old(history) + [System.AllocateFip(project)]
    {
      hide Runs, After, Init;
      ghost var before := sys.State();
      reply := floatingIps.Allocate(project);
      Record(System.AllocateFip(project), before);
    }

    method AssociateFip(project: Id, f: Id, i: Id, task: Id, pubOk: bool) returns (reply: Reply)
      requires Valid() && task !in sys.used
      modifies this`history, sys`used, sys.repo, sys.broker
      ensures Valid() && history == old(history) + [System.AssociateFip(project, f, i, task, pubOk)]
      ensures reply == RequestAssociate(old(sys.State()), project, f, i, task, pubOk).1
    {
      hide Runs, After, Init;
      ghost var before := sys.State();
      reply := floatingIps.RequestAssociate(project, f, i, task, pubOk);
      sys.used := sys.used + {task};
      Record(System.AssociateFip(project, f, i, task, pubOk), before);
    }

    method DisassociateFip(project: Id, f: Id, task: Id, pubOk: bool) returns (reply: Reply)
      requires Valid() && task !in sys.used
      modifies this`history, sys`used, sys.repo, sys.broker
      ensures Valid() && history == old(history) + [System.DisassociateFip(project, f, task, pubOk)]
      ensures reply == RequestDisassociate(old(sys.State()), project, f, task, pubOk).1
    {
      hide Runs, After, Init;
      ghost var before := sys.State();
      reply := floatingIps.RequestDisassociate(project, f, task, pubOk);
      sys.used := sys.used + {task};
      Record(System.DisassociateFip(project, f, task, pubOk), before);
    }

    method NewVolume(project: Id, v: Id, name: string, fileOk: bool) returns (reply: Reply)
      requires Valid() && v !in sys.used
      modifies this`history, sys`used, sys.repo
      ensures Valid() && history == old(history) + [System.NewVolume(project, v, name, fileOk)]
    {
      hide Runs, After, Init;
      ghost var before := sys.State();
      reply := volumes.CreateVolume(project, v, name, fileOk);
      sys.used := sys.used + {v};
      Record(System.NewVolume(project, v, name, fileOk), before);
    }

    method DropVolume(project: Id, v: Id) returns (reply: Reply)
      requires Valid()
      modifies this`history, sys.repo
      ensures Valid() && history == old(history) + [System.DropVolume(project, v)]
    {
      hide Runs, After, Init;
      ghost var before := sys.State();
      reply := volumes.DeleteVolume(project, v);
      Record(System.DropVolume(project, v), before);
    }

    method AttachVolume(project: Id, i: Id, v: Id, c: AttachCalls) returns (reply: Reply)
      requires Valid()
      modifies this`history, sys.repo, sys.libvirt
      ensures Valid() && history == old(history) + [System.AttachVolume(project, i, v, c)]
    {
      hide Runs, After, Init, Attach;
      ghost var before := sys.State();
      reply := volumes.AttachVolume(project, i, v, c);
      Record(System.AttachVolume(project, i, v, c), before);
    }

    method DetachVolume(project: Id, i: Id, v: Id, callOk: bool) returns (reply: Reply)
      requires Valid()
      modifies this`history, sys.repo, sys.libvirt
      ensures Valid() && history == old(history) + [System.DetachVolume(project, i, v, callOk)]
    {
      hide Runs, After, Init, Detach;
      ghost var before := sys.State();
      reply := volumes.DetachVolume(project, i, v, callOk);
      Record(System.DetachVolume(project, i, v, callOk), before);
    }

    // ---- The worker and the passes -------------------------------------------------------------------------

    /** One turn of the worker is two steps. */
    method Deliver(c: Calls)
      requires Valid()
      modifies this`history, sys.repo, sys.broker, sys.libvirt, sys.ingress
      ensures Valid() && history == old(history) + [ReceiveStep] + [FinishStep(c)]
    {
      hide Runs, After, Init, FinishDelivery, ReceiveTask;
      ghost var before := sys.State();
      worker.ProcessDelivery(c);
      DeliveryEndsIdle(before, c);
      TwoSteps(before, c);
      hide Apply, Enabled;
      OneMore(start, history, ReceiveStep);
      history := history + [ReceiveStep];
      Record(FinishStep(c), Apply(before, ReceiveStep));
    }

    method Sync(unseen: set<string>)
      requires Valid()
      modifies this`history, sys.repo
      ensures Valid() && history == old(history) + [SyncStep(unseen)]
    {
      hide Runs, After, Init, SyncInstances;
      ghost var before := sys.State();
      instances.SyncHypervisorWithDb(unseen);
      Record(SyncStep(unseen), before);
    }

    method Reconcile(f: Faults)
      requires Valid()
      modifies this`history, sys.ingress
      ensures Valid() && exists rows :: history == old(history) + [ReconcileStep(rows, f)]
    {
      hide Runs, After, Init, NatRules.Reconcile;
      ghost var before := sys.State();
      ghost var rows := floatingIps.ReconcileActiveFloatingIngress(f);
      Record(ReconcileStep(rows, f), before);
    }

    method Sweep(stale: set<Id>)
      requires Valid()
      modifies this`history, sys.repo
      ensures Valid() && history == old(history) + [SweepStep(stale)]
    {
      hide Runs, After, Init, SweepTasks, SweepInstances;
      ghost var before := sys.State();
      sys.repo.ReconcileStaleRunningTasks(stale);
      Record(SweepStep(stale), before);
    }

    method GuestPower(name: string, running: bool)
      requires Valid() && name in sys.libvirt.domains
      modifies this`history, sys.libvirt
      ensures Valid() && history == old(history) + [System.GuestPower(name, running)]
    {
      hide Runs, After, Init;
      ghost var before := sys.State();
      sys.libvirt.GuestPower(name, running);
      Record(System.GuestPower(name, running), before);
    }
  }

  lemma OneMore(w: World, steps: seq<Step>, s: Step)
    requires Runs(w, steps) && Enabled(After(w, steps), s)
    ensures Runs(w, steps + [s]) && After(w, steps + [s]) == Apply(After(w, steps), s)
  {
    RunsInTwo(w, steps, [s]);
    hide Apply, Enabled;
    assert [s][1..] == [];
  }

  lemma CreateIs(w: World, r: CreateRequest, pubOk: bool)
    requires {r.instance, r.task} !! w.used && r.instance != r.task
    requires forall i :: i in w.instances ==> Sanitized(w.instances[i].name) != Sanitized(r.name)
    ensures Enabled(w, System.NewInstance(r, pubOk))
    ensures Apply(w, System.NewInstance(r, pubOk)) == RequestCreate(w, r, pubOk).0.(used := w.used + {r.instance, r.task})
  {
    hide RequestCreate;
  }

  lemma CreatedIdle(w: World, r: CreateRequest, pubOk: bool)
    ensures RequestCreate(w, r, pubOk).0.mq.inflight == w.mq.inflight && RequestCreate(w, r, pubOk).0.used == w.used
  {
    CreateRequestCases(w, r, pubOk);
    hide RequestCreate, CreateInstanceWithIpam;
  }

  lemma CreatedPublics(w: World, r: CreateRequest, pubOk: bool)
    ensures RequestCreate(w, r, pubOk).0.fips == w.fips
  {
    CreateRequestCases(w, r, pubOk);
    hide RequestCreate, CreateInstanceWithIpam;
  }

  lemma TwoSteps(w: World, c: Calls)
    ensures Enabled(w, ReceiveStep) && Apply(w, ReceiveStep) == ReceiveTask(w)
    ensures Enabled(ReceiveTask(w), FinishStep(c)) && Apply(ReceiveTask(w), FinishStep(c)) == FinishDelivery(ReceiveTask(w), c)
  {
    hide ReceiveTask, FinishDelivery;
  }

  lemma DeliveryEndsIdle(w: World, c: Calls)
    ensures FinishDelivery(ReceiveTask(w), c).mq.inflight.None?
  {
    hide FinishTask, ReceiveTask;
    var x := ReceiveTask(w);
    if x.mq.inflight.Some? {
      var d := x.mq.inflight.value;
      var (y, ok) := FinishTask(x, d.msg, c);
    }
  }
}
