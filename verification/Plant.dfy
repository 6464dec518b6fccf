/** The parts of a deployment together, and the one state they make up. */
module Plant {
  import opened Model
  import opened Control
  import opened Rows
  import opened Broker
  import opened Hypervisor
  import opened Ingress
  import opened DiskTargets
  import FipRows
  import System

  class Deployment {
    const repo: Repository
    const broker: Client
    const libvirt: LibvirtAdapter
    const ingress: Host
    /** Every identifier drawn so far. */
    ghost var used: set<Id>

    /** Public addresses are a unique column. */
    ghost predicate Valid()
      reads repo, libvirt, ingress
    {
      libvirt.Valid() && ingress.Valid() && FipRows.PublicsDistinct(repo.fips)
    }

    ghost function State(): World
      reads this, repo, broker, libvirt, ingress
    {
      World(repo.AddressTables(), repo.instances, repo.tasks, repo.snapshots, repo.volumes, repo.fips,
            libvirt.domains, ingress.rules, broker.State(), used)
    }

    /** A new deployment, beside whatever rules of others the host has, is in an initial state. */
    constructor Fresh(pool: map<Id, FloatingIp>, head: string, before: (char, DiskFile) -> string, rest: string,
                      exclude: string, others: seq<seq<string>>)
      requires Inert(head) && Inert(rest) && forall c, f :: Inert(before(c, f))
      requires FipRows.PublicsDistinct(pool)
      requires forall f :: f in pool ==>
        pool[f].status.Unallocated? && pool[f].project.None? && pool[f].instance.None? && pool[f].priv.None?
      requires Foreign(AllOthers(others), exclude)
      ensures Valid() && System.Init(State()) && broker.inflight.None?
      ensures fresh(repo) && fresh(broker) && fresh(libvirt) && fresh(ingress)
    {
      used := {};
      repo := new Repository(pool);
      broker := new Client();
      libvirt := new LibvirtAdapter(head, before, rest);
      ingress := new Host(exclude, others);
    }

    /** How every request ends: the task row, the message, and the row marked failed when there is no message. */
    method EnqueueTask(m: TaskMessage, pubOk: bool) returns (ok: bool)
      modifies repo`tasks, broker`queue, broker`published
      ensures ok == pubOk && State() == Enqueue(old(State()), m, pubOk)
    {
      repo.CreateTask(m.task, m.kind, m.project, m.instance);
      ok := broker.PublishTask(m, pubOk);
      if !ok {
        var _ := repo.UpdateTaskStatus(m.project, m.task, Failed);
        assert repo.tasks == old(repo.tasks)[m.task := Task(m.kind, m.project, m.instance, Failed)];
      }
    }
  }
}
