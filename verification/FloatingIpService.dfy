/** Floating IPs: rows, messages and NAT rules changed in order. */
module FloatingIpService {
  import opened NatRules
  import opened Model
  import opened FipRows
  import opened Control
  import opened System
  import opened Ingress
  import NatText
  import opened Plant

  class FloatingIps {
    const sys: Deployment

    constructor (sys: Deployment)
      ensures this.sys == sys
    {
      this.sys := sys;
    }

    method Allocate(project: Id) returns (reply: Reply)
      requires sys.Valid()
      modifies sys.repo`fips
      ensures sys.Valid() && (sys.repo.fips, reply) == FipRows.Allocate(old(sys.repo.fips), project)
    {
      reply := sys.repo.AllocateFloatingIpToProject(project);
    }

    method RequestAssociate(project: Id, f: Id, i: Id, task: Id, pubOk: bool) returns (reply: Reply)
      modifies sys.repo, sys.broker
      ensures (sys.State(), reply) == Control.RequestAssociate(old(sys.State()), project, f, i, task, pubOk)
    {
      var row := sys.repo.TryAssociateFloatingIp(project, f, i);
      if row.None? {
        return Refused(AssociationRefused);
      }
      var ok := sys.EnqueueTask(AssociateMessage(task, project, i, f, Binding(row.value.pub, row.value.priv.value)), pubOk);
      if !ok {
        sys.repo.RollbackFloatingIpAssociation(project, f);
        return Refused(PublishFailed);
      }
      return Accepted;
    }

    method RequestDisassociate(project: Id, f: Id, task: Id, pubOk: bool) returns (reply: Reply)
      modifies sys.repo, sys.broker
      ensures (sys.State(), reply) == Control.RequestDisassociate(old(sys.State()), project, f, task, pubOk)
    {
      var pair := sys.repo.TakeDisassociateFloatingIp(project, f);
      if pair.None? {
        return Refused(NotFound);
      }
      var ok := sys.EnqueueTask(DisassociateMessage(task, project, f, pair.value), pubOk);
      return if ok then Accepted else Refused(PublishFailed);
    }

    method HandleAssociateTask(m: TaskMessage, c: Calls) returns (ok: bool)
      requires m.kind.FipAssociate? && Dispatchable(m) && sys.Valid()
      modifies sys.repo`tasks, sys.ingress
      ensures sys.Valid() && (sys.State(), ok) == Handle(old(sys.State()), m, c)
    {
      hide Associate, NatText.Says, NatText.ReadRule;
      var found := sys.repo.UpdateTaskStatus(m.project, m.task, InProgress);
      if !found {
        return false;
      }
      var row := sys.repo.GetFloatingIpForProject(m.project, m.fip.value);
      if row.None? {
        var _ := sys.repo.UpdateTaskStatus(m.project, m.task, Failed);
        return false;
      }
      if !row.value.status.Active? || row.value.instance != m.instance {
        var _ := sys.repo.UpdateTaskStatus(m.project, m.task, Failed);
        return false;
      }
      if row.value.priv.None? {
        var _ := sys.repo.UpdateTaskStatus(m.project, m.task, Failed);
        return false;
      }
      var done := sys.ingress.AssociateIP(Binding(row.value.pub, row.value.priv.value), c.faults);
      if !done {
        var _ := sys.repo.UpdateTaskStatus(m.project, m.task, Failed);
        return false;
      }
      var _ := sys.repo.UpdateTaskStatus(m.project, m.task, Succeeded);
      return true;
    }

    /** Uses the addresses of the message: the row is already released. */
    method HandleDisassociateTask(m: TaskMessage, c: Calls) returns (ok: bool)
      requires m.kind.FipDisassociate? && Dispatchable(m) && sys.Valid()
      modifies sys.repo`tasks, sys.ingress
      ensures sys.Valid() && (sys.State(), ok) == Handle(old(sys.State()), m, c)
    {
      var found := sys.repo.UpdateTaskStatus(m.project, m.task, InProgress);
      if !found {
        return false;
      }
      sys.ingress.DisassociateIP(Binding(m.pub.value, m.priv.value), c.faults);
      var _ := sys.repo.UpdateTaskStatus(m.project, m.task, Succeeded);
      return true;
    }

    /** Every active row of a running instance gets its rules; the row order is whatever the query gave. */
    method ReconcileActiveFloatingIngress(f: Faults) returns (ghost listed: seq<Binding>)
      requires sys.Valid()
      modifies sys.ingress
      ensures sys.Valid() && Lists(listed, BindingsToReconcile(sys.repo.fips, sys.repo.instances))
      ensures var w := old(sys.State()); sys.State() == w.(rules := Reconcile(w.rules, listed, f))
    {
      var rows := sys.repo.ListFloatingIpsActiveForReconcile();
      listed := rows;
      for k := 0 to |rows|
        invariant sys.Valid()
        invariant Reconcile(sys.ingress.rules, rows[k..], f) == Reconcile(old(sys.ingress.rules), rows, f)
      {
        var b := rows[k];
        assert rows[k..][0] == b && rows[k..][1..] == rows[k + 1..];
        var present := sys.ingress.FloatingNatRulesPresent(b, f);
        if present != NotThere {
          continue;
        }
        var _ := sys.ingress.AssociateIP(b, f);
      }
    }
  }
}
