/** The worker: takes a message, runs its handler, and disposes of the delivery. */
module Worker {
  import opened Wrappers
  import opened Model
  import opened Messages
  import opened Control
  import opened Plant
  import InstanceService
  import FloatingIpService

  class Worker {
    const sys: Deployment
    const instances: InstanceService.Instances
    const floatingIps: FloatingIpService.FloatingIps

    /** All services work on the same deployment. */
    predicate Wired() {
      instances.sys == sys && instances.volumes.sys == sys && floatingIps.sys == sys
    }

    constructor (sys: Deployment, instances: InstanceService.Instances, floatingIps: FloatingIpService.FloatingIps)
      requires instances.sys == sys && instances.volumes.sys == sys && floatingIps.sys == sys
      ensures Wired() && this.sys == sys && this.instances == instances && this.floatingIps == floatingIps
    {
      this.sys, this.instances, this.floatingIps := sys, instances, floatingIps;
    }

    method HandleMessageBody(m: TaskMessage, c: Calls) returns (ok: bool)
      requires Wired() && sys.Valid()
      modifies sys.repo, sys.libvirt, sys.ingress
      ensures sys.Valid() && (sys.State(), ok) == Handle(old(sys.State()), m, c)
    {
      if m.kind.FipAssociate? {
        if m.fip.None? || m.instance.None? {
          return false;
        }
        ok := floatingIps.HandleAssociateTask(m, c);
      } else if m.kind.FipDisassociate? {
        if m.pub.None? || m.priv.None? {
          return false;
        }
        ok := floatingIps.HandleDisassociateTask(m, c);
      } else if m.instance.None? {
        return false;
      } else if m.kind.InstanceCreate? {
        ok := instances.HandleCreateTask(m, c);
      } else if m.kind.InstanceStart? || m.kind.InstanceStop? || m.kind.InstanceReboot? {
        ok := instances.HandleLifecycleTask(m, c);
      } else if m.kind.InstanceDestroy? {
        ok := instances.HandleDestroyTask(m, c);
      } else if m.kind.SnapshotCreate? || m.kind.SnapshotRevert? {
        if m.snapshot.None? || m.prior.None? {
          return false;
        }
        if m.kind.SnapshotCreate? {
          ok := instances.HandleSnapshotCreateTask(m, c);
        } else {
          ok := instances.HandleSnapshotRevertTask(m, c);
        }
      } else {
        // an unknown type is acknowledged
        return true;
      }
    }

    /** Acknowledge, republish with a higher count, or move to the dead-letter queue; a failed publish puts it back. */
    method FinalizeDelivery(d: Delivery, ok: bool, pubOk: bool)
      requires sys.broker.inflight == Some(d)
      modifies sys.broker
      ensures sys.broker.State() == Messages.FinalizeDelivery(old(sys.broker.State()), d, ok, pubOk)
    {
      if ok {
        sys.broker.Ack(true);
        return;
      }
      var prev := RetryCount(d.headers);
      if prev >= MAX_CONSECUTIVE_FAILURES - 1 {
        var hdr := d.headers[REASON_HEADER := OtherHeader];
        var dead := sys.broker.PublishToDlq(d.msg, hdr, pubOk);
        if !dead {
          sys.broker.NackRequeue();
          return;
        }
        sys.broker.Ack(false);
        return;
      }
      var next := ToInt32(prev + 1);
      var again := sys.broker.PublishTaskWithHeaders(d.msg, map[RETRY_HEADER := Int32Header(next)], pubOk);
      if !again {
        sys.broker.NackRequeue();
        return;
      }
      sys.broker.Ack(false);
    }

    /** One turn of the consume loop. */
    method ProcessDelivery(c: Calls)
      requires Wired() && sys.Valid() && sys.broker.inflight.None?
      modifies sys.repo, sys.libvirt, sys.ingress, sys.broker
      ensures sys.Valid() && sys.State() == FinishDelivery(ReceiveTask(old(sys.State())), c)
    {
      ghost var before := sys.State();
      var d := sys.broker.Consume();
      if d.None? {
        return;
      }
      var ok := HandleMessageBody(d.value.msg, c);
      FinalizeDelivery(d.value, ok, c.pubOk);
    }
  }
}
