/** The tables of the database, and the statements that change them. */
module Rows {
  import opened Wrappers
  import opened Addresses
  import opened Model
  import opened Ipam
  import opened FipRows
  import opened Control
  import opened SyncPass
  import System
  import NatRules
  import Disks

  const STATE_SYNC_BATCH_SIZE := 128

  class Repository {
    var networks: map<Id, Network>
    var slots: map<Slot, Option<Id>>
    var allocations: map<Id, Allocation>
    var instances: map<Id, Instance>
    var tasks: map<Id, Task>
    var snapshots: map<Id, Snapshot>
    var volumes: map<Id, Volume>
    var fips: map<Id, FloatingIp>

    /** An empty database but for the pool of public addresses. */
    constructor (pool: map<Id, FloatingIp>)
      ensures networks == map[] && slots == map[] && allocations == map[] && instances == map[] && tasks == map[]
      ensures snapshots == map[] && volumes == map[] && fips == pool
    {
      networks, slots, allocations, instances, tasks := map[], map[], map[], map[], map[];
      snapshots, volumes, fips := map[], map[], pool;
    }

    function AddressTables(): Tables
      reads this
    {
      Tables(networks, slots, allocations)
    }

    // ---- Tasks and instances --------------------------------------------------------------------

    /** Without an instance the column is null. */
    method CreateTask(t: Id, kind: TaskKind, project: Id, instance: Option<Id>)
      modifies this`tasks
      ensures tasks == old(tasks)[t := Task(kind, project, instance, Pending)]
    {
      tasks := tasks[t := Task(kind, project, instance, Pending)];
    }

    method UpdateTaskStatus(project: Id, t: Id, status: TaskStatus) returns (found: bool)
      modifies this`tasks
      ensures tasks == SetTask(old(tasks), project, t, status) && found == HasTask(old(tasks), project, t)
    {
      if t !in tasks || tasks[t].project != project {
        return false;
      }
      tasks := tasks[t := tasks[t].(status := status)];
      return true;
    }

    method GetInstance(project: Id, i: Id) returns (row: Option<Instance>)
      ensures row == if HasInstance(instances, project, i) then Some(instances[i]) else None
    {
      if i !in instances || instances[i].project != project {
        return None;
      }
      return Some(instances[i]);
    }

    method UpdateInstanceState(project: Id, i: Id, state: InstanceState) returns (found: bool)
      modifies this`instances
      ensures instances == SetState(old(instances), project, i, state) && found == HasInstance(old(instances), project, i)
    {
      if i !in instances || instances[i].project != project {
        return false;
      }
      instances := instances[i := instances[i].(state := state)];
      return true;
    }

    /** One statement: the tasks that time out fail, and the instances they name go to error. */
    method ReconcileStaleRunningTasks(stale: set<Id>)
      modifies this`tasks, this`instances
      ensures tasks == SweepTasks(old(tasks), stale)
      ensures instances == SweepInstances(old(instances), old(tasks), stale)
    {
      var timedOut := set t | t in tasks && t in stale && tasks[t].status.InProgress?;
      var named := set t | t in timedOut && tasks[t].instance.Some? :: (tasks[t].project, tasks[t].instance.value);
      forall i | i in instances
        ensures (instances[i].project, i) in named <==> HasStuckTask(tasks, stale, instances[i].project, i)
      {
        if (instances[i].project, i) in named {
          var t :| t in timedOut && tasks[t].instance.Some? && (tasks[t].project, tasks[t].instance.value) == (instances[i].project, i);
          assert Stuck(tasks, stale, t);
        }
        if HasStuckTask(tasks, stale, instances[i].project, i) {
          var t :| t in stale && Stuck(tasks, stale, t) && tasks[t].project == instances[i].project && tasks[t].instance == Some(i);
          assert t in timedOut;
        }
      }
      instances := map i | i in instances ::
        if (instances[i].project, i) in named then instances[i].(state := Errored) else instances[i];
      tasks := map t | t in tasks :: if t in timedOut then tasks[t].(status := Failed) else tasks[t];
    }

    // ---- State sync ---------------------------------------------------------------------------------

    /** Every instance that is not being deleted, in the order the rows happen to come. */
    method ListInstancesForHypervisorSync() returns (rows: seq<SyncRow>)
      ensures ListsForSync(rows, instances)
    {
      var rest := set i | i in instances && !instances[i].state.Deleting?;
      ghost var all := rest;
      rows := [];
      while rest != {}
        invariant rest <= all && RowsOf(rows, instances)
        invariant forall i :: i in all <==> i in rest || Listed(rows, i)
        invariant forall i :: i in rest ==> !Listed(rows, i)
        decreases |rest|
      {
        var i :| i in rest;
        var r := instances[i];
        ghost var before := rows;
        rows := rows + [SyncRow(i, r.project, r.name, r.state)];
        rest := rest - {i};
        forall j ensures Listed(rows, j) <==> Listed(before, j) || j == i {
          if Listed(before, j) {
            var k :| 0 <= k < |before| && before[k].id == j;
            assert rows[k].id == j;
          }
          assert rows[|before|].id == i;
        }
      }
    }

    /** Sends the updates in chunks; each is applied once, in order, as a one-by-one loop would. */
    method BatchUpdateInstanceStates(updates: seq<StateUpdate>)
      modifies this`instances
      ensures instances == ApplyAll(old(instances), updates)
    {
      if |updates| == 0 {
        return;
      }
      var i := 0;
      while i < |updates|
        invariant 0 <= i && instances == ApplyAll(old(instances), updates[..if i < |updates| then i else |updates|])
        decreases |updates| - i
      {
        var end := i + STATE_SYNC_BATCH_SIZE;
        if end > |updates| {
          end := |updates|;
        }
        SendBatch(updates[i..end]);
        ApplyAllConcat(old(instances), updates[..i], updates[i..end]);
        assert updates[..i] + updates[i..end] == updates[..end];
        i := i + STATE_SYNC_BATCH_SIZE;
      }
      assert updates[..|updates|] == updates;
    }

    method SendBatch(batch: seq<StateUpdate>)
      modifies this`instances
      ensures instances == ApplyAll(old(instances), batch)
    {
      for k := 0 to |batch|
        invariant instances == ApplyAll(old(instances), batch[..k])
      {
        var u := batch[k];
        if u.id in instances && instances[u.id].project == u.project && instances[u.id].state != u.state {
          instances := instances[u.id := instances[u.id].(state := u.state)];
        }
        assert batch[..k + 1][..k] == batch[..k];
      }
      assert batch[..|batch|] == batch;
    }

    // ---- Addresses ------------------------------------------------------------------------------------

    /** One free slot per usable host; rows already there stay as they are. */
    method SeedNetworkIpSlots(network: Id, p: Prefix, gateway: Addr) returns (ok: bool)
      modifies this`slots
      ensures ok == (p.bits <= 32 && Supported(p))
      ensures slots == if ok then Seed(old(slots), network, HostSet(p, gateway)) else old(slots)
    {
      if p.bits > 32 {
        return false;
      }
      var hosts := UsableIPv4Hosts(p, FromUint32(gateway));
      Uint32RoundTrip(gateway);
      if hosts.None? {
        return false;
      }
      var ips := hosts.value;
      for k := 0 to |ips|
        invariant slots == Seed(old(slots), network, Enumerated(ips[..k]))
      {
        var key := Slot(network, ToUint32(ips[k]));
        SeedOneMore(old(slots), network, ips, k);
        if key !in slots {
          slots := slots[key := None];
        }
      }
      assert ips[..|ips|] == ips;
      forall u ensures u in Enumerated(ips) <==> u in HostSet(p, gateway) {
        if u in HostSet(p, gateway) {
          Uint32RoundTrip(u);
          assert FromUint32(u) in ips;
        }
      }
      assert Enumerated(ips) == HostSet(p, gateway);
      return true;
    }

    /** The network of a new project comes with all its slots, or not at all. */
    method CreateProjectNetwork(id: Id, n: Network) returns (reply: Reply)
      modifies this`networks, this`slots
      ensures (AddressTables(), reply) == CreateNetwork(old(AddressTables()), id, n)
    {
      var networks0 := networks;
      networks := networks[id := n];
      var ok := SeedNetworkIpSlots(id, n.prefix, n.gateway);
      if !ok {
        networks := networks0;
        return Refused(UnsupportedNetwork);
      }
      return Accepted;
    }

    /** Takes the least free slot of the network for the instance. */
    method ClaimNextIpSlot(network: Id, instance: Id) returns (addr: Option<Addr>)
      modifies this`slots
      ensures var free := FreeAddrs(old(slots), network);
        && (addr.None? <==> free == {})
        && (free != {} ==> addr == Some(Least(free)) && slots == old(slots)[Slot(network, Least(free)) := Some(instance)])
        && (free == {} ==> slots == old(slots))
    {
      var free := FreeAddrs(slots, network);
      if free == {} {
        return None;
      }
      var least := FirstInOrder(free);
      slots := slots[Slot(network, least) := Some(instance)];
      return Some(least);
    }

    /** The whole create transaction: whatever fails, the tables are as before. */
    method CreateInstanceWithIpam(r: CreateRequest) returns (fault: Option<Fault>)
      requires r.network in networks
      modifies this`slots, this`instances, this`allocations
      ensures match Ipam.CreateInstanceWithIpam(old(AddressTables()), old(instances), r)
        case RolledBack(f) => fault == Some(f) && AddressTables() == old(AddressTables()) && instances == old(instances)
        case Committed(t, rows) => fault == None && AddressTables() == t && instances == rows
    {
      var net := networks[r.network];
      var slots0, instances0 := slots, instances;
      if SlotsOf(slots, r.network) == {} {
        var ok := SeedNetworkIpSlots(r.network, net.prefix, net.gateway);
        if !ok {
          return Some(UnsupportedNetwork);
        }
      }
      if r.instance in instances || NameTaken(instances, r.project, r.name) {
        slots := slots0;
        return Some(Duplicate);
      }
      instances := instances[r.instance := Instance(r.project, r.name, Creating, Some(r.network), None)];
      var ip := ClaimNextIpSlot(r.network, r.instance);
      if ip.None? {
        slots, instances := slots0, instances0;
        return Some(NoIpsAvailable);
      }
      instances := instances[r.instance := instances[r.instance].(ipv4 := ip)];
      if r.instance in allocations || AddrAllocated(allocations, r.network, ip.value) {
        slots, instances := slots0, instances0;
        return Some(Duplicate);
      }
      allocations := allocations[r.instance := Allocation(r.network, r.project, ip.value)];
      return None;
    }

    // ---- Snapshots ---------------------------------------------------------------------------------------

    method BeginSnapshotCreate(project: Id, i: Id, snap: Id, name: string) returns (prior: Option<InstanceState>, fault: Option<Fault>)
      modifies this`snapshots, this`instances
      ensures fault ==
        if !HasInstance(old(instances), project, i) then Some(NotFound)
        else if !CanSnapshot(old(instances)[i].state) then Some(SnapshotConflict)
        else if snap in old(snapshots) || SnapshotNameTaken(old(snapshots), i, name) then Some(SnapshotNameConflict)
        else None
      ensures fault.Some? ==> snapshots == old(snapshots) && instances == old(instances)
      ensures fault.None? ==>
        && prior == Some(old(instances)[i].state)
        && snapshots == old(snapshots)[snap := Snapshot(project, i, name, SnapCreating, prior.value.Running?)]
        && instances == SetState(old(instances), project, i, Snapshotting)
    {
      if i !in instances || instances[i].project != project {
        return None, Some(NotFound);
      }
      var state := instances[i].state;
      if !state.Running? && !state.Stopped? {
        return None, Some(SnapshotConflict);
      }
      if snap in snapshots || SnapshotNameTaken(snapshots, i, name) {
        return None, Some(SnapshotNameConflict);
      }
      snapshots := snapshots[snap := Snapshot(project, i, name, SnapCreating, state.Running?)];
      instances := instances[i := instances[i].(state := Snapshotting)];
      return Some(state), None;
    }

    method BeginSnapshotRevert(project: Id, i: Id) returns (prior: Option<InstanceState>, fault: Option<Fault>)
      modifies this`instances
      ensures fault ==
        if !HasInstance(old(instances), project, i) then Some(NotFound)
        else if !CanSnapshot(old(instances)[i].state) then Some(SnapshotConflict)
        else None
      ensures fault.Some? ==> instances == old(instances)
      ensures fault.None? ==>
        prior == Some(old(instances)[i].state) && instances == SetState(old(instances), project, i, Snapshotting)
    {
      if i !in instances || instances[i].project != project {
        return None, Some(NotFound);
      }
      var state := instances[i].state;
      if !state.Running? && !state.Stopped? {
        return None, Some(SnapshotConflict);
      }
      instances := instances[i := instances[i].(state := Snapshotting)];
      return Some(state), None;
    }

    method GetSnapshot(project: Id, i: Id, snap: Id) returns (row: Option<Snapshot>)
      ensures row == if HasSnapshotOf(snapshots, project, i, snap) then Some(snapshots[snap]) else None
    {
      if snap !in snapshots || snapshots[snap].project != project || snapshots[snap].instance != i {
        return None;
      }
      return Some(snapshots[snap]);
    }

    method UpdateSnapshotStatus(project: Id, snap: Id, status: SnapshotStatus)
      modifies this`snapshots
      ensures snapshots == SetSnapshot(old(snapshots), project, snap, status)
    {
      if snap in snapshots && snapshots[snap].project == project {
        snapshots := snapshots[snap := snapshots[snap].(status := status)];
      }
    }

    // ---- Volumes -------------------------------------------------------------------------------------------

    method CreateVolume(project: Id, v: Id, name: string) returns (ok: bool)
      modifies this`volumes
      ensures ok == !(v in old(volumes) || Disks.VolumeNameTaken(old(volumes), project, name))
      ensures volumes == if ok then old(volumes)[v := Volume(project, name, Available, None, None)] else old(volumes)
    {
      if v in volumes || Disks.VolumeNameTaken(volumes, project, name) {
        return false;
      }
      volumes := volumes[v := Volume(project, name, Available, None, None)];
      return true;
    }

    method SetVolumeError(project: Id, v: Id)
      modifies this`volumes
      ensures volumes ==
        if Disks.OwnsVolume(old(volumes), project, v) then old(volumes)[v := old(volumes)[v].(status := VolumeError)] else old(volumes)
    {
      if v in volumes && volumes[v].project == project {
        volumes := volumes[v := volumes[v].(status := VolumeError)];
      }
    }

    method GetVolume(project: Id, v: Id) returns (row: Option<Volume>)
      ensures row == if Disks.OwnsVolume(volumes, project, v) then Some(volumes[v]) else None
    {
      if v !in volumes || volumes[v].project != project {
        return None;
      }
      return Some(volumes[v]);
    }

    /** Deletes only an unattached row; a second look tells why nothing was deleted. */
    method DeleteVolume(project: Id, v: Id) returns (reply: Reply)
      modifies this`volumes
      ensures (volumes, reply) == Disks.DeleteVolume(old(volumes), project, v)
    {
      if v in volumes && volumes[v].project == project && volumes[v].instance.None? {
        volumes := volumes - {v};
        return Accepted;
      }
      var attached := v in volumes && volumes[v].project == project && volumes[v].instance.Some?;
      return if attached then Refused(VolumeInUse) else Refused(NotFound);
    }

    method CountVolumesAttachedToInstance(project: Id, i: Id) returns (n: nat)
      ensures n > 0 <==> HasVolumes(volumes, project, i)
    {
      var attached := set v | v in volumes && volumes[v].project == project && volumes[v].instance == Some(i);
      n := |attached|;
      if n > 0 {
        var v :| v in attached;
        assert Disks.AttachedTo(volumes, project, i, v);
      } else {
        assert forall v :: v in volumes && Disks.AttachedTo(volumes, project, i, v) ==> v in attached;
      }
    }

    /** The attached volumes, in the order the rows happen to come. */
    method ListVolumesAttachedToInstance(project: Id, i: Id) returns (rows: seq<Id>)
      ensures forall v :: v in rows <==> v in volumes && Disks.AttachedTo(volumes, project, i, v)
      ensures forall j, k :: 0 <= j < k < |rows| ==> rows[j] != rows[k]
    {
      var rest := set v | v in volumes && volumes[v].project == project && volumes[v].instance == Some(i);
      ghost var all := rest;
      rows := [];
      while rest != {}
        invariant rest <= all && forall v :: v in all <==> v in rest || v in rows
        invariant forall v :: v in rest ==> v !in rows
        invariant forall j, k :: 0 <= j < k < |rows| ==> rows[j] != rows[k]
        decreases |rest|
      {
        var v :| v in rest;
        rows := rows + [v];
        rest := rest - {v};
      }
      assert forall v :: v in all <==> v in volumes && Disks.AttachedTo(volumes, project, i, v);
    }

    method AttachVolumeRecord(project: Id, v: Id, i: Id, letter: char) returns (found: bool)
      modifies this`volumes
      ensures found == Disks.Attachable(old(volumes), project, v)
      ensures volumes == Disks.AttachRecord(old(volumes), project, v, i, letter)
    {
      if v in volumes && volumes[v].project == project && volumes[v].status.Available? && volumes[v].instance.None? {
        volumes := volumes[v := volumes[v].(status := InUse, instance := Some(i), target := Some(letter))];
        return true;
      }
      return false;
    }

    method DetachVolumeRecord(project: Id, i: Id, v: Id) returns (found: bool)
      modifies this`volumes
      ensures found == Disks.AttachedTo(old(volumes), project, i, v)
      ensures volumes == Disks.DetachRecord(old(volumes), project, i, v)
    {
      if v in volumes && volumes[v].project == project && volumes[v].instance == Some(i) {
        volumes := volumes[v := volumes[v].(status := Available, instance := None, target := None)];
        return true;
      }
      return false;
    }

    // ---- Floating IPs ----------------------------------------------------------------------------------------

    /** The unallocated row with the least public address. */
    method AllocateFloatingIpToProject(project: Id) returns (reply: Reply)
      requires PublicsDistinct(fips)
      modifies this`fips
      ensures (fips, reply) == Allocate(old(fips), project)
    {
      var free := set f | f in fips && fips[f].status.Unallocated?;
      AllocateFindsFree(fips, project);
      if free == {} {
        assert forall f :: f in fips ==> f !in free;
        return Refused(NoFloatingIpsAvailable);
      }
      var pick :| pick in free;
      var rest := free - {pick};
      while rest != {}
        invariant pick in free && rest <= free && forall g :: g in free - rest ==> fips[pick].pub <= fips[g].pub
        decreases |rest|
      {
        var g :| g in rest;
        if fips[g].pub < fips[pick].pub {
          pick := g;
        }
        rest := rest - {g};
      }
      assert forall g :: g in fips && fips[g].status.Unallocated? ==> g in free - {};
      assert IsNextFree(fips, pick);
      fips := fips[pick := fips[pick].(project := Some(project), status := Allocated)];
      return Accepted;
    }

    method TryAssociateFloatingIp(project: Id, f: Id, i: Id) returns (row: Option<FloatingIp>)
      modifies this`fips
      ensures fips == TryAssociate(old(fips), instances, project, f, i).0
      ensures row == if TryAssociate(old(fips), instances, project, f, i).1.Accepted? then Some(fips[f]) else None
    {
      if f in fips && fips[f].project == Some(project) && fips[f].status.Allocated? && fips[f].instance.None?
         && i in instances && instances[i].project == project && instances[i].state.Running? && instances[i].ipv4.Some?
      {
        fips := fips[f := fips[f].(instance := Some(i), priv := instances[i].ipv4, status := Active)];
        return Some(fips[f]);
      }
      return None;
    }

    method TakeDisassociateFloatingIp(project: Id, f: Id) returns (pair: Option<NatRules.Binding>)
      modifies this`fips
      ensures (fips, pair) == TakeDisassociate(old(fips), project, f)
    {
      if f !in fips || fips[f].project != Some(project) || !fips[f].status.Active? {
        return None;
      }
      var pub, priv := fips[f].pub, fips[f].priv;
      if priv.None? {
        return None;
      }
      fips := fips[f := fips[f].(instance := None, priv := None, status := Allocated)];
      return Some(NatRules.Binding(pub, priv.value));
    }

    method GetFloatingIpForProject(project: Id, f: Id) returns (row: Option<FloatingIp>)
      ensures row == if f in fips && fips[f].project == Some(project) then Some(fips[f]) else None
    {
      if f !in fips || fips[f].project != Some(project) {
        return None;
      }
      return Some(fips[f]);
    }

    method ListActiveNatBindingsByInstance(project: Id, i: Id) returns (rows: seq<NatRules.Binding>)
      requires PublicsDistinct(fips)
      ensures System.Lists(rows, BindingsOf(fips, project, i))
    {
      rows := ListBindings(fips, set f | f in fips && BoundTo(fips[f], project, i));
    }

    /** Bindings that should have their rules: active rows of running instances. */
    method ListFloatingIpsActiveForReconcile() returns (rows: seq<NatRules.Binding>)
      requires PublicsDistinct(fips)
      ensures System.Lists(rows, BindingsToReconcile(fips, instances))
    {
      rows := ListBindings(fips, set f | f in fips && NeedsRules(fips[f], instances));
    }

    method RollbackFloatingIpAssociation(project: Id, f: Id)
      modifies this`fips
      ensures fips == Rollback(old(fips), project, f)
    {
      if f in fips && fips[f].project == Some(project) && fips[f].status.Active? {
        fips := fips[f := fips[f].(instance := None, priv := None, status := Allocated)];
      }
    }

    method ClearFloatingIpBindingsForInstance(project: Id, i: Id)
      modifies this`fips
      ensures fips == ClearOfProject(old(fips), project, i)
    {
      fips := map f | f in fips ::
        if fips[f].project == Some(project) && fips[f].instance == Some(i) then
          fips[f].(instance := None, priv := None, status := if fips[f].status.Active? then Allocated else fips[f].status)
        else fips[f];
    }

    // ---- The end of an instance ----------------------------------------------------------------------------------

    /** Restricting keys can refuse the delete; the others cascade or are set to null. */
    method DeleteInstanceTx(project: Id, i: Id) returns (ok: bool)
      modifies this`tasks, this`instances, this`slots, this`allocations, this`snapshots
      ensures ok == (HasInstance(old(instances), project, i) && !DeleteBlocked(volumes, fips, i))
      ensures if ok then
          && tasks == ForgetInstance(old(tasks), i) && instances == old(instances) - {i}
          && AddressTables() == Release(old(AddressTables()), i) && snapshots == SnapshotsWithout(old(snapshots), i)
        else
          && tasks == old(tasks) && instances == old(instances)
          && AddressTables() == old(AddressTables()) && snapshots == old(snapshots)
    {
      if i !in instances || instances[i].project != project || DeleteBlocked(volumes, fips, i) {
        return false;
      }
      instances := instances - {i};
      slots := map k | k in slots :: if slots[k] == Some(i) then None else slots[k];
      allocations := allocations - {i};
      snapshots := map s | s in snapshots && snapshots[s].instance != i :: snapshots[s];
      tasks := map u | u in tasks :: if tasks[u].instance == Some(i) then tasks[u].(instance := None) else tasks[u];
      return true;
    }

    /** One transaction: the task succeeds, bindings are cleared, the row goes with its cascades; or nothing happens. */
    method FinalizeInstanceDestroy(project: Id, t: Id, i: Id) returns (ok: bool)
      modifies this`tasks, this`fips, this`instances, this`slots, this`allocations, this`snapshots
      ensures ok == (HasTask(old(tasks), project, t) && HasInstance(old(instances), project, i)
                     && !DeleteBlocked(volumes, ClearOfInstance(old(fips), i), i))
      ensures if ok then
          && tasks == ForgetInstance(SetTask(old(tasks), project, t, Succeeded), i)
          && fips == ClearOfInstance(old(fips), i) && instances == old(instances) - {i}
          && AddressTables() == Release(old(AddressTables()), i) && snapshots == SnapshotsWithout(old(snapshots), i)
        else
          && tasks == old(tasks) && fips == old(fips) && instances == old(instances)
          && AddressTables() == old(AddressTables()) && snapshots == old(snapshots)
    {
      var tasks0, fips0 := tasks, fips;
      var found := UpdateTaskStatus(project, t, Succeeded);
      if !found {
        return false;
      }
      fips := map f | f in fips ::
        if fips[f].instance == Some(i) then
          fips[f].(instance := None, priv := None, status := if fips[f].status.Active? then Allocated else fips[f].status)
        else fips[f];
      assert fips == ClearOfInstance(fips0, i);
      ok := DeleteInstanceTx(project, i);
      if !ok {
        tasks, fips := tasks0, fips0;
      }
    }
  }

  /** The pairs of the selected rows, in the order they happen to come. */
  method ListBindings(fips: map<Id, FloatingIp>, selected: set<Id>) returns (rows: seq<NatRules.Binding>)
    requires PublicsDistinct(fips) && forall f :: f in selected ==> f in fips && fips[f].priv.Some?
    ensures System.Lists(rows, set f | f in selected :: BindingOf(fips[f]))
  {
    var rest := selected;
    rows := [];
    while rest != {}
      invariant rest <= selected
      invariant forall b :: b in rows <==> exists f :: f in selected - rest && BindingOf(fips[f]) == b
      invariant forall j, k :: 0 <= j < k < |rows| ==> rows[j] != rows[k]
      decreases |rest|
    {
      var f :| f in rest;
      var b := BindingOf(fips[f]);
      assert b !in rows;
      ghost var listed := selected - rest;
      rows := rows + [b];
      rest := rest - {f};
      assert selected - rest == listed + {f};
    }
    assert selected - rest == selected;
  }

  /** ORDER BY with LIMIT 1. */
  method FirstInOrder(addrs: set<Addr>) returns (least: Addr)
    requires addrs != {}
    ensures least == Least(addrs)
  {
    least :| least in addrs;
    var rest := addrs - {least};
    while rest != {}
      invariant rest <= addrs && IsLeast(addrs - rest, least)
      decreases |rest|
    {
      var b :| b in rest;
      if b < least {
        least := b;
      }
      assert addrs - (rest - {b}) == (addrs - rest) + {b};
      rest := rest - {b};
    }
    assert addrs - rest == addrs;
    LeastIsUnique(addrs, least);
  }

  lemma LeastIsUnique(s: set<Addr>, a: Addr)
    requires IsLeast(s, a)
    ensures a == Least(s)
  {
  }

  function Enumerated(ips: seq<IPv4>): set<Addr> {
    set ip | ip in ips :: ToUint32(ip)
  }

  lemma SeedOneMore(slots: map<Slot, Option<Id>>, network: Id, ips: seq<IPv4>, k: nat)
    requires k < |ips|
    ensures var key := Slot(network, ToUint32(ips[k]));
      var before := Seed(slots, network, Enumerated(ips[..k]));
      Seed(slots, network, Enumerated(ips[..k + 1])) == if key in before then before else before[key := None]
  {
    hide ToUint32;
    var u := ToUint32(ips[k]);
    assert ips[..k + 1] == ips[..k] + [ips[k]];
    assert Enumerated(ips[..k + 1]) == Enumerated(ips[..k]) + {u};
    SeedAnother(slots, network, Enumerated(ips[..k]), u);
  }

  lemma SeedAnother(slots: map<Slot, Option<Id>>, network: Id, hosts: set<Addr>, u: Addr)
    ensures var key := Slot(network, u); var before := Seed(slots, network, hosts);
      Seed(slots, network, hosts + {u}) == if key in before then before else before[key := None]
  {
    assert HostSlots(network, hosts + {u}) == HostSlots(network, hosts) + {Slot(network, u)};
  }
}
