/** When each request is accepted, why it is refused otherwise, and what it leaves and publishes. */
module Acceptance {
  import opened Wrappers
  import opened Text
  import opened Addresses
  import opened Model
  import opened Messages
  import opened Ipam
  import opened FipRows
  import opened HostNames
  import opened DiskTargets
  import opened Disks
  import opened Control
  import opened Invariants

  /** The message is the last in the queue, with an empty header table, and its task is pending; else failed and not queued. */
  ghost predicate Sent(w: World, w': World, m: TaskMessage, pubOk: bool) {
    && w'.tasks == w.tasks[m.task := Task(m.kind, m.project, m.instance, if pubOk then Pending else Failed)]
    && w'.mq == if pubOk then w.mq.(queue := w.mq.queue + [Delivery(m, map[])], published := w.mq.published + multiset{m}) else w.mq
  }

  predicate IsThere(w: World, project: Id, i: Id) {
    i in w.instances && w.instances[i].project == project
  }

  // ---- Actions -----------------------------------------------------------------------------------------

  /** The action spells the word of the kind. */
  ghost predicate AsksFor(action: string, kind: TaskKind) {
    || (kind.InstanceStart? && Spells(action, "start"))
    || (kind.InstanceStop? && Spells(action, "stop"))
    || (kind.InstanceReboot? && Spells(action, "reboot"))
    || (kind.InstanceDestroy? && Spells(action, "destroy"))
  }

  /** The states in which the kind may be asked for. */
  predicate FitsState(kind: TaskKind, state: InstanceState) {
    || (kind.InstanceStart? && state in {Stopped, Errored})
    || (kind.InstanceStop? && state == Running)
    || (kind.InstanceReboot? && state == Running)
    || (kind.InstanceDestroy? && state in {Running, Stopped, Errored})
  }

  predicate HoldsVolumes(w: World, project: Id, i: Id) {
    exists v :: v in w.volumes && w.volumes[v].project == project && w.volumes[v].instance == Some(i)
  }

  lemma ActionWords()
    ensures IsWord("start") && IsWord("stop") && IsWord("reboot") && IsWord("destroy")
  {
  }

  lemma ParsedWord(action: string, kind: TaskKind)
    ensures AsksFor(action, kind) <==> ParseAction(action).Some? && TaskKindFor(ParseAction(action).value) == kind
  {
    ActionWords();
    SpelledWord(action, "start");
    SpelledWord(action, "stop");
    SpelledWord(action, "reboot");
    SpelledWord(action, "destroy");
    hide TrimSpace, ToLower, Spells, IsWord;
  }

  lemma AllowedIsFitting(state: InstanceState, a: Action)
    ensures ActionAllowed(state, a) <==> FitsState(TaskKindFor(a), state)
  {
  }

  /**
   * An action is accepted exactly when it spells one of four words, its instance is there in a state that word needs, a
   * destroy finds no attached volume, and the publish works. Then a task of that kind is pending and its message last in
   * the queue, and nothing else changed.
   */
  lemma ActionIsAccepted(w: World, project: Id, i: Id, action: string, t: Id, pubOk: bool, kind: TaskKind)
    requires AsksFor(action, kind)
    ensures var (w', reply) := RequestAction(w, project, i, action, t, pubOk);
      && reply == (
           if !IsThere(w, project, i) then Refused(NotFound)
           else if !FitsState(kind, w.instances[i].state) then Refused(InvalidTransition)
           else if kind.InstanceDestroy? && HoldsVolumes(w, project, i) then Refused(HasAttachedVolumes)
           else if !pubOk then Refused(PublishFailed)
           else Accepted)
      && (if reply in {Accepted, Refused(PublishFailed)}
          then Sent(w, w', TaskMessage(t, kind, project, Some(i), None, None, None, None, None), pubOk) && w' == w.(tasks := w'.tasks, mq := w'.mq)
          else w' == w)
  {
    ParsedWord(action, kind);
    var a := ParseAction(action).value;
    if IsThere(w, project, i) {
      AllowedIsFitting(w.instances[i].state, a);
    }
    assert HasVolumes(w.volumes, project, i) <==> HoldsVolumes(w, project, i);
    hide ParseAction, ActionAllowed, FitsState, HasVolumes, HoldsVolumes, AsksFor, Spells;
  }

  lemma OtherActionsAreRefused(w: World, project: Id, i: Id, action: string, t: Id, pubOk: bool)
    requires !Spells(action, "start") && !Spells(action, "stop") && !Spells(action, "reboot") && !Spells(action, "destroy")
    ensures RequestAction(w, project, i, action, t, pubOk) == (w, Refused(InvalidAction))
  {
    if ParseAction(action).Some? {
      ParsedWord(action, TaskKindFor(ParseAction(action).value));
    }
    hide ParseAction, Spells;
  }

  // ---- Snapshots -----------------------------------------------------------------------------------------

  /** The instance named in a snapshot request, at rest. */
  predicate AtRest(w: World, project: Id, i: Id) {
    IsThere(w, project, i) && w.instances[i].state in {Running, Stopped}
  }

  /** A snapshot of that name, trimmed, exists. */
  predicate NameInUse(w: World, i: Id, name: string) {
    exists s :: s in w.snapshots && w.snapshots[s].instance == i && w.snapshots[s].name == TrimSpace(name)
  }

  /**
   * A snapshot is accepted exactly when its name is not blank and new to the instance, the instance is at rest, and the
   * publish works. The message carries the state the instance was in, the row whether it ran, and the instance waits.
   */
  lemma SnapshotIsAccepted(w: World, project: Id, i: Id, name: string, snap: Id, t: Id, pubOk: bool)
    ensures var (w', reply) := RequestSnapshotCreate(w, project, i, name, snap, t, pubOk);
      && reply == (
           if Blank(name) then Refused(BadRequest)
           else if !IsThere(w, project, i) then Refused(NotFound)
           else if !AtRest(w, project, i) then Refused(SnapshotConflict)
           else if snap in w.snapshots || NameInUse(w, i, name) then Refused(SnapshotNameConflict)
           else if !pubOk then Refused(PublishFailed)
           else Accepted)
      && (if reply in {Accepted, Refused(PublishFailed)} then
            var row := w.instances[i];
            && Sent(w, w', TaskMessage(t, SnapshotCreate, project, Some(i), Some(snap), Some(row.state), None, None, None), pubOk)
            && w'.instances == (if pubOk then w.instances[i := row.(state := Snapshotting)] else w.instances)
            && w'.snapshots == w.snapshots[snap :=
                 Snapshot(project, i, TrimSpace(name), if pubOk then SnapCreating else SnapError, row.state == Running)]
            && w' == w.(tasks := w'.tasks, mq := w'.mq, instances := w'.instances, snapshots := w'.snapshots)
          else w' == w)
  {
    BlankTrimsToNothing(name);
    hide TrimSpace;
  }

  /** A revert needs a finished snapshot of that instance, at rest; its message too carries the state the instance was in. */
  lemma RevertIsAccepted(w: World, project: Id, i: Id, snap: Id, t: Id, pubOk: bool)
    ensures var (w', reply) := RequestSnapshotRevert(w, project, i, snap, t, pubOk);
      && reply == (
           if !(snap in w.snapshots && w.snapshots[snap].project == project && w.snapshots[snap].instance == i) then Refused(NotFound)
           else if w.snapshots[snap].status != SnapAvailable then Refused(SnapshotNotReady)
           else if !IsThere(w, project, i) then Refused(NotFound)
           else if !AtRest(w, project, i) then Refused(SnapshotConflict)
           else if !pubOk then Refused(PublishFailed)
           else Accepted)
      && (if reply in {Accepted, Refused(PublishFailed)} then
            var row := w.instances[i];
            && Sent(w, w', TaskMessage(t, SnapshotRevert, project, Some(i), Some(snap), Some(row.state), None, None, None), pubOk)
            && w'.instances == (if pubOk then w.instances[i := row.(state := Snapshotting)] else w.instances)
            && w' == w.(tasks := w'.tasks, mq := w'.mq, instances := w'.instances)
          else w' == w)
  {
  }

  // ---- Floating IPs --------------------------------------------------------------------------------------

  /** A row of the project not bound to anything, and a running instance of the project with an address. */
  predicate CanBind(w: World, project: Id, f: Id, i: Id) {
    && f in w.fips && w.fips[f].project == Some(project) && w.fips[f].status == Allocated && w.fips[f].instance == None
    && IsThere(w, project, i) && w.instances[i].state == Running && w.instances[i].ipv4 != None
  }

  /** An association binds the row to the instance's own address; when its message cannot be published the row is as before. */
  lemma AssociationIsAccepted(w: World, project: Id, f: Id, i: Id, t: Id, pubOk: bool)
    requires FipsOk(w.fips, w.instances)
    ensures var (w', reply) := RequestAssociate(w, project, f, i, t, pubOk);
      && reply == (
           if !CanBind(w, project, f, i) then Refused(AssociationRefused)
           else if !pubOk then Refused(PublishFailed)
           else Accepted)
      && (if CanBind(w, project, f, i) then
            var pub, priv := w.fips[f].pub, w.instances[i].ipv4;
            && Sent(w, w', TaskMessage(t, FipAssociate, project, Some(i), None, None, Some(f), Some(pub), priv), pubOk)
            && w'.fips == (if pubOk then w.fips[f := FloatingIp(Some(project), pub, Some(i), priv, Active)] else w.fips)
            && w' == w.(tasks := w'.tasks, mq := w'.mq, fips := w'.fips)
          else w' == w)
  {
    if CanAssociate(w.fips, w.instances, project, f, i) {
      RollbackUndoesAssociate(w.fips, w.instances, project, f, i);
    }
  }

  /** A disassociation clears an active row of the project whatever comes of its message, which names the pair cleared. */
  lemma DisassociationIsAccepted(w: World, project: Id, f: Id, t: Id, pubOk: bool)
    requires FipsOk(w.fips, w.instances)
    ensures var (w', reply) := RequestDisassociate(w, project, f, t, pubOk);
      var active := f in w.fips && w.fips[f].project == Some(project) && w.fips[f].status == Active;
      && reply == (if !active then Refused(NotFound) else if !pubOk then Refused(PublishFailed) else Accepted)
      && (if active then
            && w.fips[f].priv.Some?
            && Sent(w, w', TaskMessage(t, FipDisassociate, project, None, None, None, Some(f), Some(w.fips[f].pub), w.fips[f].priv), pubOk)
            && w'.fips == w.fips[f := FloatingIp(Some(project), w.fips[f].pub, None, None, Allocated)]
            && w' == w.(tasks := w'.tasks, mq := w'.mq, fips := w'.fips)
          else w' == w)
  {
    if f in w.fips {
      assert RowOk(w.fips[f], w.instances);
    }
  }

  // ---- Instances --------------------------------------------------------------------------------------------

  predicate FreeSlotIn(w: World, network: Id) {
    exists k :: k in w.ipam.slots && k.network == network && w.ipam.slots[k] == None
  }

  predicate Seeded(w: World, network: Id) {
    exists k :: k in w.ipam.slots && k.network == network
  }

  predicate OwnsNetwork(w: World, project: Id, network: Id) {
    network in w.ipam.networks && w.ipam.networks[network].project == project
  }

  predicate CanEnumerate(w: World, network: Id)
    requires network in w.ipam.networks
  {
    8 <= w.ipam.networks[network].prefix.bits <= 30
  }

  /** The identifier or the name is in use. */
  predicate Clashes(w: World, r: CreateRequest) {
    r.instance in w.instances || exists i :: i in w.instances && w.instances[i].project == r.project && w.instances[i].name == r.name
  }

  /**
   * A create is accepted exactly when image and data are acceptable, the network is the project's own, its slots can be or
   * have been made and one is free, name and identifier are new, and the publish works; other replies name the first of
   * these that fails.
   */
  lemma CreateIsAccepted(w: World, r: CreateRequest, pubOk: bool)
    requires Core(w)
    ensures RequestCreate(w, r, pubOk).1 == (
      if !r.imageOk then Refused(NotFound)
      else if !r.dataOk then Refused(BadRequest)
      else if !OwnsNetwork(w, r.project, r.network) then Refused(NotFound)
      else if !Seeded(w, r.network) && !CanEnumerate(w, r.network) then Refused(UnsupportedNetwork)
      else if Clashes(w, r) then Refused(Duplicate)
      else if Seeded(w, r.network) && !FreeSlotIn(w, r.network) then Refused(NoIpsAvailable)
      else if !pubOk then Refused(PublishFailed)
      else Accepted)
  {
    if OwnsNetwork(w, r.project, r.network) {
      CreateFailsExactly(w.ipam, w.instances, r);
      SlotsOfNetwork(w, r.network);
      if SlotsOf(w.ipam.slots, r.network) == {} && SlotsForCreate(w.ipam, r.network).Some? {
        FreshSeedHasFreeSlots(w.ipam, r.network);
      }
    }
    hide Core;
  }

  lemma SlotsOfNetwork(w: World, network: Id)
    ensures SlotsOf(w.ipam.slots, network) == {} <==> !Seeded(w, network)
    ensures FreeAddrs(w.ipam.slots, network) == {} <==> !FreeSlotIn(w, network)
  {
    if Seeded(w, network) {
      var k :| k in w.ipam.slots && k.network == network;
      assert k in SlotsOf(w.ipam.slots, network);
    }
    if FreeSlotIn(w, network) {
      var k :| k in w.ipam.slots && k.network == network && w.ipam.slots[k] == None;
      assert k.addr in FreeAddrs(w.ipam.slots, network);
    }
  }

  /** The transaction gives the new instance an address that no one had. */
  lemma CommittedRow(t: Tables, instances: map<Id, Instance>, r: CreateRequest)
    requires Agreement(t, instances) && r.network in t.networks && CreateInstanceWithIpam(t, instances, r).Committed?
    ensures var tx := CreateInstanceWithIpam(t, instances, r);
      && r.instance in tx.instances && tx.instances[r.instance].ipv4.Some?
      && var addr := tx.instances[r.instance].ipv4.value;
      && r.instance !in instances
      && tx.instances == instances[r.instance := Instance(r.project, r.name, Creating, Some(r.network), Some(addr))]
      && (Slot(r.network, addr) in t.slots ==> t.slots[Slot(r.network, addr)] == None)
      && Slot(r.network, addr) in tx.t.slots && tx.t.slots[Slot(r.network, addr)] == Some(r.instance)
  {
    var tx := CreateInstanceWithIpam(t, instances, r);
    var free := FreeAddrs(SlotsForCreate(t, r.network).value, r.network);
    CreateAddsOneRow(t, instances, r);
    CreateKeepsAgreement(t, instances, r);
    SeededSlotsStay(t, r.network);
    hide CreateInstanceWithIpam, Agreement, SlotsForCreate, FreeAddrs;
    var addr :| IsLeast(free, addr) && tx.instances == instances[r.instance := Ipam.NewInstance(r, addr)];
    ThreeTablesAgree(tx.t, tx.instances, r.network, addr, r.instance);
  }

  lemma SeededSlotsStay(t: Tables, network: Id)
    requires network in t.networks && SlotsForCreate(t, network).Some?
    ensures forall addr :: addr in FreeAddrs(SlotsForCreate(t, network).value, network) && Slot(network, addr) in t.slots ==>
      t.slots[Slot(network, addr)] == None
  {
  }

  /** The row of an accepted create: waiting, in the network asked for, at an address that was free there. */
  lemma CreatedRow(w: World, r: CreateRequest, pubOk: bool)
    requires Core(w) && RequestCreate(w, r, pubOk).1 in {Accepted, Refused(PublishFailed)}
    ensures var w' := RequestCreate(w, r, pubOk).0;
      && Sent(w, w', TaskMessage(r.task, InstanceCreate, r.project, Some(r.instance), None, None, None, None, None), pubOk)
      && r.instance in w'.instances && w'.instances[r.instance].ipv4.Some?
      && var addr := w'.instances[r.instance].ipv4.value;
      && w'.instances == w.instances[r.instance :=
           Instance(r.project, r.name, if pubOk then Creating else Errored, Some(r.network), Some(addr))]
      && (Slot(r.network, addr) in w.ipam.slots ==> w.ipam.slots[Slot(r.network, addr)] == None)
      && Slot(r.network, addr) in w'.ipam.slots && w'.ipam.slots[Slot(r.network, addr)] == Some(r.instance)
      && w' == w.(tasks := w'.tasks, mq := w'.mq, instances := w'.instances, ipam := w'.ipam)
  {
    CreateShape(w, r, pubOk);
    CommittedRow(w.ipam, w.instances, r);
    var tx := CreateInstanceWithIpam(w.ipam, w.instances, r);
    NewRowFails(w.instances, r.instance, tx.instances[r.instance]);
    hide Core, CreateInstanceWithIpam, RequestCreate, SetState;
  }

  lemma NewRowFails(instances: map<Id, Instance>, i: Id, row: Instance)
    ensures SetState(instances[i := row], row.project, i, Errored) == instances[i := row.(state := Errored)]
  {
  }

  lemma CreateShape(w: World, r: CreateRequest, pubOk: bool)
    requires RequestCreate(w, r, pubOk).1 in {Accepted, Refused(PublishFailed)}
    ensures r.network in w.ipam.networks && CreateInstanceWithIpam(w.ipam, w.instances, r).Committed?
    ensures var tx := CreateInstanceWithIpam(w.ipam, w.instances, r);
      var instances := if pubOk then tx.instances else SetState(tx.instances, r.project, r.instance, Errored);
      RequestCreate(w, r, pubOk).0
      == Enqueue(w.(ipam := tx.t, instances := instances), InstanceMessage(r.task, InstanceCreate, r.project, r.instance), pubOk)
  {
    RolledBackReasons(w.ipam, w.instances, r);
    hide CreateInstanceWithIpam, Enqueue, InstanceMessage, SetState;
  }

  lemma RolledBackReasons(t: Tables, instances: map<Id, Instance>, r: CreateRequest)
    ensures r.network in t.networks && CreateInstanceWithIpam(t, instances, r).RolledBack? ==>
      CreateInstanceWithIpam(t, instances, r).fault != PublishFailed
  {
  }

  // ---- Networks and the pool ----------------------------------------------------------------------------------

  /** A network is accepted exactly when its hosts can be enumerated; it then has one free slot for each of them. */
  lemma NetworkIsAccepted(t: Tables, instances: map<Id, Instance>, id: Id, n: Network)
    requires Agreement(t, instances) && id !in t.networks
    ensures var (t', reply) := CreateNetwork(t, id, n);
      && reply == (if 8 <= n.prefix.bits <= 30 then Accepted else Refused(UnsupportedNetwork))
      && (reply.Refused? ==> t' == t)
      && (reply.Accepted? ==>
            && t' == t.(networks := t.networks[id := n], slots := t'.slots)
            && (forall k :: k in t'.slots <==> k in t.slots || (k.network == id && IsHost(n.prefix, n.gateway, k.addr)))
            && (forall k :: k in t'.slots ==> t'.slots[k] == if k.network == id then None else t.slots[k]))
  {
    if Supported(n.prefix) {
      forall k | k in t.slots ensures k.network != id {
        assert FullySeeded(t, k.network);
      }
      var hosts := HostSet(n.prefix, n.gateway);
      assert forall k :: k in HostSlots(id, hosts) <==> k.network == id && IsHost(n.prefix, n.gateway, k.addr);
    }
  }

  /** An allocation succeeds as long as a row is unallocated, and takes the one with the least public address. */
  lemma AllocationIsAccepted(fips: map<Id, FloatingIp>, project: Id)
    ensures var (fips', reply) := Allocate(fips, project);
      && reply == (if exists f :: f in fips && fips[f].status == Unallocated then Accepted else Refused(NoFloatingIpsAvailable))
      && (reply.Refused? ==> fips' == fips)
      && (reply.Accepted? ==> exists f ::
            && f in fips && fips[f].status == Unallocated
            && (forall g :: g in fips && fips[g].status == Unallocated ==> fips[f].pub <= fips[g].pub)
            && fips' == fips[f := FloatingIp(Some(project), fips[f].pub, fips[f].instance, fips[f].priv, Allocated)])
  {
    AllocateFindsFree(fips, project);
    if Allocate(fips, project).1.Accepted? {
      var f :| IsNextFree(fips, f) && Allocate(fips, project).0 == fips[f := fips[f].(project := Some(project), status := Allocated)];
      assert f in fips && fips[f].status == Unallocated;
    }
  }

  // ---- Volumes ----------------------------------------------------------------------------------------------------

  predicate OwnVolume(volumes: Volumes, project: Id, v: Id) {
    v in volumes && volumes[v].project == project
  }

  /** A volume needs a name new to its project; its row stays in error when its file cannot be made. */
  lemma VolumeIsAccepted(volumes: Volumes, project: Id, v: Id, name: string, fileOk: bool)
    ensures var (volumes', reply) := CreateVolume(volumes, project, v, name, fileOk);
      var clash := v in volumes || exists u :: u in volumes && volumes[u].project == project && volumes[u].name == name;
      && reply == (if clash then Refused(Duplicate) else if fileOk then Accepted else Refused(StorageFailed))
      && volumes' == (if clash then volumes
                      else volumes[v := Volume(project, name, if fileOk then Available else VolumeError, None, None)])
  {
  }

  /** Only a volume of the project that is attached nowhere is deleted. */
  lemma VolumeDeletionIsAccepted(volumes: Volumes, project: Id, v: Id)
    ensures var (volumes', reply) := DeleteVolume(volumes, project, v);
      && reply == (if !OwnVolume(volumes, project, v) then Refused(NotFound)
                   else if volumes[v].instance != None then Refused(VolumeInUse)
                   else Accepted)
      && volumes' == (if reply.Accepted? then volumes - {v} else volumes)
  {
  }

  /** A letter from b to z is free on the domain. */
  predicate HasFreeLetter(d: Domain) {
    exists c :: 'b' <= c <= 'z' && c !in d.disks
  }

  /**
   * An attach needs a running instance and an available volume of the project, a domain with a free letter, and calls that
   * work. It puts the volume's file at the least free letter and says so in the row.
   */
  lemma AttachIsAccepted(volumes: Volumes, domains: Domains, instances: map<Id, Instance>, project: Id, i: Id, v: Id, c: AttachCalls)
    ensures var (volumes', domains', reply) := Attach(volumes, domains, instances, project, i, v, c);
      && reply == (
           if !(i in instances && instances[i].project == project) then Refused(NotFound)
           else if instances[i].state == Snapshotting then Refused(BusySnapshotting)
           else if instances[i].state != Running then Refused(NotRunning)
           else if !OwnVolume(volumes, project, v) then Refused(NotFound)
           else if volumes[v].status != Available || volumes[v].instance != None then Refused(VolumeNotAvailable)
           else
             var n := Sanitized(instances[i].name);
             if !(n in domains && c.listOk && HasFreeLetter(domains[n]) && c.attachOk) then Refused(HypervisorFailed)
             else if !c.recordOk then Refused(NotFound)
             else Accepted)
      && (reply.Accepted? ==>
            var n := Sanitized(instances[i].name);
            && v in volumes' && volumes'[v].target.Some?
            && var letter := volumes'[v].target.value;
            && IsLeastUnused(domains[n].disks.Keys, letter)
            && volumes' == volumes[v := Volume(project, volumes[v].name, InUse, Some(i), Some(letter))]
            && domains' == domains[n := Domain(domains[n].running, domains[n].disks[letter := VolumeFile(v)])])
  {
    hide Sanitized;
  }

  /**
   * A detach needs the volume to be attached to that instance, which must not be snapshotting, and its file to be at the
   * target of its row. It takes the file from the domain and frees the row.
   */
  lemma DetachIsAccepted(volumes: Volumes, domains: Domains, instances: map<Id, Instance>, project: Id, i: Id, v: Id, callOk: bool)
    ensures var (volumes', domains', reply) := Detach(volumes, domains, instances, project, i, v, callOk);
      && reply == (
           if !(i in instances && instances[i].project == project) then Refused(NotFound)
           else if !OwnVolume(volumes, project, v) then Refused(NotFound)
           else if volumes[v].instance != Some(i) || volumes[v].target == None then Refused(NotAttached)
           else if instances[i].state == Snapshotting then Refused(BusySnapshotting)
           else if !(callOk && HoldsAt(domains, Sanitized(instances[i].name), volumes[v].target.value, v)) then Refused(HypervisorFailed)
           else Accepted)
      && (reply.Refused? ==> volumes' == volumes && domains' == domains)
      && (reply.Accepted? ==>
            var n, letter := Sanitized(instances[i].name), volumes[v].target.value;
            && volumes' == volumes[v := Volume(project, volumes[v].name, Available, None, None)]
            && domains' == domains[n := Domain(domains[n].running, domains[n].disks - {letter})])
  {
    hide Sanitized;
  }

  predicate HoldsAt(domains: Domains, n: string, letter: char, v: Id) {
    n in domains && letter in domains[n].disks && domains[n].disks[letter] == VolumeFile(v)
  }
}
