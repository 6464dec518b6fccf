/** Address slots, allocation rows and instance addresses: three tables changed together. */
module Ipam {
  import opened Wrappers
  import opened Addresses
  import opened Model

  datatype Slot = Slot(network: Id, addr: Addr)
  datatype Allocation = Allocation(network: Id, project: Id, addr: Addr)

  /** `slots` names the instance that claimed each slot; `allocations` is keyed by instance (a unique column). */
  datatype Tables = Tables(
    networks: map<Id, Network>, slots: map<Slot, Option<Id>>, allocations: map<Id, Allocation>)

  type Instances = map<Id, Instance>

  // ---- Seeding ----------------------------------------------------------------------------------

  function SlotsOf(slots: map<Slot, Option<Id>>, network: Id): set<Slot> {
    set k | k in slots && k.network == network
  }

  function HostSlots(network: Id, hosts: set<Addr>): set<Slot> {
    set u | u in hosts :: Slot(network, u)
  }

  /** Adds a free slot for every host that has none yet. */
  function Seed(slots: map<Slot, Option<Id>>, network: Id, hosts: set<Addr>): map<Slot, Option<Id>> {
    slots + map k | k in HostSlots(network, hosts) - slots.Keys :: None
  }

  /** A new network with all its slots; refused when the prefix cannot be enumerated. */
  function CreateNetwork(t: Tables, id: Id, n: Network): (Tables, Reply) {
    if n.prefix.bits > 32 || !Supported(n.prefix) then (t, Refused(UnsupportedNetwork))
    else
      (t.(networks := t.networks[id := n],
          slots := Seed(t.slots, id, HostSet(n.prefix, n.gateway))), Accepted)
  }

  // ---- Claiming ----------------------------------------------------------------------------------

  function FreeAddrs(slots: map<Slot, Option<Id>>, network: Id): set<Addr> {
    set k | k in slots && k.network == network && slots[k].None? :: k.addr
  }

  predicate IsLeast(s: set<Addr>, a: Addr) {
    a in s && forall b :: b in s ==> a <= b
  }

  lemma {:induction false} LeastExists(s: set<Addr>)
    requires s != {}
    ensures exists a :: IsLeast(s, a)
  {
    var x :| x in s;
    if s == {x} {
      assert IsLeast(s, x);
    } else {
      LeastExists(s - {x});
      var y :| IsLeast(s - {x}, y);
      assert s == (s - {x}) + {x};
      var least := if x <= y then x else y;
      assert IsLeast(s, least);
    }
  }

  ghost function Least(s: set<Addr>): (a: Addr)
    requires s != {}
    ensures IsLeast(s, a)
  {
    LeastExists(s);
    var a :| IsLeast(s, a);
    a
  }

  // ---- The create transaction ----------------------------------------------------------------------

  /** A request for a new instance; the two flags say whether its image and its user data are acceptable. */
  datatype CreateRequest = CreateRequest(
    project: Id, name: string, network: Id, instance: Id, task: Id, imageOk: bool, dataOk: bool)

  datatype CreateTx = Committed(t: Tables, instances: Instances) | RolledBack(fault: Fault)

  predicate NameTaken(instances: Instances, project: Id, name: string) {
    exists i :: i in instances && instances[i].project == project && instances[i].name == name
  }

  predicate AddrAllocated(allocations: map<Id, Allocation>, network: Id, addr: Addr) {
    exists i :: i in allocations && allocations[i].network == network && allocations[i].addr == addr
  }

  /** Slots inside the transaction: a network that has none yet is seeded first. */
  function SlotsForCreate(t: Tables, network: Id): Option<map<Slot, Option<Id>>>
    requires network in t.networks
  {
    var n := t.networks[network];
    if SlotsOf(t.slots, network) != {} then Some(t.slots)
    else if n.prefix.bits > 32 || !Supported(n.prefix) then None
    else Some(Seed(t.slots, network, HostSet(n.prefix, n.gateway)))
  }

  function NewInstance(r: CreateRequest, addr: Addr): Instance {
    Instance(r.project, r.name, Creating, Some(r.network), Some(addr))
  }

  /** Seed if needed, insert the instance, claim the least free slot, record the allocation; all or nothing. */
  ghost function CreateInstanceWithIpam(t: Tables, instances: Instances, r: CreateRequest): CreateTx
    requires r.network in t.networks
  {
    var seeded := SlotsForCreate(t, r.network);
    if seeded.None? then RolledBack(UnsupportedNetwork)
    else if r.instance in instances || NameTaken(instances, r.project, r.name) then RolledBack(Duplicate)
    else
      var free := FreeAddrs(seeded.value, r.network);
      if free == {} then RolledBack(NoIpsAvailable)
      else
        var addr := Least(free);
        if r.instance in t.allocations || AddrAllocated(t.allocations, r.network, addr) then RolledBack(Duplicate)
        else
          Committed(
            t.(slots := seeded.value[Slot(r.network, addr) := Some(r.instance)],
               allocations := t.allocations[r.instance := Allocation(r.network, r.project, addr)]),
            instances[r.instance := NewInstance(r, addr)])
  }

  // ---- Release when an instance is deleted -----------------------------------------------------------

  /** Deleting the instance row sets its slot free and cascades to its allocation. */
  function Release(t: Tables, instance: Id): Tables {
    t.(slots := map k | k in t.slots :: if t.slots[k] == Some(instance) then None else t.slots[k],
       allocations := t.allocations - {instance})
  }

  // ---- The invariant ------------------------------------------------------------------------------------

  predicate HasAddress(instances: Instances, i: Id, network: Id, project: Id, addr: Addr) {
    && i in instances && instances[i].project == project
    && instances[i].network == Some(network) && instances[i].ipv4 == Some(addr)
  }

  /** Every allocation names a live instance with that address and owns the matching slot. */
  ghost predicate AllocationsMatch(t: Tables, instances: Instances) {
    forall i :: i in t.allocations ==>
      var a := t.allocations[i];
      && HasAddress(instances, i, a.network, a.project, a.addr)
      && Slot(a.network, a.addr) in t.slots && t.slots[Slot(a.network, a.addr)] == Some(i)
  }

  ghost predicate SlotsMatch(t: Tables) {
    forall k :: k in t.slots && t.slots[k].Some? ==>
      && t.slots[k].value in t.allocations
      && t.allocations[t.slots[k].value].network == k.network
      && t.allocations[t.slots[k].value].addr == k.addr
  }

  ghost predicate InstancesMatch(t: Tables, instances: Instances) {
    forall i :: i in instances && instances[i].ipv4.Some? ==> i in t.allocations
  }

  /** A network has either no slots yet or exactly one for each assignable host. */
  predicate FullySeeded(t: Tables, network: Id) {
    && network in t.networks && Supported(t.networks[network].prefix)
    && SlotsOf(t.slots, network) == HostSlots(network, HostSet(t.networks[network].prefix, t.networks[network].gateway))
  }

  ghost predicate SlotsComplete(t: Tables) {
    forall k :: k in t.slots ==> FullySeeded(t, k.network)
  }

  ghost predicate Agreement(t: Tables, instances: Instances) {
    AllocationsMatch(t, instances) && SlotsMatch(t) && InstancesMatch(t, instances) && SlotsComplete(t)
  }

  // ---- Consequences ----------------------------------------------------------------------------------------

  /** No two live instances of a network share an address. */
  lemma AddressesAreDistinct(t: Tables, instances: Instances, i: Id, j: Id)
    requires Agreement(t, instances)
    requires i in instances && j in instances
    requires instances[i].ipv4.Some? && instances[i].ipv4 == instances[j].ipv4 && instances[i].network == instances[j].network
    ensures i == j
  {
  }

  function ClaimedAddrs(slots: map<Slot, Option<Id>>, network: Id): set<Addr> {
    set k | k in slots && k.network == network && slots[k].Some? :: k.addr
  }

  /** Free and claimed slots of a seeded network always add up to its usable hosts. */
  lemma SlotsAddUp(t: Tables, instances: Instances, network: Id)
    requires Agreement(t, instances) && SlotsOf(t.slots, network) != {}
    ensures network in t.networks && Supported(t.networks[network].prefix)
    ensures |FreeAddrs(t.slots, network)| + |ClaimedAddrs(t.slots, network)|
         == HostCount(t.networks[network].prefix, t.networks[network].gateway)
  {
    var k :| k in SlotsOf(t.slots, network);
    assert FullySeeded(t, network);
    var n := t.networks[network];
    var hosts := HostSet(n.prefix, n.gateway);
    var free, claimed := FreeAddrs(t.slots, network), ClaimedAddrs(t.slots, network);
    forall u ensures u in free + claimed <==> u in hosts {
      assert Slot(network, u) in SlotsOf(t.slots, network) <==> Slot(network, u) in HostSlots(network, hosts);
    }
    assert free + claimed == hosts;
    assert free !! claimed;
    HostSetSize(n.prefix, n.gateway);
  }

  /** The address table of a network: who owns which address, read from each of the three tables. */
  lemma ThreeTablesAgree(t: Tables, instances: Instances, network: Id, addr: Addr, i: Id)
    requires Agreement(t, instances)
    ensures (Slot(network, addr) in t.slots && t.slots[Slot(network, addr)] == Some(i))
            <==> (i in t.allocations && t.allocations[i].network == network && t.allocations[i].addr == addr)
    ensures (i in t.allocations && t.allocations[i].network == network && t.allocations[i].addr == addr)
            <==> (i in instances && instances[i].network == Some(network) && instances[i].ipv4 == Some(addr))
  {
  }

  // ---- Preservation ------------------------------------------------------------------------------------------

  lemma SeedCompletes(slots: map<Slot, Option<Id>>, network: Id, hosts: set<Addr>)
    requires SlotsOf(slots, network) == {}
    ensures SlotsOf(Seed(slots, network, hosts), network) == HostSlots(network, hosts)
    ensures forall m :: m != network ==> SlotsOf(Seed(slots, network, hosts), m) == SlotsOf(slots, m)
    ensures forall k :: k in slots ==> Seed(slots, network, hosts)[k] == slots[k]
    ensures forall k :: k in Seed(slots, network, hosts) && k !in slots ==> Seed(slots, network, hosts)[k] == None
  {
    var seeded := Seed(slots, network, hosts);
    forall k ensures k in SlotsOf(seeded, network) <==> k in HostSlots(network, hosts) {
      if k in SlotsOf(slots, network) {
        assert false;
      }
    }
    forall m | m != network ensures SlotsOf(seeded, m) == SlotsOf(slots, m) {
      forall k ensures k in SlotsOf(seeded, m) <==> k in SlotsOf(slots, m) {
      }
    }
  }

  lemma CreateNetworkKeepsAgreement(t: Tables, instances: Instances, id: Id, n: Network)
    requires Agreement(t, instances) && id !in t.networks
    ensures Agreement(CreateNetwork(t, id, n).0, instances)
  {
    var (t', reply) := CreateNetwork(t, id, n);
    if reply.Accepted? {
      assert SlotsOf(t.slots, id) == {} by {
        forall k | k in t.slots ensures k.network != id {
          assert FullySeeded(t, k.network);
        }
      }
      SeedCompletes(t.slots, id, HostSet(n.prefix, n.gateway));
      forall k | k in t'.slots ensures FullySeeded(t', k.network) {
        assert k in SlotsOf(t'.slots, k.network);
        if k.network != id {
          assert k in SlotsOf(t.slots, k.network);
          assert FullySeeded(t, k.network);
        }
      }
    }
  }

  /** Seeding inside a create transaction keeps the tables in agreement. */
  lemma SeedingKeepsAgreement(t: Tables, instances: Instances, network: Id)
    requires Agreement(t, instances) && network in t.networks && SlotsForCreate(t, network).Some?
    ensures Agreement(t.(slots := SlotsForCreate(t, network).value), instances)
  {
    var slots := SlotsForCreate(t, network).value;
    var t' := t.(slots := slots);
    if SlotsOf(t.slots, network) == {} {
      SeedCompletes(t.slots, network, HostSet(t.networks[network].prefix, t.networks[network].gateway));
      forall k | k in slots ensures FullySeeded(t', k.network) {
        assert k in SlotsOf(slots, k.network);
        if k.network != network {
          assert k in SlotsOf(t.slots, k.network);
          assert FullySeeded(t, k.network);
        }
      }
    }
  }

  /** Under agreement a free slot is never blocked by the unique columns of the allocation table. */
  lemma FreeSlotIsUnallocated(t: Tables, instances: Instances, network: Id, addr: Addr)
    requires Agreement(t, instances) && addr in FreeAddrs(t.slots, network)
    ensures !AddrAllocated(t.allocations, network, addr)
  {
  }

  lemma ClaimKeepsAgreement(t: Tables, instances: Instances, r: CreateRequest, addr: Addr)
    requires Agreement(t, instances)
    requires r.instance !in instances && addr in FreeAddrs(t.slots, r.network)
    ensures Agreement(
      t.(slots := t.slots[Slot(r.network, addr) := Some(r.instance)],
         allocations := t.allocations[r.instance := Allocation(r.network, r.project, addr)]),
      instances[r.instance := NewInstance(r, addr)])
  {
    var k0 := Slot(r.network, addr);
    var t' := t.(slots := t.slots[k0 := Some(r.instance)],
                 allocations := t.allocations[r.instance := Allocation(r.network, r.project, addr)]);
    forall k | k in t'.slots ensures FullySeeded(t', k.network) {
      assert FullySeeded(t, k.network);
      assert SlotsOf(t'.slots, k.network) == SlotsOf(t.slots, k.network);
    }
    forall k | k in t'.slots && t'.slots[k].Some? && k != k0 ensures t'.slots[k].value != r.instance {
      assert t.slots[k].value in t.allocations;
    }
  }

  /** A committed create keeps agreement. */
  lemma CreateKeepsAgreement(t: Tables, instances: Instances, r: CreateRequest)
    requires Agreement(t, instances) && r.network in t.networks
    requires CreateInstanceWithIpam(t, instances, r).Committed?
    ensures var tx := CreateInstanceWithIpam(t, instances, r); Agreement(tx.t, tx.instances)
  {
    SeedingKeepsAgreement(t, instances, r.network);
    var seeded := SlotsForCreate(t, r.network).value;
    ClaimKeepsAgreement(t.(slots := seeded), instances, r, Least(FreeAddrs(seeded, r.network)));
  }

  /** It adds the one new row, with the least address that was free, and changes no other. */
  lemma CreateAddsOneRow(t: Tables, instances: Instances, r: CreateRequest)
    requires r.network in t.networks && CreateInstanceWithIpam(t, instances, r).Committed?
    ensures var tx := CreateInstanceWithIpam(t, instances, r);
      var free := FreeAddrs(SlotsForCreate(t, r.network).value, r.network);
      && tx.t.networks == t.networks
      && r.instance !in instances && !NameTaken(instances, r.project, r.name)
      && exists addr :: IsLeast(free, addr) && tx.instances == instances[r.instance := NewInstance(r, addr)]
  {
    var free := FreeAddrs(SlotsForCreate(t, r.network).value, r.network);
    assert IsLeast(free, Least(free));
  }

  /** Exhaustion is reported only for a seeded network without a free slot. */
  lemma ExhaustionIsReal(t: Tables, instances: Instances, r: CreateRequest)
    requires r.network in t.networks && CreateInstanceWithIpam(t, instances, r) == RolledBack(NoIpsAvailable)
    ensures FreeAddrs(t.slots, r.network) == {} && SlotsOf(t.slots, r.network) != {}
  {
    if SlotsOf(t.slots, r.network) == {} {
      FreshSeedHasFreeSlots(t, r.network);
    }
  }

  /** Under agreement a create fails only for a stated reason: the allocation columns never block it. */
  lemma CreateFailsExactly(t: Tables, instances: Instances, r: CreateRequest)
    requires Agreement(t, instances) && r.network in t.networks
    ensures CreateInstanceWithIpam(t, instances, r).Committed? <==>
      && SlotsForCreate(t, r.network).Some?
      && r.instance !in instances && !NameTaken(instances, r.project, r.name)
      && FreeAddrs(SlotsForCreate(t, r.network).value, r.network) != {}
  {
    if SlotsForCreate(t, r.network).Some? {
      SeedingKeepsAgreement(t, instances, r.network);
      var seeded := SlotsForCreate(t, r.network).value;
      var free := FreeAddrs(seeded, r.network);
      if free != {} {
        FreeSlotIsUnallocated(t.(slots := seeded), instances, r.network, Least(free));
      }
    }
  }

  /** Seeding always yields a free address, so exhaustion is never reported for a network just seeded. */
  lemma FreshSeedHasFreeSlots(t: Tables, network: Id)
    requires network in t.networks && SlotsOf(t.slots, network) == {} && SlotsForCreate(t, network).Some?
    ensures FreeAddrs(SlotsForCreate(t, network).value, network) != {}
  {
    var n := t.networks[network];
    var hosts := HostSet(n.prefix, n.gateway);
    HostSetSize(n.prefix, n.gateway);
    var u :| u in hosts;
    SeedCompletes(t.slots, network, hosts);
    var slots := Seed(t.slots, network, hosts);
    assert Slot(network, u) in HostSlots(network, hosts);
    assert Slot(network, u) in SlotsOf(slots, network);
    assert Slot(network, u) in t.slots ==> Slot(network, u) in SlotsOf(t.slots, network);
    assert u in FreeAddrs(slots, network);
  }

  lemma ReleaseKeepsAgreement(t: Tables, instances: Instances, i: Id)
    requires Agreement(t, instances)
    ensures Agreement(Release(t, i), instances - {i})
    ensures forall k :: k in Release(t, i).slots ==> Release(t, i).slots[k] != Some(i)
  {
    var t' := Release(t, i);
    forall k | k in t'.slots ensures FullySeeded(t', k.network) {
      assert FullySeeded(t, k.network);
      assert SlotsOf(t'.slots, k.network) == SlotsOf(t.slots, k.network);
    }
  }

  /** Instance tables that differ in states only. */
  ghost predicate SameExceptState(a: Instances, b: Instances) {
    a.Keys == b.Keys && forall i :: i in a ==> b[i] == a[i].(state := b[i].state)
  }

  lemma StatesDoNotMatter(t: Tables, a: Instances, b: Instances)
    requires Agreement(t, a) && SameExceptState(a, b)
    ensures Agreement(t, b)
  {
  }
}
