/** Seeding and claiming slots in open transactions side by side: locked rows are skipped, conflicting inserts waited for. */
module Allocator {
  import opened Wrappers
  import opened Addresses
  import opened Model
  import opened Ipam

  type Slots = map<Slot, Option<Id>>

  /** Before the count of slots, between a count of none and the inserts, and after. */
  datatype Stage = Counting | Seeding | Ready

  /** An open transaction creates an instance, with the slots it inserted and the one it claimed so far, or deletes one. */
  datatype Tx =
    | Creation(network: Id, instance: Id, stage: Stage, own: set<Addr>, claim: Option<Addr>)
    | Deletion(instance: Id)

  /** `slots` is what is committed; an open transaction's own rows and changes are visible to itself only. */
  datatype Pool = Pool(networks: map<Id, Network>, slots: Slots, open: map<Id, Tx>)

  datatype Step =
    | BeginCreate(tx: Id, network: Id, instance: Id)
    | BeginDelete(tx: Id, instance: Id)
    | CountSlots(tx: Id)
    | SeedSlots(tx: Id)
    | Claim(tx: Id)
    | Commit(tx: Id)
    | Abort(tx: Id)

  /** The hosts of a network that can be enumerated. */
  function Hosts(p: Pool, network: Id): set<Addr> {
    if network in p.networks && p.networks[network].prefix.bits <= 32 && Supported(p.networks[network].prefix) then
      HostSet(p.networks[network].prefix, p.networks[network].gateway)
    else {}
  }

  function CommittedAddrs(p: Pool, network: Id): set<Addr> {
    set k | k in p.slots && k.network == network :: k.addr
  }

  // ---- Seeding ---------------------------------------------------------------------------------------------

  /** The rows an insert of all hosts adds; those committed already are left alone. */
  function Inserts(p: Pool, network: Id): set<Addr> {
    Hosts(p, network) - CommittedAddrs(p, network)
  }

  predicate InsertedBy(p: Pool, u: Id, network: Id, a: Addr) {
    u in p.open && p.open[u].Creation? && p.open[u].network == network && a in p.open[u].own
  }

  /** Another open transaction has inserted one of the rows; the insert waits for its end. */
  predicate Blocked(p: Pool, t: Id, network: Id) {
    exists u, a :: u in p.open && u != t && a in Inserts(p, network) && InsertedBy(p, u, network, a)
  }

  predicate CanSeed(p: Pool, t: Id) {
    && t in p.open && p.open[t].Creation? && p.open[t].stage.Seeding?
    && p.open[t].network in p.networks && p.networks[p.open[t].network].prefix.bits <= 32
    && Supported(p.networks[p.open[t].network].prefix) && !Blocked(p, t, p.open[t].network)
  }

  // ---- Claiming --------------------------------------------------------------------------------------------

  /** A transaction holds a lock on the slot row it updated. */
  predicate LockedBy(p: Pool, t: Id, k: Slot) {
    t in p.open &&
    match p.open[t]
    case Creation(n, _, _, _, claim) => claim == Some(k.addr) && n == k.network
    case Deletion(i) => k in p.slots && p.slots[k] == Some(i)
  }

  predicate Locked(p: Pool, k: Slot) {
    exists t :: t in p.open && LockedBy(p, t, k)
  }

  predicate Claiming(p: Pool, t: Id) {
    t in p.open && p.open[t].Creation? && p.open[t].stage.Ready? && p.open[t].claim.None?
  }

  /** What a claim may take: free in the committed table and locked by nobody, or inserted by the transaction itself. */
  function Candidates(p: Pool, t: Id): set<Addr>
    requires Claiming(p, t)
  {
    (set k | k in p.slots && k.network == p.open[t].network && p.slots[k].None? && !Locked(p, k) :: k.addr) + p.open[t].own
  }

  function WithClaim(p: Pool, t: Id, a: Addr): Pool
    requires Claiming(p, t)
  {
    p.(open := p.open[t := p.open[t].(claim := Some(a))])
  }

  /** The statement that claims: the least candidate, or the error that no address is available. */
  ghost function ClaimNext(p: Pool, t: Id): (Pool, Option<Addr>)
    requires Claiming(p, t)
  {
    var free := Candidates(p, t);
    if free == {} then (p, None) else (WithClaim(p, t, Least(free)), Some(Least(free)))
  }

  // ---- Steps -----------------------------------------------------------------------------------------------

  function WithOwn(slots: Slots, network: Id, own: set<Addr>): Slots {
    slots + map k | k in HostSlots(network, own) :: None
  }

  function CommittedSlots(p: Pool, tx: Tx): Slots {
    match tx
    case Creation(n, i, _, own, claim) =>
      var seeded := WithOwn(p.slots, n, own);
      if claim.None? then seeded else seeded[Slot(n, claim.value) := Some(i)]
    case Deletion(i) => map k | k in p.slots :: if p.slots[k] == Some(i) then None else p.slots[k]
  }

  function Counted(p: Pool, tx: Tx): Tx
    requires tx.Creation?
  {
    tx.(stage := if SlotsOf(p.slots, tx.network) == {} then Seeding else Ready)
  }

  /** A step that is not possible, such as a blocked insert, leaves everything as it is. */
  ghost function Apply(p: Pool, s: Step): Pool {
    match s
    case BeginCreate(t, n, i) => p.(open := p.open[t := Creation(n, i, Counting, {}, None)])
    case BeginDelete(t, i) => p.(open := p.open[t := Deletion(i)])
    case CountSlots(t) =>
      if t in p.open && p.open[t].Creation? && p.open[t].stage.Counting? then p.(open := p.open[t := Counted(p, p.open[t])]) else p
    case SeedSlots(t) =>
      if CanSeed(p, t) then p.(open := p.open[t := p.open[t].(own := Inserts(p, p.open[t].network), stage := Ready)]) else p
    case Claim(t) => if Claiming(p, t) then ClaimNext(p, t).0 else p
    case Commit(t) => if t in p.open then p.(slots := CommittedSlots(p, p.open[t]), open := p.open - {t}) else p
    case Abort(t) => p.(open := p.open - {t})
  }

  predicate HoldsCommitted(p: Pool, i: Id, k: Slot) {
    k in p.slots && p.slots[k] == Some(i)
  }

  predicate HoldsOpen(p: Pool, t: Id, i: Id, k: Slot) {
    t in p.open && p.open[t].Creation? && p.open[t].network == k.network && p.open[t].instance == i && p.open[t].claim == Some(k.addr)
  }

  /** The instance owns the slot, or its open transaction has claimed it. */
  predicate Holds(p: Pool, i: Id, k: Slot) {
    HoldsCommitted(p, i, k) || exists t :: t in p.open && HoldsOpen(p, t, i, k)
  }

  /** New transactions are new, a new instance has a new identifier, and rows being deleted are locked. */
  predicate Enabled(p: Pool, s: Step) {
    match s
    case BeginCreate(t, n, i) =>
      t !in p.open && (forall k :: k in p.slots ==> p.slots[k] != Some(i)) && forall u :: u in p.open ==> p.open[u].instance != i
    case BeginDelete(t, i) => t !in p.open && forall u :: u in p.open ==> p.open[u].instance != i
    case _ => true
  }

  // ---- The invariant -----------------------------------------------------------------------------------

  /** Rows inserted by an open transaction are hosts, not committed yet, and its own alone. */
  ghost predicate OwnSound(p: Pool) {
    && (forall t, a :: t in p.open && p.open[t].Creation? && a in p.open[t].own ==>
          a in Hosts(p, p.open[t].network) && Slot(p.open[t].network, a) !in p.slots)
    && (forall t, u, n, a :: InsertedBy(p, t, n, a) && InsertedBy(p, u, n, a) ==> t == u)
    && (forall t :: t in p.open && p.open[t].Creation? && !p.open[t].stage.Ready? ==> p.open[t].own == {} && p.open[t].claim.None?)
  }

  ghost predicate ClaimsSound(p: Pool) {
    // a claimed slot is free for everyone else, or the transaction's own
    && (forall t :: t in p.open && p.open[t].Creation? && p.open[t].claim.Some? ==>
          var k := Slot(p.open[t].network, p.open[t].claim.value);
          (k in p.slots && p.slots[k].None?) || k.addr in p.open[t].own)
    // no two open transactions share an instance
    && (forall t, u :: t in p.open && u in p.open && p.open[t].instance == p.open[u].instance ==> t == u)
    // nor a slot
    && (forall t, u, k :: LockedBy(p, t, k) && LockedBy(p, u, k) ==> t == u)
    // an instance being created owns nothing yet, and no instance owns two slots
    && (forall t, k :: t in p.open && p.open[t].Creation? && k in p.slots ==> p.slots[k] != Some(p.open[t].instance))
    && (forall j, k :: j in p.slots && k in p.slots && p.slots[j].Some? && p.slots[j] == p.slots[k] ==> j == k)
  }

  ghost predicate Sound(p: Pool) {
    OwnSound(p) && ClaimsSound(p)
  }

  /** No two instances hold the same slot, and none holds two. */
  lemma HoldersAreDistinct(p: Pool, i: Id, j: Id, k: Slot, l: Slot)
    requires Sound(p) && Holds(p, i, k) && Holds(p, j, l)
    ensures k == l <==> i == j
  {
    if !HoldsCommitted(p, i, k) && !HoldsCommitted(p, j, l) {
      var t :| t in p.open && HoldsOpen(p, t, i, k);
      var u :| u in p.open && HoldsOpen(p, u, j, l);
      assert LockedBy(p, t, k) && LockedBy(p, u, l);
    }
  }

  // ---- Preservation ------------------------------------------------------------------------------------------

  lemma SeedKeepsSound(p: Pool, t: Id)
    requires Sound(p) && CanSeed(p, t)
    ensures Sound(Apply(p, SeedSlots(t)))
  {
    var p' := Apply(p, SeedSlots(t));
    var n := p.open[t].network;
    forall u, v, m, a | InsertedBy(p', u, m, a) && InsertedBy(p', v, m, a) ensures u == v {
      assert u != t ==> InsertedBy(p, u, m, a);
      assert v != t ==> InsertedBy(p, v, m, a);
    }
    SameLocksKeepClaims(p, p', t);
  }

  /** Changing what a transaction has inserted, before it claims, does not touch locks. */
  lemma SameLocksKeepClaims(p: Pool, p': Pool, t: Id)
    requires ClaimsSound(p) && t in p.open && p.open[t].Creation? && p.open[t].claim.None?
    requires p'.slots == p.slots && p'.networks == p.networks && p'.open.Keys == p.open.Keys
    requires forall u :: u in p.open && u != t ==> p'.open[u] == p.open[u]
    requires p'.open[t].Creation? && p'.open[t] == p.open[t].(stage := p'.open[t].stage, own := p'.open[t].own)
    ensures ClaimsSound(p')
  {
    forall u, v, k | LockedBy(p', u, k) && LockedBy(p', v, k) ensures u == v {
      assert LockedBy(p, u, k) && LockedBy(p, v, k);
    }
  }

  lemma CountKeepsSound(p: Pool, t: Id)
    requires Sound(p) && t in p.open && p.open[t].Creation? && p.open[t].stage.Counting?
    ensures Sound(Apply(p, CountSlots(t)))
  {
    var p' := Apply(p, CountSlots(t));
    SameLocksKeepClaims(p, p', t);
    forall u, v, n, a | InsertedBy(p', u, n, a) && InsertedBy(p', v, n, a) ensures u == v {
      assert InsertedBy(p, u, n, a) && InsertedBy(p, v, n, a);
    }
  }

  lemma SameOwnKeepsOwn(p: Pool, p': Pool)
    requires OwnSound(p) && p'.slots == p.slots && p'.networks == p.networks
    requires forall u :: u in p'.open && p'.open[u].Creation? && p'.open[u].own != {} ==>
      u in p.open && p.open[u].Creation? && p.open[u].network == p'.open[u].network && p.open[u].own == p'.open[u].own
    requires forall u :: u in p'.open && p'.open[u].Creation? && !p'.open[u].stage.Ready? ==> p'.open[u].own == {} && p'.open[u].claim.None?
    ensures OwnSound(p')
  {
    forall u, v, n, a | InsertedBy(p', u, n, a) && InsertedBy(p', v, n, a) ensures u == v {
      assert InsertedBy(p, u, n, a) && InsertedBy(p, v, n, a);
    }
  }

  lemma ClaimKeepsSound(p: Pool, t: Id)
    requires Sound(p) && Claiming(p, t)
    ensures Sound(ClaimNext(p, t).0)
  {
    var (p', got) := ClaimNext(p, t);
    if got.Some? {
      var n := p.open[t].network;
      var k0 := Slot(n, got.value);
      assert k0.addr in Candidates(p, t);
      assert (k0 in p.slots && p.slots[k0].None? && !Locked(p, k0)) || k0.addr in p.open[t].own;
      SameOwnKeepsOwn(p, p');
      forall u | u != t ensures !LockedBy(p, u, k0) {
        if LockedBy(p, u, k0) && k0.addr in p.open[t].own {
          assert k0 !in p.slots;
          assert InsertedBy(p, u, n, k0.addr) && InsertedBy(p, t, n, k0.addr);
        }
      }
      forall u, v, k | LockedBy(p', u, k) && LockedBy(p', v, k) ensures u == v {
        assert u != t ==> LockedBy(p, u, k);
        assert v != t ==> LockedBy(p, v, k);
        assert u == t || v == t ==> k == k0;
      }
    }
  }

  lemma CommitKeepsOwn(p: Pool, t: Id)
    requires Sound(p) && t in p.open
    ensures OwnSound(Apply(p, Commit(t)))
  {
    var p' := Apply(p, Commit(t));
    forall u, a | u in p'.open && p'.open[u].Creation? && a in p'.open[u].own
      ensures a in Hosts(p', p'.open[u].network) && Slot(p'.open[u].network, a) !in p'.slots
    {
      var n := p.open[u].network;
      assert InsertedBy(p, u, n, a);
      assert Slot(n, a) !in p.slots;
      if p.open[t].Creation? && p.open[t].network == n {
        assert a in p.open[t].own ==> InsertedBy(p, t, n, a);
      }
    }
    forall u, v, n, a | InsertedBy(p', u, n, a) && InsertedBy(p', v, n, a) ensures u == v {
      assert InsertedBy(p, u, n, a) && InsertedBy(p, v, n, a);
    }
  }

  /** The committed table after a commit: what was there, the own rows, and the claim. */
  lemma CommittedShape(p: Pool, t: Id)
    requires Sound(p) && t in p.open
    ensures var slots := CommittedSlots(p, p.open[t]);
      && (forall k :: k in p.slots ==> k in slots)
      && (forall k :: k in slots && k !in p.slots ==> p.open[t].Creation? && k.network == p.open[t].network && k.addr in p.open[t].own)
      && (forall k :: k in slots && !LockedBy(p, t, k) ==> slots[k] == if k in p.slots then p.slots[k] else None)
      && (forall k :: k in slots && LockedBy(p, t, k) ==>
            slots[k] == if p.open[t].Creation? then Some(p.open[t].instance) else None)
  {
  }

  lemma CommitKeepsClaims(p: Pool, t: Id)
    requires Sound(p) && t in p.open
    ensures ClaimsSound(Apply(p, Commit(t)))
  {
    var p' := Apply(p, Commit(t));
    CommittedShape(p, t);
    hide CommittedSlots;
    forall u | u in p'.open && p'.open[u].Creation? && p'.open[u].claim.Some?
      ensures var k := Slot(p'.open[u].network, p'.open[u].claim.value);
        (k in p'.slots && p'.slots[k].None?) || k.addr in p'.open[u].own
    {
      var k := Slot(p.open[u].network, p.open[u].claim.value);
      assert LockedBy(p, u, k) && !LockedBy(p, t, k);
    }
    forall u, v, k | LockedBy(p', u, k) && LockedBy(p', v, k) ensures u == v {
      assert LockedBy(p, u, k);
      assert LockedBy(p, v, k);
    }
    forall j, k | j in p'.slots && k in p'.slots && p'.slots[j].Some? && p'.slots[j] == p'.slots[k] ensures j == k {
      assert !LockedBy(p, t, j) ==> j in p.slots && p.slots[j] == p'.slots[j];
      assert !LockedBy(p, t, k) ==> k in p.slots && p.slots[k] == p'.slots[k];
    }
  }

  lemma BeginKeepsSound(p: Pool, s: Step)
    requires Sound(p) && Enabled(p, s) && (s.BeginCreate? || s.BeginDelete?)
    ensures Sound(Apply(p, s))
  {
    var p' := Apply(p, s);
    SameOwnKeepsOwn(p, p');
    forall u, v, k | LockedBy(p', u, k) && LockedBy(p', v, k) ensures u == v {
      assert u != s.tx ==> LockedBy(p, u, k);
      assert v != s.tx ==> LockedBy(p, v, k);
    }
  }

  lemma AbortKeepsSound(p: Pool, t: Id)
    requires Sound(p)
    ensures Sound(Apply(p, Abort(t)))
  {
    var p' := Apply(p, Abort(t));
    SameOwnKeepsOwn(p, p');
    forall u, v, k | LockedBy(p', u, k) && LockedBy(p', v, k) ensures u == v {
      assert LockedBy(p, u, k) && LockedBy(p, v, k);
    }
  }

  lemma StepKeepsSound(p: Pool, s: Step)
    requires Sound(p) && Enabled(p, s)
    ensures Sound(Apply(p, s))
  {
    hide Sound, Counted, ClaimNext, CommittedSlots;
    match s
    case BeginCreate(_, _, _) => BeginKeepsSound(p, s);
    case BeginDelete(_, _) => BeginKeepsSound(p, s);
    case CountSlots(t) =>
      if t in p.open && p.open[t].Creation? && p.open[t].stage.Counting? {
        CountKeepsSound(p, t);
      }
    case SeedSlots(t) =>
      if CanSeed(p, t) {
        SeedKeepsSound(p, t);
      }
    case Claim(t) =>
      if Claiming(p, t) {
        ClaimKeepsSound(p, t);
      }
    case Commit(t) =>
      if t in p.open {
        CommitKeepsOwn(p, t);
        CommitKeepsClaims(p, t);
        SoundParts(Apply(p, s));
      }
    case Abort(t) => AbortKeepsSound(p, t);
  }

  lemma SoundParts(p: Pool)
    requires OwnSound(p) && ClaimsSound(p)
    ensures Sound(p)
  {
  }

  // ---- Interleavings ------------------------------------------------------------------------------------------

  ghost predicate Runs(p: Pool, steps: seq<Step>)
    decreases |steps|
  {
    steps == [] || (Enabled(p, steps[0]) && Runs(Apply(p, steps[0]), steps[1..]))
  }

  ghost function After(p: Pool, steps: seq<Step>): Pool
    decreases |steps|
  {
    if steps == [] then p else After(Apply(p, steps[0]), steps[1..])
  }

  lemma {:induction false} RunKeepsSound(p: Pool, steps: seq<Step>)
    requires Sound(p) && Runs(p, steps)
    ensures Sound(After(p, steps))
    decreases |steps|
  {
    hide Sound, Apply, Enabled;
    if steps != [] {
      StepKeepsSound(p, steps[0]);
      RunKeepsSound(Apply(p, steps[0]), steps[1..]);
    }
  }

  /**
   * Over any interleaving of open transactions, from networks seeded or not, no slot is held twice and no instance holds
   * two.
   */
  lemma NoDoubleAllocation(networks: map<Id, Network>, slots: Slots, steps: seq<Step>, i: Id, j: Id, k: Slot, l: Slot)
    requires forall x :: x in slots ==> slots[x].None?
    requires Runs(Pool(networks, slots, map[]), steps)
    requires var p := After(Pool(networks, slots, map[]), steps); Holds(p, i, k) && Holds(p, j, l)
    ensures k == l <==> i == j
  {
    var start := Pool(networks, slots, map[]);
    assert Sound(start);
    hide Sound, Runs, After, Holds;
    RunKeepsSound(start, steps);
    HoldersAreDistinct(After(start, steps), i, j, k, l);
  }

  // ---- One claim --------------------------------------------------------------------------------------------------

  /** A claim takes the least address that is free and not locked, or its own; nobody held it, and nobody else's view changes. */
  lemma ClaimTakesLeast(p: Pool, t: Id)
    requires Sound(p) && Claiming(p, t) && ClaimNext(p, t).1.Some?
    ensures var (p', got) := ClaimNext(p, t); var k := Slot(p.open[t].network, got.value);
      && IsLeast(Candidates(p, t), k.addr)
      && (forall i :: !Holds(p, i, k)) && Holds(p', p.open[t].instance, k)
      && p'.slots == p.slots && (forall u :: u in p.open && u != t ==> p'.open[u] == p.open[u])
  {
    var (p', got) := ClaimNext(p, t);
    var n := p.open[t].network;
    var k := Slot(n, got.value);
    assert IsLeast(Candidates(p, t), k.addr);
    forall i ensures !Holds(p, i, k) {
      forall u ensures !HoldsOpen(p, u, i, k) {
        if HoldsOpen(p, u, i, k) {
          assert LockedBy(p, u, k);
          assert k.addr in p.open[t].own && k !in p.slots;
          assert InsertedBy(p, u, n, k.addr) && InsertedBy(p, t, n, k.addr);
        }
      }
    }
    assert HoldsOpen(p', t, p.open[t].instance, k);
  }

  /** The slots of its network a transaction sees: committed ones and its own. */
  predicate Sees(p: Pool, t: Id, k: Slot)
    requires Claiming(p, t)
  {
    k.network == p.open[t].network && (k in p.slots || k.addr in p.open[t].own)
  }

  predicate ClaimedSlot(p: Pool, k: Slot) {
    k in p.slots && p.slots[k].Some?
  }

  /** The error occurs exactly when every slot the transaction sees is claimed or locked by another open transaction. */
  lemma ExhaustedExactly(p: Pool, t: Id)
    requires Sound(p) && Claiming(p, t)
    ensures ClaimNext(p, t).1.None? <==>
      forall k :: Sees(p, t, k) ==>
        ClaimedSlot(p, k) || exists u :: u in p.open && u != t && LockedBy(p, u, k)
  {
    var n := p.open[t].network;
    if ClaimNext(p, t).1.None? {
      forall k | Sees(p, t, k) && !ClaimedSlot(p, k) ensures exists u :: u in p.open && u != t && LockedBy(p, u, k) {
        assert k.addr !in Candidates(p, t);
        assert Locked(p, k);
        var u :| u in p.open && LockedBy(p, u, k);
        assert u != t;
      }
    } else {
      var a :| a in Candidates(p, t);
      var k := Slot(n, a);
      assert Sees(p, t, k);
      forall u | u in p.open && u != t ensures !LockedBy(p, u, k) {
        if LockedBy(p, u, k) {
          assert a in p.open[t].own && k !in p.slots;
          assert InsertedBy(p, u, n, a) && InsertedBy(p, t, n, a);
        }
      }
      assert !ClaimedSlot(p, k);
    }
  }

  // ---- Seeding races ---------------------------------------------------------------------------------------------------

  /** A network has no committed slot, or exactly one for each of its hosts. */
  ghost predicate AllOrNone(p: Pool) {
    forall n :: CommittedAddrs(p, n) == {} || CommittedAddrs(p, n) == Hosts(p, n)
  }

  /** And an open transaction has inserted none or all of them. */
  ghost predicate WholeSeeds(p: Pool) {
    && AllOrNone(p)
    && forall t :: t in p.open && p.open[t].Creation? ==>
         p.open[t].own == {} || (p.open[t].own == Hosts(p, p.open[t].network) && CommittedAddrs(p, p.open[t].network) == {})
  }

  function OwnOf(p: Pool, t: Id, n: Id): set<Addr>
    requires t in p.open
  {
    if p.open[t].Creation? && p.open[t].network == n then p.open[t].own else {}
  }

  lemma CommitKeepsWhole(p: Pool, t: Id)
    requires Sound(p) && WholeSeeds(p) && t in p.open
    ensures WholeSeeds(Apply(p, Commit(t)))
  {
    var p' := Apply(p, Commit(t));
    CommittedShape(p, t);
    hide CommittedSlots;
    forall n ensures CommittedAddrs(p', n) == CommittedAddrs(p, n) + OwnOf(p, t, n) {
      if p.open[t].Creation? {
        OwnRowsCommitted(p, t);
      }
      forall a ensures a in CommittedAddrs(p', n) <==> a in CommittedAddrs(p, n) + OwnOf(p, t, n) {
        assert Slot(n, a) in p'.slots <==> a in CommittedAddrs(p', n);
        assert Slot(n, a) in p.slots <==> a in CommittedAddrs(p, n);
      }
    }
    forall u | u in p'.open && p'.open[u].Creation? && p'.open[u].own != {}
      ensures p'.open[u].own == Hosts(p', p'.open[u].network) && CommittedAddrs(p', p'.open[u].network) == {}
    {
      var n := p.open[u].network;
      var a :| a in p.open[u].own;
      assert InsertedBy(p, u, n, a) && !InsertedBy(p, t, n, a);
    }
  }

  lemma OwnRowsCommitted(p: Pool, t: Id)
    requires t in p.open && p.open[t].Creation?
    ensures forall a :: a in p.open[t].own ==> Slot(p.open[t].network, a) in CommittedSlots(p, p.open[t])
  {
    var n := p.open[t].network;
    forall a | a in p.open[t].own ensures Slot(n, a) in WithOwn(p.slots, n, p.open[t].own) {
      assert Slot(n, a) in HostSlots(n, p.open[t].own);
    }
  }

  lemma StepKeepsWhole(p: Pool, s: Step)
    requires Sound(p) && WholeSeeds(p) && Enabled(p, s)
    ensures WholeSeeds(Apply(p, s))
  {
    if s.Commit? {
      if s.tx in p.open {
        CommitKeepsWhole(p, s.tx);
      }
    } else {
      var p' := Apply(p, s);
      assert p'.slots == p.slots && p'.networks == p.networks;
      assert forall n :: CommittedAddrs(p', n) == CommittedAddrs(p, n) && Hosts(p', n) == Hosts(p, n);
      if s.SeedSlots? && CanSeed(p, s.tx) {
        var n := p.open[s.tx].network;
        assert p'.open[s.tx].own == Hosts(p, n) - CommittedAddrs(p, n);
      }
    }
  }

  lemma {:induction false} RunKeepsWhole(p: Pool, steps: seq<Step>)
    requires Sound(p) && WholeSeeds(p) && Runs(p, steps)
    ensures WholeSeeds(After(p, steps))
    decreases |steps|
  {
    hide Sound, WholeSeeds, Apply, Enabled;
    if steps != [] {
      StepKeepsSound(p, steps[0]);
      StepKeepsWhole(p, steps[0]);
      RunKeepsWhole(Apply(p, steps[0]), steps[1..]);
    }
  }

  /** However many creates race on seeding a network, its committed slots are none or one for each host. */
  lemma RacesSeedOnce(networks: map<Id, Network>, steps: seq<Step>, n: Id)
    requires Runs(Pool(networks, map[], map[]), steps)
    ensures var p := After(Pool(networks, map[], map[]), steps); CommittedAddrs(p, n) in {{}, Hosts(p, n)}
  {
    var start := Pool(networks, map[], map[]);
    assert Sound(start) && WholeSeeds(start);
    hide Sound, Runs, After;
    RunKeepsWhole(start, steps);
  }

  // ---- Aborting ----------------------------------------------------------------------------------------------------------

  function Erased(p: Pool, t: Id): Pool {
    p.(open := p.open - {t})
  }

  /**
   * What a step of another transaction may do when locks and uncommitted rows it does not see are about: what it does
   * otherwise, or wait or fail, or claim another candidate.
   */
  ghost predicate Explains(p: Pool, s: Step, p': Pool) {
    || p' == Apply(p, s)
    || ((s.Claim? || s.SeedSlots?) && p' == p)
    || (s.Claim? && Claiming(p, s.tx) && exists a :: a in Candidates(p, s.tx) && p' == WithClaim(p, s.tx, a))
  }

  lemma OwnStepIsInvisible(p: Pool, s: Step)
    requires !s.Commit?
    ensures Erased(Apply(p, s), s.tx) == Erased(p, s.tx)
  {
  }

  lemma OtherStepIsExplained(p: Pool, s: Step, t: Id)
    requires s.tx != t
    ensures Explains(Erased(p, t), s, Erased(Apply(p, s), t))
  {
    var e, e' := Erased(p, t), Erased(Apply(p, s), t);
    match s
    case Claim(u) =>
      if Claiming(p, u) {
        ClaimIsExplained(p, u, t);
      }
    case SeedSlots(u) =>
      if CanSeed(p, u) {
        SeedIsExplained(p, u, t);
      }
    case _ =>
      assert e' == Apply(e, s);
  }

  lemma ClaimIsExplained(p: Pool, u: Id, t: Id)
    requires u != t && Claiming(p, u)
    ensures Explains(Erased(p, t), Claim(u), Erased(ClaimNext(p, u).0, t))
  {
    var e := Erased(p, t);
    var (p', got) := ClaimNext(p, u);
    if got.Some? {
      var a := got.value;
      assert a in Candidates(p, u);
      assert a in Candidates(e, u) by {
        var k := Slot(p.open[u].network, a);
        assert Locked(e, k) ==> Locked(p, k);
      }
      assert Erased(p', t) == WithClaim(e, u, a);
    } else {
      assert Erased(p', t) == e;
    }
  }

  lemma SeedIsExplained(p: Pool, u: Id, t: Id)
    requires u != t && CanSeed(p, u)
    ensures Erased(Apply(p, SeedSlots(u)), t) == Apply(Erased(p, t), SeedSlots(u))
  {
    var e := Erased(p, t);
    var n := p.open[u].network;
    assert Inserts(e, n) == Inserts(p, n);
    assert forall v, a :: InsertedBy(e, v, n, a) ==> InsertedBy(p, v, n, a);
    assert CanSeed(e, u);
  }

  function OthersOf(steps: seq<Step>, t: Id): seq<Step> {
    if steps == [] then []
    else if steps[0].tx == t then OthersOf(steps[1..], t)
    else [steps[0]] + OthersOf(steps[1..], t)
  }

  /** The steps lead there, each explained where it is taken. */
  ghost predicate Explained(p: Pool, steps: seq<Step>, end: Pool)
    decreases |steps|
  {
    if steps == [] then p == end
    else exists mid :: Explains(p, steps[0], mid) && Explained(mid, steps[1..], end)
  }

  lemma {:induction false} UncommittedIsInvisible(p: Pool, steps: seq<Step>, t: Id)
    requires forall k :: 0 <= k < |steps| ==> steps[k] != Commit(t)
    ensures Explained(Erased(p, t), OthersOf(steps, t), Erased(After(p, steps), t))
    decreases |steps|
  {
    hide Apply, Explains;
    if steps != [] {
      var s, next := steps[0], Apply(p, steps[0]);
      UncommittedIsInvisible(next, steps[1..], t);
      if s.tx == t {
        assert s != Commit(t);
        OwnStepIsInvisible(p, s);
      } else {
        OtherStepIsExplained(p, s, t);
        var rest := OthersOf(steps[1..], t);
        assert ([s] + rest)[1..] == rest;
        assert Explains(Erased(p, t), s, Erased(next, t)) && Explained(Erased(next, t), rest, Erased(After(p, steps), t));
      }
    }
  }

  lemma {:induction false} AfterOneMore(p: Pool, steps: seq<Step>, s: Step)
    ensures After(p, steps + [s]) == Apply(After(p, steps), s)
    decreases |steps|
  {
    hide Apply;
    if steps == [] {
      assert [] + [s] == [s];
      assert [s][1..] == [];
    } else {
      assert (steps + [s])[1..] == steps[1..] + [s];
      AfterOneMore(Apply(p, steps[0]), steps[1..], s);
    }
  }

  /**
   * A transaction that ends in an abort has left no trace, whatever the others did meanwhile: the end is one the steps of
   * the others alone explain.
   */
  lemma AbortLeavesNoTrace(p: Pool, steps: seq<Step>, t: Id)
    requires t !in p.open && forall k :: 0 <= k < |steps| ==> steps[k] != Commit(t)
    ensures Explained(p, OthersOf(steps, t), After(p, steps + [Abort(t)]))
  {
    AfterOneMore(p, steps, Abort(t));
    UncommittedIsInvisible(p, steps, t);
    assert Erased(p, t) == p;
    assert Erased(After(p, steps), t) == Apply(After(p, steps), Abort(t));
  }

  // ---- Alone ----------------------------------------------------------------------------------------------------------------

  /** The transaction of one instance up to its claim. */
  ghost function Prepared(p: Pool, t: Id, network: Id, instance: Id): Pool {
    Apply(Apply(Apply(p, BeginCreate(t, network, instance)), CountSlots(t)), SeedSlots(t))
  }

  /** Alone, a transaction does what the create transaction of one instance does to the slots. */
  lemma AloneIsSequential(tables: Tables, t: Id, network: Id, instance: Id)
    requires network in tables.networks && SlotsForCreate(tables, network).Some?
    ensures var ready := Prepared(Pool(tables.networks, tables.slots, map[]), t, network, instance);
      var slots := SlotsForCreate(tables, network).value; var free := FreeAddrs(slots, network);
      && Claiming(ready, t)
      && (free == {} <==> ClaimNext(ready, t).1.None?)
      && (free != {} ==> Apply(Apply(ready, Claim(t)), Commit(t)).slots == slots[Slot(network, Least(free)) := Some(instance)])
  {
    var p := Pool(tables.networks, tables.slots, map[]);
    var counted := Apply(Apply(p, BeginCreate(t, network, instance)), CountSlots(t));
    var ready := Prepared(p, t, network, instance);
    var slots := SlotsForCreate(tables, network).value;
    PreparedAlone(tables, t, network, instance);
    var own := ready.open[t].own;
    assert forall k :: !Locked(ready, k);
    forall a ensures a in Candidates(ready, t) <==> a in FreeAddrs(slots, network) {
      var k := Slot(network, a);
      assert k in HostSlots(network, own) <==> a in own;
    }
    assert Candidates(ready, t) == FreeAddrs(slots, network);
  }

  lemma PreparedAlone(tables: Tables, t: Id, network: Id, instance: Id)
    requires network in tables.networks && SlotsForCreate(tables, network).Some?
    ensures var ready := Prepared(Pool(tables.networks, tables.slots, map[]), t, network, instance);
      && ready.slots == tables.slots && ready.open.Keys == {t}
      && exists own :: ready.open[t] == Creation(network, instance, Ready, own, None)
           && WithOwn(tables.slots, network, own) == SlotsForCreate(tables, network).value
           && forall a :: a in own ==> Slot(network, a) !in tables.slots
  {
    var p := Pool(tables.networks, tables.slots, map[]);
    var counted := Apply(Apply(p, BeginCreate(t, network, instance)), CountSlots(t));
    var ready := Prepared(p, t, network, instance);
    if SlotsOf(tables.slots, network) == {} {
      var n := tables.networks[network];
      var hosts := HostSet(n.prefix, n.gateway);
      assert forall a :: Slot(network, a) in tables.slots ==> Slot(network, a) in SlotsOf(tables.slots, network);
      assert CommittedAddrs(counted, network) == {};
      assert Inserts(counted, network) == hosts;
      assert CanSeed(counted, t);
      assert ready.open[t] == Creation(network, instance, Ready, hosts, None);
      assert HostSlots(network, hosts) - tables.slots.Keys == HostSlots(network, hosts);
      assert WithOwn(tables.slots, network, hosts) == SlotsForCreate(tables, network).value;
    } else {
      assert ready.open[t] == Creation(network, instance, Ready, {}, None);
      assert WithOwn(tables.slots, network, {}) == tables.slots;
    }
  }
}
