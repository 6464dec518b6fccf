/** Rows of the floating IP pool and their three-state machine. */
module FipRows {
  import opened Wrappers
  import opened Model
  import opened NatRules

  type Fips = map<Id, FloatingIp>
  type Instances = map<Id, Instance>

  // ---- Statements on the table --------------------------------------------------------------------

  ghost predicate IsNextFree(fips: Fips, f: Id) {
    && f in fips && fips[f].status.Unallocated?
    && forall g :: g in fips && fips[g].status.Unallocated? ==> fips[f].pub <= fips[g].pub
  }

  /** Gives the unallocated row with the least public address to the project. */
  ghost function Allocate(fips: Fips, project: Id): (Fips, Reply) {
    if f :| IsNextFree(fips, f) then
      (fips[f := fips[f].(project := Some(project), status := Allocated)], Accepted)
    else (fips, Refused(NoFloatingIpsAvailable))
  }

  predicate CanAssociate(fips: Fips, instances: Instances, project: Id, f: Id, i: Id) {
    && f in fips && fips[f].project == Some(project) && fips[f].status.Allocated? && fips[f].instance.None?
    && i in instances && instances[i].project == project && instances[i].state.Running? && instances[i].ipv4.Some?
  }

  /** Binds an allocated row to a running instance and its address, in one statement. */
  function TryAssociate(fips: Fips, instances: Instances, project: Id, f: Id, i: Id): (Fips, Reply) {
    if CanAssociate(fips, instances, project, f, i) then
      (fips[f := fips[f].(instance := Some(i), priv := instances[i].ipv4, status := Active)], Accepted)
    else (fips, Refused(AssociationRefused))
  }

  function Unbound(row: FloatingIp): FloatingIp {
    row.(instance := None, priv := None, status := if row.status.Active? then Allocated else row.status)
  }

  predicate IsActiveOf(fips: Fips, project: Id, f: Id) {
    f in fips && fips[f].project == Some(project) && fips[f].status.Active?
  }

  /** Clears an active row and returns the pair whose rules must go. */
  function TakeDisassociate(fips: Fips, project: Id, f: Id): (Fips, Option<Binding>) {
    if IsActiveOf(fips, project, f) && fips[f].priv.Some? then
      (fips[f := Unbound(fips[f])], Some(Binding(fips[f].pub, fips[f].priv.value)))
    else (fips, None)
  }

  function Rollback(fips: Fips, project: Id, f: Id): Fips {
    if IsActiveOf(fips, project, f) then fips[f := Unbound(fips[f])] else fips
  }

  function ClearOfProject(fips: Fips, project: Id, i: Id): Fips {
    map f | f in fips ::
      if fips[f].project == Some(project) && fips[f].instance == Some(i) then Unbound(fips[f]) else fips[f]
  }

  /** The same for any project, as the last step of a destroy does. */
  function ClearOfInstance(fips: Fips, i: Id): Fips {
    map f | f in fips :: if fips[f].instance == Some(i) then Unbound(fips[f]) else fips[f]
  }

  function BindingOf(row: FloatingIp): Binding
    requires row.priv.Some?
  {
    Binding(row.pub, row.priv.value)
  }

  predicate BoundTo(row: FloatingIp, project: Id, i: Id) {
    row.project == Some(project) && row.instance == Some(i) && row.status.Active? && row.priv.Some?
  }

  function BindingsOf(fips: Fips, project: Id, i: Id): set<Binding> {
    set f | f in fips && BoundTo(fips[f], project, i) :: BindingOf(fips[f])
  }

  predicate NeedsRules(row: FloatingIp, instances: Instances) {
    && row.status.Active? && row.priv.Some? && row.instance.Some? && row.instance.value in instances
    && row.project == Some(instances[row.instance.value].project)
    && instances[row.instance.value].state.Running?
  }

  function BindingsToReconcile(fips: Fips, instances: Instances): set<Binding> {
    set f | f in fips && NeedsRules(fips[f], instances) :: BindingOf(fips[f])
  }

  // ---- The invariant ----------------------------------------------------------------------------------

  /** The state of one row: ownership and binding follow the status, and a bound row matches its instance. */
  ghost predicate RowOk(row: FloatingIp, instances: Instances) {
    && (row.project.None? <==> row.status.Unallocated?)
    && (row.status.Active? <==> row.instance.Some? && row.priv.Some?)
    && (row.instance.Some? <==> row.priv.Some?)
    && (row.status.Active? ==>
        && row.instance.value in instances
        && Some(instances[row.instance.value].project) == row.project
        && instances[row.instance.value].ipv4 == row.priv)
  }

  ghost predicate PublicsDistinct(fips: Fips) {
    forall f, g :: f in fips && g in fips && fips[f].pub == fips[g].pub ==> f == g
  }

  ghost predicate FipsOk(fips: Fips, instances: Instances) {
    PublicsDistinct(fips) && forall f :: f in fips ==> RowOk(fips[f], instances)
  }

  /** What no operation ever changes: the rows, their public addresses, and a project once it is set. */
  ghost predicate PoolKept(a: Fips, b: Fips) {
    && a.Keys == b.Keys
    && forall f :: f in a ==> b[f].pub == a[f].pub && (a[f].project.Some? ==> b[f].project == a[f].project)
  }

  ghost predicate ActivePair(fips: Fips, b: Binding) {
    exists f :: f in fips && fips[f].status.Active? && fips[f].pub == b.pub && fips[f].priv == Some(b.priv)
  }

  // ---- Preservation --------------------------------------------------------------------------------------

  lemma AllocateKeeps(fips: Fips, instances: Instances, project: Id)
    requires FipsOk(fips, instances)
    ensures var fips' := Allocate(fips, project).0;
      FipsOk(fips', instances) && PoolKept(fips, fips') && forall b :: ActivePair(fips, b) ==> ActivePair(fips', b)
  {
    var fips' := Allocate(fips, project).0;
    forall b | ActivePair(fips, b) ensures ActivePair(fips', b) {
      var f :| f in fips && fips[f].status.Active? && fips[f].pub == b.pub && fips[f].priv == Some(b.priv);
      assert f in fips' && fips'[f] == fips[f];
    }
  }

  /** The pool is only exhausted when no row is unallocated. */
  lemma {:induction false} AllocateFindsFree(fips: Fips, project: Id)
    ensures Allocate(fips, project).1.Accepted? <==> exists f :: f in fips && fips[f].status.Unallocated?
  {
    var free := set f | f in fips && fips[f].status.Unallocated?;
    if free != {} {
      LeastFreeExists(fips, free);
      var f :| LeastPublic(fips, free, f);
      assert IsNextFree(fips, f);
    }
    assert forall f :: f in fips && fips[f].status.Unallocated? <==> f in free;
  }

  lemma {:induction false} LeastFreeExists(fips: Fips, free: set<Id>)
    requires free != {} && forall f :: f in free ==> f in fips
    ensures exists f :: LeastPublic(fips, free, f)
  {
    var x :| x in free;
    if free == {x} {
      assert LeastPublic(fips, free, x);
    } else {
      LeastFreeExists(fips, free - {x});
      var y :| LeastPublic(fips, free - {x}, y);
      var least := if fips[x].pub <= fips[y].pub then x else y;
      forall g | g in free ensures fips[least].pub <= fips[g].pub {
        assert g == x || g in free - {x};
      }
      assert LeastPublic(fips, free, least);
    }
  }

  predicate LeastPublic(fips: Fips, free: set<Id>, f: Id)
    requires forall g :: g in free ==> g in fips
  {
    f in free && forall g :: g in free ==> fips[f].pub <= fips[g].pub
  }

  lemma AssociateKeeps(fips: Fips, instances: Instances, project: Id, f: Id, i: Id)
    requires FipsOk(fips, instances)
    ensures var fips' := TryAssociate(fips, instances, project, f, i).0;
      FipsOk(fips', instances) && PoolKept(fips, fips') && forall b :: ActivePair(fips, b) ==> ActivePair(fips', b)
  {
  }

  /** Taking back a binding that was made in the same request restores the table. */
  lemma RollbackUndoesAssociate(fips: Fips, instances: Instances, project: Id, f: Id, i: Id)
    requires FipsOk(fips, instances) && TryAssociate(fips, instances, project, f, i).1.Accepted?
    ensures Rollback(TryAssociate(fips, instances, project, f, i).0, project, f) == fips
  {
  }

  /** Clearing one row gives up its own pair and no other. */
  lemma DisassociateKeeps(fips: Fips, instances: Instances, project: Id, f: Id)
    requires FipsOk(fips, instances)
    ensures var (fips', taken) := TakeDisassociate(fips, project, f);
      && FipsOk(fips', instances) && PoolKept(fips, fips')
      && (taken.None? <==> !IsActiveOf(fips, project, f))
      && (forall b :: ActivePair(fips, b) && taken != Some(b) ==> ActivePair(fips', b))
  {
  }

  /** When an instance goes, clearing its rows keeps the table sound without it. */
  lemma ClearKeeps(fips: Fips, instances: Instances, project: Id, i: Id)
    requires FipsOk(fips, instances)
    requires i in instances ==> instances[i].project == project
    ensures var fips' := ClearOfProject(fips, project, i);
      && fips' == ClearOfInstance(fips, i)
      && ClearOfInstance(fips', i) == fips'
      && FipsOk(fips', instances) && FipsOk(fips', instances - {i}) && PoolKept(fips, fips')
      && (forall f :: f in fips' ==> fips'[f].instance != Some(i))
      && (forall b :: ActivePair(fips, b) && b !in BindingsOf(fips, project, i) ==> ActivePair(fips', b))
  {
    var fips' := ClearOfProject(fips, project, i);
    forall f | f in fips
      ensures fips[f].instance == Some(i) ==> fips[f].project == Some(project)
    {
      assert RowOk(fips[f], instances);
    }
    forall f | f in fips' ensures RowOk(fips'[f], instances) && RowOk(fips'[f], instances - {i}) {
      assert RowOk(fips[f], instances);
    }
    assert fips' == ClearOfInstance(fips, i);
    assert ClearOfInstance(fips', i) == fips';
    forall b | ActivePair(fips, b) && b !in BindingsOf(fips, project, i) ensures ActivePair(fips', b) {
      var g :| g in fips && fips[g].status.Active? && fips[g].pub == b.pub && fips[g].priv == Some(b.priv);
      assert RowOk(fips[g], instances);
      assert BindingOf(fips[g]) == b;
      assert fips[g].instance != Some(i);
      assert g in fips' && fips'[g] == fips[g];
    }
  }

  /** Rows do not notice instance states, nor new instances. */
  lemma RowsIgnoreStates(fips: Fips, a: Instances, b: Instances)
    requires FipsOk(fips, a)
    requires forall i :: i in a ==> i in b && b[i].project == a[i].project && b[i].ipv4 == a[i].ipv4
    ensures FipsOk(fips, b)
  {
  }
}
