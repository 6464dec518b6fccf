/** A destroy that reports success has removed the instance from every table, and touched no other. */
module Destroy {
  import opened Wrappers
  import opened HostNames
  import opened NatRules
  import opened Model
  import opened Ipam
  import opened FipRows
  import opened Disks
  import opened Control
  import opened Invariants

  /** A destroy message whose task and instance exist, in a world with sound tables. */
  ghost predicate Destroyable(w: World, m: TaskMessage) {
    && TablesOk(w) && AtMostOnce(w.rules)
    && m.kind.InstanceDestroy? && m.instance.Some?
    && HasTask(w.tasks, m.project, m.task) && HasInstance(w.instances, m.project, m.instance.value)
  }

  /** In a reachable state that is what the worker holds when it holds a destroy message of an instance still there. */
  lemma HeldDestroyIsDestroyable(w: World)
    requires Core(w) && AtMostOnce(w.rules)
    requires w.mq.inflight.Some? && w.mq.inflight.value.msg.kind.InstanceDestroy?
    requires var i := w.mq.inflight.value.msg.instance; i.Some? && i.value in w.instances
    ensures Destroyable(w, w.mq.inflight.value.msg)
  {
  }

  /** Every call the deletion of the domain makes works; a lookup that fails spares it the calls on the domain. */
  predicate DeletionWorks(w: World, i: Id, k: DeleteCalls)
    requires i in w.instances
  {
    var name := Sanitized(w.instances[i].name);
    && k.connect && k.files
    && (Found(w.domains, name, k.lookup) ==> k.isActive && k.undefine && (w.domains[name].running ==> k.stop))
  }

  /** The rules that delete commands reached. */
  function Reached(w: World, project: Id, i: Id, c: Calls): set<Rule> {
    RulesOfAll(BindingsOf(w.fips, project, i)) - c.faults.del
  }

  /** The only thing that can stop a destroy is the hypervisor: the keys that restrict the delete never do. */
  lemma DestroySucceedsExactly(w: World, m: TaskMessage, c: Calls)
    requires Destroyable(w, m)
    ensures FinishDestroy(w, m, c).1 <==> DeletionWorks(w, m.instance.value, c.deletion)
  {
    var i := m.instance.value;
    var bare := TearDown(w, m.project, i, c);
    var name := Sanitized(w.instances[i].name);
    assert name in bare.domains <==> name in w.domains;
    if DeleteVm(bare.domains, name, c.deletion).1 {
      hide FinishDestroy, TearDown;
      FullDestroySettles(w, m, c);
    } else {
      hide FinishDestroy, TearDown;
      FailedDestroySettles(w, m, c);
    }
  }

  /** The whole state after a successful destroy, table by table. */
  lemma DestroyResult(w: World, m: TaskMessage, c: Calls)
    requires Destroyable(w, m) && FinishDestroy(w, m, c).1
    ensures var i := m.instance.value; var w' := FinishDestroy(w, m, c).0;
      w' == w.(
        instances := w.instances - {i}, ipam := Release(w.ipam, i), snapshots := SnapshotsWithout(w.snapshots, i),
        volumes := DetachAllRows(w.volumes, m.project, i), fips := ClearOfProject(w.fips, m.project, i),
        rules := RemoveEach(w.rules, Reached(w, m.project, i, c)),
        domains := if c.deletion.lookup then w.domains - {Sanitized(w.instances[i].name)} else TearDown(w, m.project, i, c).domains,
        tasks := ForgetInstance(SetTask(w.tasks, m.project, m.task, Succeeded), i))
  {
    hide ForgetInstance, SnapshotsWithout, Release, DetachAllRows, RemoveEach, Agreement, FipsOk, VolumeRowsSound;
    var i := m.instance.value;
    var name := Sanitized(w.instances[i].name);
    var bare := TearDown(w, m.project, i, c);
    var deleted := DeleteVm(bare.domains, name, c.deletion);
    DestroySucceedsExactly(w, m, c);
    assert deleted.0 == (if c.deletion.lookup then w.domains - {name} else bare.domains) && deleted.1;
    ClearKeeps(w.fips, w.instances, m.project, i);
    var instances' := SetState(bare.instances, m.project, i, Deleting);
    assert instances' - {i} == w.instances - {i};
  }

  // ---- Complete -------------------------------------------------------------------------------------------

  /** The last transaction goes through exactly when task and instance are there and no volume row names the instance. */
  lemma FinalizeSucceedsExactly(w: World, project: Id, t: Id, i: Id)
    ensures var (w', ok) := FinalizeInstanceDestroy(w, project, t, i);
      && (ok <==> t in w.tasks && w.tasks[t].project == project && i in w.instances && w.instances[i].project == project
                  && forall v :: v in w.volumes ==> w.volumes[v].instance != Some(i))
      && (!ok ==> w' == w)
  {
  }

  /**
   * No row names the instance any more, and its address is free again. Its domain is gone exactly when there was none or
   * the lookup found it.
   */
  lemma NothingIsLeft(w: World, m: TaskMessage, c: Calls)
    requires Destroyable(w, m) && FinishDestroy(w, m, c).1
    ensures var i := m.instance.value; var w' := FinishDestroy(w, m, c).0; var row := w.instances[i];
      && i !in w'.instances && i !in w'.ipam.allocations
      && (Sanitized(row.name) !in w'.domains <==> c.deletion.lookup || Sanitized(row.name) !in w.domains)
      && (forall s :: s in w'.snapshots ==> w'.snapshots[s].instance != i)
      && (forall v :: v in w'.volumes ==> w'.volumes[v].instance != Some(i))
      && (forall f :: f in w'.fips ==> w'.fips[f].instance != Some(i))
      && (forall t :: t in w'.tasks ==> w'.tasks[t].instance != Some(i))
      && (forall k :: k in w'.ipam.slots ==> w'.ipam.slots[k] != Some(i))
      && (row.ipv4.Some? && row.network.Some? ==>
          Slot(row.network.value, row.ipv4.value) in w'.ipam.slots
          && w'.ipam.slots[Slot(row.network.value, row.ipv4.value)] == None)
  {
    var i := m.instance.value;
    DestroyResult(w, m, c);
    hide FinishDestroy;
    ReleaseKeepsAgreement(w.ipam, w.instances, i);
    ClearKeeps(w.fips, w.instances, m.project, i);
    TearDownKeepsTables(w, m.project, i, c);
    var row := w.instances[i];
    if row.ipv4.Some? && row.network.Some? {
      ThreeTablesAgree(w.ipam, w.instances, row.network.value, row.ipv4.value, i);
    }
  }

  /** What it leaves of its volumes, floating IPs and task, and which of its rules survive: those whose delete failed. */
  lemma DestroyReleases(w: World, m: TaskMessage, c: Calls)
    requires Destroyable(w, m) && FinishDestroy(w, m, c).1
    ensures var i := m.instance.value; var w' := FinishDestroy(w, m, c).0;
      && (forall v :: v in w.volumes && w.volumes[v].instance == Some(i) ==>
            v in w'.volumes && w'.volumes[v] == Detached(w.volumes[v]))
      && (forall f :: f in w.fips && w.fips[f].instance == Some(i) ==>
            && f in w'.fips && w'.fips[f].status.Allocated? && w'.fips[f].instance.None? && w'.fips[f].priv.None?
            && w'.fips[f].project == Some(m.project))
      && m.task in w'.tasks && w'.tasks[m.task].status.Succeeded?
      && (forall r :: r in RulesOfAll(BindingsOf(w.fips, m.project, i)) ==> (r in w'.rules <==> r in w.rules && r in c.faults.del))
  {
    var i := m.instance.value;
    DestroyResult(w, m, c);
    hide FinishDestroy;
    forall v | v in w.volumes && w.volumes[v].instance == Some(i) ensures DetachableFrom(w.volumes, m.project, i, v) {
      assert VolumeRowSound(w.volumes[v], w.instances);
    }
    forall f | f in w.fips && w.fips[f].instance == Some(i) ensures w.fips[f].project == Some(m.project) && w.fips[f].status.Active? {
      assert RowOk(w.fips[f], w.instances);
    }
    RemoveEachRemoves(w.rules, Reached(w, m.project, i, c));
  }

  /**
   * A lookup that fails lets a destroy succeed over a domain that is still there, and runs if it ran, with no row left
   * that names it.
   */
  lemma FailedLookupOrphansDomain(w: World, m: TaskMessage, c: Calls)
    requires Destroyable(w, m) && c.deletion.connect && c.deletion.files && !c.deletion.lookup
    requires Sanitized(w.instances[m.instance.value].name) in w.domains
    ensures var i := m.instance.value; var name := Sanitized(w.instances[i].name); var (w', ok) := FinishDestroy(w, m, c);
      && ok && i !in w'.instances && m.task in w'.tasks && w'.tasks[m.task].status.Succeeded?
      && name in w'.domains && w'.domains[name].running == w.domains[name].running
  {
    DestroySucceedsExactly(w, m, c);
    DestroyResult(w, m, c);
    hide FinishDestroy;
  }

  // ---- Stopped half way ---------------------------------------------------------------------------------------

  /** The calls up to the undefine work on a domain that is found. */
  predicate ReachesUndefine(domains: Domains, name: string, k: DeleteCalls) {
    k.connect && Found(domains, name, k.lookup) && k.isActive && (domains[name].running ==> k.stop)
  }

  lemma FailedDeleteVm(domains: Domains, name: string, k: DeleteCalls)
    requires !DeleteVm(domains, name, k).1
    ensures var after := DeleteVm(domains, name, k).0;
      && (forall n :: n != name ==> (n in after <==> n in domains) && (n in domains ==> after[n] == domains[n]))
      && (name in after <==> name in domains && !(ReachesUndefine(domains, name, k) && k.undefine))
      && (name in after ==> after[name].disks == domains[name].disks
                            && after[name].running == (domains[name].running && !ReachesUndefine(domains, name, k)))
  {
  }

  lemma FailedDestroyResult(w: World, m: TaskMessage, c: Calls)
    requires Destroyable(w, m) && !FinishDestroy(w, m, c).1
    ensures var i := m.instance.value; var w' := FinishDestroy(w, m, c).0; var bare := TearDown(w, m.project, i, c);
      var deleted := DeleteVm(bare.domains, Sanitized(w.instances[i].name), c.deletion);
      && !deleted.1
      && w' == bare.(domains := deleted.0, instances := w.instances[i := w.instances[i].(state := Errored)],
                     tasks := w.tasks[m.task := w.tasks[m.task].(status := Failed)])
  {
    var i := m.instance.value;
    var bare := TearDown(w, m.project, i, c);
    if DeleteVm(bare.domains, Sanitized(w.instances[i].name), c.deletion).1 {
      hide FinishDestroy, TearDown;
      FullDestroySettles(w, m, c);
    } else {
      assert bare.instances == w.instances && bare.tasks == w.tasks;
      hide TearDown, DeleteVm, TablesOk, AtMostOnce, Sanitized;
    }
  }

  /**
   * A destroy the hypervisor stops leaves the row in error with its address and snapshots, but without volumes, floating
   * IPs and the rules its deletes reached. Its domain stays unless the undefine worked, and is halted as far as it came.
   */
  lemma FailedDestroyOutcome(w: World, m: TaskMessage, c: Calls)
    requires Destroyable(w, m) && !FinishDestroy(w, m, c).1
    ensures var i := m.instance.value; var w' := FinishDestroy(w, m, c).0; var name := Sanitized(w.instances[i].name);
      && w'.instances == w.instances[i := w.instances[i].(state := Errored)]
      && w'.tasks == w.tasks[m.task := w.tasks[m.task].(status := Failed)]
      && w'.ipam == w.ipam && w'.snapshots == w.snapshots && w'.mq == w.mq
      && (forall v :: v in w.volumes ==>
            v in w'.volumes && w'.volumes[v] == if w.volumes[v].instance == Some(i) then Detached(w.volumes[v]) else w.volumes[v])
      && (forall f :: f in w.fips ==>
            f in w'.fips && w'.fips[f] == if w.fips[f].instance == Some(i) then Unbound(w.fips[f]) else w.fips[f])
      && (forall r :: r in w'.rules <==> r in w.rules && r !in Reached(w, m.project, i, c))
      && (forall n :: n != name ==> (n in w'.domains <==> n in w.domains) && (n in w.domains ==> w'.domains[n] == w.domains[n]))
      && (name in w'.domains <==>
            name in w.domains && !(ReachesUndefine(w.domains, name, c.deletion) && c.deletion.undefine))
      && (name in w'.domains ==>
            w'.domains[name].running == (w.domains[name].running && !ReachesUndefine(w.domains, name, c.deletion)))
  {
    var i := m.instance.value;
    var name := Sanitized(w.instances[i].name);
    var bare := TearDown(w, m.project, i, c);
    FailedDestroyResult(w, m, c);
    FailedDeleteVm(bare.domains, name, c.deletion);
    OtherDomainsStay(w, m.project, i, c);
    RemoveEachRemoves(w.rules, Reached(w, m.project, i, c));
    TornDownRows(w, m.project, i, c);
    hide FinishDestroy, DeleteVm, TearDown, TablesOk, AtMostOnce, RemoveEach, Reached, Detached, Unbound, Sanitized;
  }

  lemma TornDownRows(w: World, project: Id, i: Id, c: Calls)
    requires TablesOk(w) && AtMostOnce(w.rules) && HasInstance(w.instances, project, i)
    ensures var bare := TearDown(w, project, i, c); var name := Sanitized(w.instances[i].name);
      && bare.ipam == w.ipam && bare.snapshots == w.snapshots && bare.mq == w.mq
      && bare.rules == RemoveEach(w.rules, Reached(w, project, i, c))
      && (forall v :: v in w.volumes ==>
            v in bare.volumes && bare.volumes[v] == if w.volumes[v].instance == Some(i) then Detached(w.volumes[v]) else w.volumes[v])
      && (forall f :: f in w.fips ==>
            f in bare.fips && bare.fips[f] == if w.fips[f].instance == Some(i) then Unbound(w.fips[f]) else w.fips[f])
      && (name in bare.domains <==> name in w.domains)
      && (name in w.domains ==> bare.domains[name].running == w.domains[name].running)
      && (forall n :: n != name ==> (n in bare.domains <==> n in w.domains))
      && (forall r :: r in Reached(w, project, i, c) ==> !r.Other?)
  {
    forall v | v in w.volumes && w.volumes[v].instance == Some(i) ensures DetachableFrom(w.volumes, project, i, v) {
      assert VolumeRowSound(w.volumes[v], w.instances);
    }
    forall f | f in w.fips && w.fips[f].instance == Some(i) ensures w.fips[f].project == Some(project) {
      assert RowOk(w.fips[f], w.instances);
    }
    hide RemoveEach, Sanitized, AtMostOnce;
  }

  // ---- Framed -----------------------------------------------------------------------------------------------

  /** Every other row and every other domain is as before. */
  lemma OthersAreUntouched(w: World, m: TaskMessage, c: Calls)
    requires Destroyable(w, m) && FinishDestroy(w, m, c).1
    ensures var i := m.instance.value; var w' := FinishDestroy(w, m, c).0; var name := Sanitized(w.instances[i].name);
      && w'.instances == w.instances - {i}
      && (forall n :: n in w.domains && n != name ==> n in w'.domains && w'.domains[n] == w.domains[n])
      && w'.ipam.allocations == w.ipam.allocations - {i} && w'.ipam.networks == w.ipam.networks
      && (forall k :: k in w.ipam.slots && w.ipam.slots[k] != Some(i) ==> k in w'.ipam.slots && w'.ipam.slots[k] == w.ipam.slots[k])
      && (forall v :: v in w.volumes && w.volumes[v].instance != Some(i) ==> v in w'.volumes && w'.volumes[v] == w.volumes[v])
      && (forall f :: f in w.fips && w.fips[f].instance != Some(i) ==> f in w'.fips && w'.fips[f] == w.fips[f])
      && (forall s :: s in w.snapshots && w.snapshots[s].instance != i ==> s in w'.snapshots && w'.snapshots[s] == w.snapshots[s])
      && (forall t :: t in w.tasks && t != m.task ==> t in w'.tasks && w'.tasks[t].status == w.tasks[t].status)
      && w'.mq == w.mq
  {
    DestroyResult(w, m, c);
    OtherDomainsStay(w, m.project, m.instance.value, c);
    hide FinishDestroy, TearDown, TablesOk, AtMostOnce, RemoveEach;
  }

  lemma OtherDomainsStay(w: World, project: Id, i: Id, c: Calls)
    requires i in w.instances
    ensures var name := Sanitized(w.instances[i].name); var domains := TearDown(w, project, i, c).domains;
      forall n :: n in w.domains && n != name ==> n in domains && domains[n] == w.domains[n]
  {
  }

  /** Rules of another instance's floating IPs, and foreign rules, keep all their copies. */
  lemma OtherRulesAreUntouched(w: World, m: TaskMessage, c: Calls, f: Id, r: Rule)
    requires Destroyable(w, m) && FinishDestroy(w, m, c).1
    requires r.Other? || (f in w.fips && w.fips[f].status.Active? && w.fips[f].instance != m.instance
                          && w.fips[f].priv.Some? && r in RulesOf(BindingOf(w.fips[f])))
    ensures Count(FinishDestroy(w, m, c).0.rules, r) == Count(w.rules, r)
  {
    var i := m.instance.value;
    DestroyResult(w, m, c);
    hide FinishDestroy;
    CountRemoveEach(w.rules, Reached(w, m.project, i, c), r);
    assert r !in Reached(w, m.project, i, c);
  }
}
