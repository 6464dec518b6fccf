/** The periodic pass that brings instance states in line with the domains on the host. */
module SyncPass {
  import opened HostNames
  import opened Model
  import opened Disks
  import opened Control

  type InstanceRows = map<Id, Instance>

  /** The columns the pass reads of each instance. */
  datatype SyncRow = SyncRow(id: Id, project: Id, name: string, state: InstanceState)

  datatype StateUpdate = StateUpdate(project: Id, id: Id, state: InstanceState)

  /** The query lists every instance not being deleted, once, in any order. */
  ghost predicate ListsForSync(rows: seq<SyncRow>, instances: InstanceRows) {
    RowsOf(rows, instances) && forall i :: i in instances && !instances[i].state.Deleting? ==> Listed(rows, i)
  }

  predicate NeedsUpdate(r: SyncRow, domains: Domains) {
    !r.state.Creating? && !r.state.Snapshotting? && RunsOnHost(domains, Sanitized(r.name)) != r.state.Running?
  }

  function UpdateOf(r: SyncRow, domains: Domains): StateUpdate {
    StateUpdate(r.project, r.id, if RunsOnHost(domains, Sanitized(r.name)) then Running else Stopped)
  }

  function UpdatesFor(rows: seq<SyncRow>, domains: Domains): seq<StateUpdate> {
    if rows == [] then []
    else
      var r := rows[|rows| - 1];
      UpdatesFor(rows[..|rows| - 1], domains) + (if NeedsUpdate(r, domains) then [UpdateOf(r, domains)] else [])
  }

  /** One statement; it does nothing when the row is gone or already there. */
  function ApplyUpdate(instances: InstanceRows, u: StateUpdate): InstanceRows {
    SetState(instances, u.project, u.id, u.state)
  }

  /** The updates one by one. */
  function ApplyAll(instances: InstanceRows, us: seq<StateUpdate>): InstanceRows {
    if us == [] then instances else ApplyUpdate(ApplyAll(instances, us[..|us| - 1]), us[|us| - 1])
  }

  lemma {:induction false} ApplyAllConcat(instances: InstanceRows, a: seq<StateUpdate>, b: seq<StateUpdate>)
    ensures ApplyAll(instances, a + b) == ApplyAll(ApplyAll(instances, a), b)
    decreases |b|
  {
    if b == [] {
      assert a + b == a;
    } else {
      ApplyAllConcat(instances, a, b[..|b| - 1]);
      assert (a + b)[..|a + b| - 1] == a + b[..|b| - 1];
    }
  }

  // ---- The pass as one function of the table ------------------------------------------------------------

  /** Rows read from the table as it is, each at most once. */
  ghost predicate RowsOf(rows: seq<SyncRow>, instances: InstanceRows) {
    && (forall k :: 0 <= k < |rows| ==>
          var r := rows[k];
          && r.id in instances && r.project == instances[r.id].project && r.name == instances[r.id].name
          && r.state == instances[r.id].state && !r.state.Deleting?)
    && (forall j, k :: 0 <= j < k < |rows| ==> rows[j].id != rows[k].id)
  }

  predicate Listed(rows: seq<SyncRow>, i: Id) {
    exists k :: 0 <= k < |rows| && rows[k].id == i
  }

  /** The table after the updates of some rows: those rows are synced, the rest is as before. */
  lemma {:induction false} UpdatesSyncTheirRows(instances: InstanceRows, rows: seq<SyncRow>, domains: Domains, i: Id)
    requires RowsOf(rows, instances) && i in instances
    ensures i in ApplyAll(instances, UpdatesFor(rows, domains))
    ensures ApplyAll(instances, UpdatesFor(rows, domains))[i]
         == if Listed(rows, i) then SyncInstances(instances, domains)[i] else instances[i]
  {
    if rows != [] {
      var n := |rows| - 1;
      var init, last := rows[..n], rows[n];
      var before := ApplyAll(instances, UpdatesFor(init, domains));
      UpdatesSyncTheirRows(instances, init, domains, i);
      assert Listed(rows, i) <==> Listed(init, i) || last.id == i by {
        if Listed(rows, i) && last.id != i {
          var k :| 0 <= k < |rows| && rows[k].id == i;
          assert init[k].id == i;
        }
        if Listed(init, i) {
          var k :| 0 <= k < |init| && init[k].id == i;
          assert rows[k].id == i;
        }
      }
      assert last.id == i ==> !Listed(init, i);
      if NeedsUpdate(last, domains) {
        ApplyAllConcat(instances, UpdatesFor(init, domains), [UpdateOf(last, domains)]);
        ApplyOne(before, UpdateOf(last, domains));
      } else {
        assert UpdatesFor(rows, domains) == UpdatesFor(init, domains);
      }
    }
  }

  lemma ApplyOne(instances: InstanceRows, u: StateUpdate)
    ensures ApplyAll(instances, [u]) == ApplyUpdate(instances, u)
  {
  }

  /** Whatever order the rows come in, applying the updates they ask for syncs the whole table. */
  lemma PassSyncsTable(instances: InstanceRows, rows: seq<SyncRow>, domains: Domains)
    requires ListsForSync(rows, instances)
    ensures ApplyAll(instances, UpdatesFor(rows, domains)) == SyncInstances(instances, domains)
  {
    var after := ApplyAll(instances, UpdatesFor(rows, domains));
    forall i | i in instances ensures i in after && after[i] == SyncInstances(instances, domains)[i] {
      UpdatesSyncTheirRows(instances, rows, domains, i);
    }
    UpdatesKeepKeys(instances, UpdatesFor(rows, domains));
  }

  lemma {:induction false} UpdatesKeepKeys(instances: InstanceRows, us: seq<StateUpdate>)
    ensures ApplyAll(instances, us).Keys == instances.Keys
  {
    if us != [] {
      UpdatesKeepKeys(instances, us[..|us| - 1]);
    }
  }

  // ---- Convergence -----------------------------------------------------------------------------------------

  predicate Excluded(state: InstanceState) {
    state.Creating? || state.Snapshotting? || state.Deleting?
  }

  /** Afterwards an instance that is not excluded is running exactly when its domain runs; the rest is untouched. */
  lemma SyncConverges(instances: InstanceRows, domains: Domains, i: Id)
    requires i in instances
    ensures var before, after := instances[i], SyncInstances(instances, domains)[i];
      var runs := RunsOnHost(domains, Sanitized(before.name));
      && after == before.(state := after.state)
      && (if Excluded(before.state) then after == before else after.state.Running? <==> runs)
      && (before.state.Errored? && !runs ==> after == before)
      && (after != before ==> after.state in {Running, Stopped} && before.state.Running? != runs)
  {
  }

  /**
   * Domains whose state could not be read count as absent. Row and host then agree exactly when that did not happen to a
   * domain that runs.
   */
  lemma UnseenDomainsCountAsAbsent(instances: InstanceRows, domains: Domains, unseen: set<string>, i: Id)
    requires i in instances && !Excluded(instances[i].state)
    ensures var name := Sanitized(instances[i].name); var after := SyncInstances(instances, domains - unseen)[i];
      (after.state.Running? <==> RunsOnHost(domains, name)) <==> !(name in unseen && RunsOnHost(domains, name))
  {
    SyncConverges(instances, domains - unseen, i);
  }

  lemma {:induction false} NothingToUpdate(rows: seq<SyncRow>, domains: Domains)
    requires forall k :: 0 <= k < |rows| ==> !NeedsUpdate(rows[k], domains)
    ensures UpdatesFor(rows, domains) == []
  {
    if rows != [] {
      NothingToUpdate(rows[..|rows| - 1], domains);
      assert !NeedsUpdate(rows[|rows| - 1], domains);
    }
  }

  /** A second pass over an unchanged host finds nothing to do. */
  lemma SecondPassIsIdle(instances: InstanceRows, rows: seq<SyncRow>, domains: Domains)
    requires ListsForSync(rows, SyncInstances(instances, domains))
    ensures UpdatesFor(rows, domains) == []
  {
    forall k | 0 <= k < |rows| ensures !NeedsUpdate(rows[k], domains) {
      SyncConverges(instances, domains, rows[k].id);
    }
    NothingToUpdate(rows, domains);
  }

  // ---- When the rows read are out of date ----------------------------------------------------------------------

  predicate Mentions(us: seq<StateUpdate>, project: Id, i: Id) {
    exists k :: 0 <= k < |us| && us[k].project == project && us[k].id == i
  }

  lemma {:induction false} UpdatesOnlyTheirRows(instances: InstanceRows, us: seq<StateUpdate>, i: Id)
    requires i in instances
    ensures var after := ApplyAll(instances, us);
      && i in after && after[i] == instances[i].(state := after[i].state)
      && (!Mentions(us, instances[i].project, i) ==> after[i] == instances[i])
      && (Mentions(us, instances[i].project, i) ==>
            exists k :: 0 <= k < |us| && us[k].project == instances[i].project && us[k].id == i && after[i].state == us[k].state)
  {
    if us != [] {
      var init, n := us[..|us| - 1], |us| - 1;
      UpdatesOnlyTheirRows(instances, init, i);
      assert forall k :: 0 <= k < |init| ==> init[k] == us[k];
      var p := instances[i].project;
      if us[n].project == p && us[n].id == i {
        assert ApplyAll(instances, us)[i].state == us[n].state;
      } else {
        assert ApplyAll(instances, us)[i] == ApplyAll(instances, init)[i];
        if Mentions(us, p, i) {
          var k :| 0 <= k < |us| && us[k].project == p && us[k].id == i;
          assert init[k] == us[k];
          assert Mentions(init, p, i);
          var j :| 0 <= j < |init| && init[j].project == p && init[j].id == i
                   && ApplyAll(instances, init)[i].state == init[j].state;
          assert us[j] == init[j];
        }
        if Mentions(init, p, i) {
          var k :| 0 <= k < |init| && init[k].project == p && init[k].id == i;
          assert us[k] == init[k];
        }
      }
    }
  }

  lemma {:induction false} UpdatesAreRunningOrStopped(rows: seq<SyncRow>, domains: Domains)
    ensures forall k :: 0 <= k < |UpdatesFor(rows, domains)| ==> UpdatesFor(rows, domains)[k].state in {Running, Stopped}
  {
    if rows != [] {
      UpdatesAreRunningOrStopped(rows[..|rows| - 1], domains);
    }
  }

  /**
   * The statements carry no check of the state they were computed from. If the rows are out of date by the time
   * the updates run, an instance that has begun to wait in the meantime keeps waiting exactly when no update names it.
   */
  lemma StaleUpdatesEndWaiting(instances: InstanceRows, rows: seq<SyncRow>, domains: Domains, i: Id)
    requires i in instances && Excluded(instances[i].state)
    ensures var us := UpdatesFor(rows, domains); var after := ApplyAll(instances, us);
      i in after && (after[i].state == instances[i].state <==> !Mentions(us, instances[i].project, i))
  {
    UpdatesOnlyTheirRows(instances, UpdatesFor(rows, domains), i);
    UpdatesAreRunningOrStopped(rows, domains);
  }
}
