/** Volumes: rows in the database, disks on the host, and the sequences that keep them together. */
module VolumeService {
  import opened Wrappers
  import opened HostNames
  import opened Model
  import opened Disks
  import opened Plant

  class Volumes {
    const sys: Deployment

    constructor (sys: Deployment)
      ensures this.sys == sys
    {
      this.sys := sys;
    }

    method CreateVolume(project: Id, v: Id, name: string, fileOk: bool) returns (reply: Reply)
      modifies sys.repo`volumes
      ensures (sys.repo.volumes, reply) == Disks.CreateVolume(old(sys.repo.volumes), project, v, name, fileOk)
    {
      var ok := sys.repo.CreateVolume(project, v, name);
      if !ok {
        return Refused(Duplicate);
      }
      if !fileOk {
        sys.repo.SetVolumeError(project, v);
        assert sys.repo.volumes == old(sys.repo.volumes)[v := Volume(project, name, VolumeError, None, None)];
        return Refused(StorageFailed);
      }
      return Accepted;
    }

    method DeleteVolume(project: Id, v: Id) returns (reply: Reply)
      modifies sys.repo`volumes
      ensures (sys.repo.volumes, reply) == Disks.DeleteVolume(old(sys.repo.volumes), project, v)
    {
      reply := sys.repo.DeleteVolume(project, v);
    }

    /** Attaches on the host first; if the row cannot be written the disk is detached again. */
    method AttachVolume(project: Id, i: Id, v: Id, c: AttachCalls) returns (reply: Reply)
      requires sys.Valid()
      modifies sys.repo`volumes, sys.libvirt
      ensures sys.Valid()
      ensures var w := old(sys.State());
        var (volumes, domains, r) := Attach(w.volumes, w.domains, w.instances, project, i, v, c);
        reply == r && sys.State() == w.(volumes := volumes, domains := domains)
    {
      var row := sys.repo.GetInstance(project, i);
      if row.None? {
        return Refused(NotFound);
      }
      if row.value.state.Snapshotting? {
        return Refused(BusySnapshotting);
      }
      if !row.value.state.Running? {
        return Refused(NotRunning);
      }
      var vol := sys.repo.GetVolume(project, v);
      if vol.None? {
        return Refused(NotFound);
      }
      if !vol.value.status.Available? || vol.value.instance.Some? {
        return Refused(VolumeNotAvailable);
      }
      var letter := sys.libvirt.NextVirtioDiskTarget(row.value.name, c.listOk);
      if letter.None? {
        return Refused(HypervisorFailed);
      }
      var ok := sys.libvirt.AttachVolume(row.value.name, VolumeFile(v), letter.value, c.attachOk);
      if !ok {
        return Refused(HypervisorFailed);
      }
      var found := false;
      if c.recordOk {
        found := sys.repo.AttachVolumeRecord(project, v, i, letter.value);
      }
      if !found {
        var _ := sys.libvirt.DetachVolume(row.value.name, VolumeFile(v), letter.value, c.undoOk);
        return Refused(NotFound);
      }
      return Accepted;
    }

    method DetachVolume(project: Id, i: Id, v: Id, callOk: bool) returns (reply: Reply)
      requires sys.Valid()
      modifies sys.repo`volumes, sys.libvirt
      ensures sys.Valid()
      ensures var w := old(sys.State());
        var (volumes, domains, r) := Detach(w.volumes, w.domains, w.instances, project, i, v, callOk);
        reply == r && sys.State() == w.(volumes := volumes, domains := domains)
    {
      var row := sys.repo.GetInstance(project, i);
      if row.None? {
        return Refused(NotFound);
      }
      var vol := sys.repo.GetVolume(project, v);
      if vol.None? {
        return Refused(NotFound);
      }
      if vol.value.instance != Some(i) || vol.value.target.None? {
        return Refused(NotAttached);
      }
      if row.value.state.Snapshotting? {
        return Refused(BusySnapshotting);
      }
      var ok := sys.libvirt.DetachVolume(row.value.name, VolumeFile(v), vol.value.target.value, callOk);
      if !ok {
        return Refused(HypervisorFailed);
      }
      var _ := sys.repo.DetachVolumeRecord(project, i, v);
      return Accepted;
    }

    /** Clears every attached row, one by one; a disk that will not detach is only logged. */
    method DetachAllFromInstanceForDestroy(project: Id, i: Id, instanceName: string, callOk: set<Id>)
      requires sys.Valid()
      modifies sys.repo`volumes, sys.libvirt
      ensures sys.Valid()
      ensures sys.repo.volumes == DetachAllRows(old(sys.repo.volumes), project, i)
      ensures sys.libvirt.domains
           == DetachAllDisks(old(sys.repo.volumes), old(sys.libvirt.domains), Sanitized(instanceName), project, i, callOk)
    {
      ghost var volumes0, domains0, name := sys.repo.volumes, sys.libvirt.domains, Sanitized(instanceName);
      var vols := sys.repo.ListVolumesAttachedToInstance(project, i);
      ghost var done: set<Id> := {};
      NothingDetached(volumes0, domains0, name, callOk);
      for k := 0 to |vols|
        invariant sys.Valid()
        invariant done == set v | v in vols[..k] && volumes0[v].target.Some?
        invariant sys.repo.volumes == RowsAfter(volumes0, done)
        invariant sys.libvirt.domains == DisksAfter(volumes0, domains0, name, done, callOk)
      {
        var v := vols[k];
        assert vols[..k + 1] == vols[..k] + [v];
        assert v !in done;
        var target := sys.repo.volumes[v].target;
        if target.None? {
          continue;
        }
        DetachOneMore(volumes0, domains0, name, done, v, callOk);
        var _ := sys.libvirt.DetachVolume(instanceName, VolumeFile(v), target.value, v in callOk);
        var _ := sys.repo.DetachVolumeRecord(project, i, v);
        done := done + {v};
        assert sys.repo.volumes == RowsAfter(volumes0, done);
      }
      assert vols[..|vols|] == vols;
      AllDetached(volumes0, domains0, name, project, i, done, callOk);
    }
  }

  /** The rows after some of them were cleared. */
  function RowsAfter(volumes: map<Id, Volume>, done: set<Id>): map<Id, Volume> {
    map v | v in volumes :: if v in done then Detached(volumes[v]) else volumes[v]
  }

  function LettersFreed(volumes: map<Id, Volume>, disks: map<char, DiskFile>, done: set<Id>, callOk: set<Id>): set<char> {
    set v | v in done && v in volumes && volumes[v].target.Some? && v in callOk
            && volumes[v].target.value in disks && disks[volumes[v].target.value] == VolumeFile(v)
          :: volumes[v].target.value
  }

  function DisksAfter(volumes: map<Id, Volume>, domains: Domains, name: string, done: set<Id>, callOk: set<Id>): Domains {
    if name !in domains then domains
    else
      var d := domains[name];
      domains[name := d.(disks := d.disks - LettersFreed(volumes, d.disks, done, callOk))]
  }

  lemma NothingDetached(volumes: map<Id, Volume>, domains: Domains, name: string, callOk: set<Id>)
    ensures RowsAfter(volumes, {}) == volumes && DisksAfter(volumes, domains, name, {}, callOk) == domains
  {
    if name in domains {
      var d := domains[name];
      assert LettersFreed(volumes, d.disks, {}, callOk) == {};
      assert d.disks - {} == d.disks;
    }
  }

  lemma DetachOneMore(volumes: map<Id, Volume>, domains: Domains, name: string, done: set<Id>, v: Id, callOk: set<Id>)
    requires v in volumes && volumes[v].target.Some? && v !in done
    ensures DetachDisk(DisksAfter(volumes, domains, name, done, callOk), name, volumes[v].target.value, VolumeFile(v), v in callOk).0
         == DisksAfter(volumes, domains, name, done + {v}, callOk)
  {
    if name in domains {
      var disks := domains[name].disks;
      var letter := volumes[v].target.value;
      var before, after := LettersFreed(volumes, disks, done, callOk), LettersFreed(volumes, disks, done + {v}, callOk);
      if v in callOk && letter in disks && disks[letter] == VolumeFile(v) {
        assert after == before + {letter};
        assert letter !in before;
        assert disks - after == (disks - before) - {letter};
      } else {
        assert after == before;
      }
    }
  }

  lemma AllDetached(volumes: map<Id, Volume>, domains: Domains, name: string, project: Id, i: Id, done: set<Id>, callOk: set<Id>)
    requires forall v :: v in done <==> v in volumes && DetachableFrom(volumes, project, i, v)
    ensures RowsAfter(volumes, done) == DetachAllRows(volumes, project, i)
    ensures DisksAfter(volumes, domains, name, done, callOk) == DetachAllDisks(volumes, domains, name, project, i, callOk)
  {
    if name in domains {
      assert LettersFreed(volumes, domains[name].disks, done, callOk) == FreedLetters(volumes, domains[name].disks, project, i, callOk);
    }
  }
}
