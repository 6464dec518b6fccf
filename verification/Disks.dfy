/** Volume rows in the database against the disks of hypervisor domains. */
module Disks {
  import opened Wrappers
  import opened Model
  import opened HostNames
  import opened DiskTargets

  type Volumes = map<Id, Volume>
  type Instances = map<Id, Instance>

  // ---- Domains -------------------------------------------------------------------------------------

  function Halted(domains: Domains, name: string): Domains {
    if name in domains then domains[name := domains[name].(running := false)] else domains
  }

  predicate RunsOnHost(domains: Domains, name: string) {
    name in domains && domains[name].running
  }

  /**
   * Which calls work while a domain is provisioned. A lookup that fails is taken for an absent domain; `files` stands for
   * everything between removal and definition, `stop` for every forced stop.
   */
  datatype VmCalls = VmCalls(
    connect: bool, lookup: bool, isActive: bool, stop: bool, undefine: bool, files: bool, define: bool, start: bool,
    cleanUp: bool)

  /** The domain of the name is there and the lookup says so. */
  predicate Found(domains: Domains, name: string, lookup: bool) {
    lookup && name in domains
  }

  /** A definition under a name in use replaces the disks of the domain and leaves it running or not. */
  function Defined(domains: Domains, name: string, owner: Id): Domains {
    domains[name := Domain(RunsOnHost(domains, name), map['a' := RootDisk(owner)])]
  }

  function CreateVm(domains: Domains, name: string, owner: Id, k: VmCalls): (Domains, bool) {
    var found := Found(domains, name, k.lookup);
    if !k.connect then (domains, false)
    else if found && (!k.isActive || (domains[name].running && !k.stop)) then (domains, false)
    else if found && !k.undefine then (Halted(domains, name), false)
    else
      var bare := if found then domains - {name} else domains;
      if !k.files || !k.define then (bare, false)
      else
        var defined := Defined(bare, name, owner);
        if k.start then (defined[name := defined[name].(running := true)], true)
        else if k.cleanUp then (defined - {name}, false)
        else (if k.stop then Halted(defined, name) else defined, false)
  }

  /** The calls take away a domain that is there, or its disks. */
  predicate Replaces(domains: Domains, name: string, k: VmCalls) {
    && name in domains && k.connect
    && (if k.lookup then k.isActive && (domains[name].running ==> k.stop) && k.undefine else k.files && k.define)
  }

  /** Which calls work while a domain is deleted; `files` is the removal of its directory. */
  datatype DeleteCalls = DeleteCalls(
    connect: bool, lookup: bool, isActive: bool, stop: bool, undefine: bool, files: bool)

  /** A domain that is absent, or whose lookup fails, counts as deleted. */
  function DeleteVm(domains: Domains, name: string, k: DeleteCalls): (Domains, bool) {
    var found := Found(domains, name, k.lookup);
    if !k.connect then (domains, false)
    else if found && (!k.isActive || (domains[name].running && !k.stop)) then (domains, false)
    else if found && !k.undefine then (Halted(domains, name), false)
    else (if found then domains - {name} else domains, k.files)
  }

  function StartVm(domains: Domains, name: string, callOk: bool): (Domains, bool) {
    if name in domains && callOk then (domains[name := domains[name].(running := true)], true) else (domains, false)
  }

  /** An ACPI request: the guest stops later, on its own. */
  function GracefulShutdown(domains: Domains, name: string, callOk: bool): (Domains, bool) {
    (domains, name in domains && callOk)
  }

  function RebootVm(domains: Domains, name: string, callOk: bool): (Domains, bool) {
    (domains, name in domains && domains[name].running && callOk)
  }

  function CreateInternalSnapshot(domains: Domains, name: string, callOk: bool): (Domains, bool) {
    (domains, name in domains && callOk)
  }

  /** Which calls work while a domain is reverted, and whether the guest is up right after the revert itself. */
  datatype RevertCalls = RevertCalls(revert: bool, up: bool, isActive: bool, start: bool)

  /** A guest that ran then or runs now is started if it is not up; a call that fails after the revert leaves it reverted. */
  function RevertToInternalSnapshot(domains: Domains, name: string, wasRunning: bool, runsNow: bool, k: RevertCalls)
    : (Domains, bool)
  {
    if name !in domains || !k.revert then (domains, false)
    else
      var reverted := domains[name := domains[name].(running := k.up)];
      if !wasRunning && !runsNow then (reverted, true)
      else if !k.isActive then (reverted, false)
      else if k.up then (reverted, true)
      else if k.start then (domains[name := domains[name].(running := true)], true)
      else (reverted, false)
  }

  function FreeLetterFrom(disks: map<char, DiskFile>, from: int): (r: Option<char>)
    requires 'b' as int <= from <= 'z' as int + 1
    requires forall c :: 'b' <= c && c as int < from ==> c in disks
    ensures r.Some? ==> IsLeastUnused(disks.Keys, r.value)
    ensures r.None? ==> forall c :: 'b' <= c <= 'z' ==> c in disks
    decreases 'z' as int + 1 - from
  {
    if from > 'z' as int then None
    else if from as char !in disks then Some(from as char)
    else FreeLetterFrom(disks, from + 1)
  }

  /** The least unused letter from b to z, or none. */
  function NextLetter(disks: map<char, DiskFile>): (r: Option<char>)
    ensures r.Some? ==> IsLeastUnused(disks.Keys, r.value)
    ensures r.None? ==> forall c :: 'b' <= c <= 'z' ==> c in disks
  {
    FreeLetterFrom(disks, 'b' as int)
  }

  function AttachDisk(domains: Domains, name: string, letter: char, file: DiskFile, callOk: bool): (Domains, bool) {
    if name in domains && letter !in domains[name].disks && callOk then
      (domains[name := domains[name].(disks := domains[name].disks[letter := file])], true)
    else (domains, false)
  }

  function DetachDisk(domains: Domains, name: string, letter: char, file: DiskFile, callOk: bool): (Domains, bool) {
    if name in domains && letter in domains[name].disks && domains[name].disks[letter] == file && callOk then
      (domains[name := domains[name].(disks := domains[name].disks - {letter})], true)
    else (domains, false)
  }

  // ---- Volume rows ------------------------------------------------------------------------------------

  predicate VolumeNameTaken(volumes: Volumes, project: Id, name: string) {
    exists v :: v in volumes && volumes[v].project == project && volumes[v].name == name
  }

  /** The row is written first; if the file cannot be made the row says so. */
  function CreateVolume(volumes: Volumes, project: Id, v: Id, name: string, fileOk: bool): (Volumes, Reply) {
    if v in volumes || VolumeNameTaken(volumes, project, name) then (volumes, Refused(Duplicate))
    else if fileOk then (volumes[v := Volume(project, name, Available, None, None)], Accepted)
    else (volumes[v := Volume(project, name, VolumeError, None, None)], Refused(StorageFailed))
  }

  predicate OwnsVolume(volumes: Volumes, project: Id, v: Id) {
    v in volumes && volumes[v].project == project
  }

  function DeleteVolume(volumes: Volumes, project: Id, v: Id): (Volumes, Reply) {
    if !OwnsVolume(volumes, project, v) then (volumes, Refused(NotFound))
    else if volumes[v].instance.Some? then (volumes, Refused(VolumeInUse))
    else (volumes - {v}, Accepted)
  }

  predicate Attachable(volumes: Volumes, project: Id, v: Id) {
    OwnsVolume(volumes, project, v) && volumes[v].status.Available? && volumes[v].instance.None?
  }

  function AttachRecord(volumes: Volumes, project: Id, v: Id, i: Id, letter: char): Volumes {
    if Attachable(volumes, project, v) then
      volumes[v := volumes[v].(status := InUse, instance := Some(i), target := Some(letter))]
    else volumes
  }

  predicate AttachedTo(volumes: Volumes, project: Id, i: Id, v: Id) {
    OwnsVolume(volumes, project, v) && volumes[v].instance == Some(i)
  }

  function Detached(row: Volume): Volume {
    row.(status := Available, instance := None, target := None)
  }

  function DetachRecord(volumes: Volumes, project: Id, i: Id, v: Id): Volumes {
    if AttachedTo(volumes, project, i, v) then volumes[v := Detached(volumes[v])] else volumes
  }

  /** Which calls work while a volume is attached. */
  datatype AttachCalls = AttachCalls(listOk: bool, attachOk: bool, recordOk: bool, undoOk: bool)

  /** Picks a letter, attaches the disk, records it; a failed record is compensated by detaching. */
  function Attach(volumes: Volumes, domains: Domains, instances: Instances, project: Id, i: Id, v: Id, c: AttachCalls)
    : (Volumes, Domains, Reply)
  {
    if !(i in instances && instances[i].project == project) then (volumes, domains, Refused(NotFound))
    else if instances[i].state.Snapshotting? then (volumes, domains, Refused(BusySnapshotting))
    else if !instances[i].state.Running? then (volumes, domains, Refused(NotRunning))
    else if !OwnsVolume(volumes, project, v) then (volumes, domains, Refused(NotFound))
    else if !Attachable(volumes, project, v) then (volumes, domains, Refused(VolumeNotAvailable))
    else
      var name := Sanitized(instances[i].name);
      if name !in domains || !c.listOk then (volumes, domains, Refused(HypervisorFailed))
      else
        var letter := NextLetter(domains[name].disks);
        if letter.None? then (volumes, domains, Refused(HypervisorFailed))
        else
          var (attached, ok) := AttachDisk(domains, name, letter.value, VolumeFile(v), c.attachOk);
          if !ok then (volumes, domains, Refused(HypervisorFailed))
          else if c.recordOk then (AttachRecord(volumes, project, v, i, letter.value), attached, Accepted)
          else (volumes, DetachDisk(attached, name, letter.value, VolumeFile(v), c.undoOk).0, Refused(NotFound))
  }

  /** Detaches the disk, then clears the row. */
  function Detach(volumes: Volumes, domains: Domains, instances: Instances, project: Id, i: Id, v: Id, callOk: bool)
    : (Volumes, Domains, Reply)
  {
    if !(i in instances && instances[i].project == project) then (volumes, domains, Refused(NotFound))
    else if !OwnsVolume(volumes, project, v) then (volumes, domains, Refused(NotFound))
    else if volumes[v].instance != Some(i) || volumes[v].target.None? then (volumes, domains, Refused(NotAttached))
    else if instances[i].state.Snapshotting? then (volumes, domains, Refused(BusySnapshotting))
    else
      var (detached, ok) :=
        DetachDisk(domains, Sanitized(instances[i].name), volumes[v].target.value, VolumeFile(v), callOk);
      if !ok then (volumes, domains, Refused(HypervisorFailed))
      else (DetachRecord(volumes, project, i, v), detached, Accepted)
  }

  predicate DetachableFrom(volumes: Volumes, project: Id, i: Id, v: Id) {
    AttachedTo(volumes, project, i, v) && volumes[v].target.Some?
  }

  /** Before a destroy every attached row is cleared, whether or not the hypervisor detached its disk. */
  function DetachAllRows(volumes: Volumes, project: Id, i: Id): Volumes {
    map v | v in volumes :: if DetachableFrom(volumes, project, i, v) then Detached(volumes[v]) else volumes[v]
  }

  /** Letters freed by the detach calls that worked. */
  function FreedLetters(volumes: Volumes, disks: map<char, DiskFile>, project: Id, i: Id, callOk: set<Id>): set<char> {
    set v | v in volumes && DetachableFrom(volumes, project, i, v) && v in callOk
            && volumes[v].target.value in disks && disks[volumes[v].target.value] == VolumeFile(v)
          :: volumes[v].target.value
  }

  function DetachAllDisks(volumes: Volumes, domains: Domains, name: string, project: Id, i: Id, callOk: set<Id>): Domains {
    if name !in domains then domains
    else
      var d := domains[name];
      domains[name := d.(disks := d.disks - FreedLetters(volumes, d.disks, project, i, callOk))]
  }

  // ---- The invariant --------------------------------------------------------------------------------------

  /** An in-use row names a live instance of its project and the target at which that domain holds its file. */
  ghost predicate VolumeRowOk(v: Id, row: Volume, instances: Instances, domains: Domains) {
    && (row.status.InUse? <==> row.instance.Some?)
    && (row.instance.Some? <==> row.target.Some?)
    && (row.instance.Some? ==>
        && row.instance.value in instances
        && instances[row.instance.value].project == row.project
        && HoldsFile(domains, Sanitized(instances[row.instance.value].name), row.target.value, v))
  }

  predicate HoldsFile(domains: Domains, name: string, letter: char, v: Id) {
    && name in domains && 'b' <= letter <= 'z'
    && letter in domains[name].disks && domains[name].disks[letter] == VolumeFile(v)
  }

  ghost predicate VolumesOk(volumes: Volumes, instances: Instances, domains: Domains) {
    forall v :: v in volumes ==> VolumeRowOk(v, volumes[v], instances, domains)
  }

  /** Live instances have distinct domain names. */
  ghost predicate NamesDistinct(instances: Instances) {
    forall i, j :: i in instances && j in instances && Sanitized(instances[i].name) == Sanitized(instances[j].name) ==> i == j
  }

  // ---- Consequences -------------------------------------------------------------------------------------------

  function AttachedVolumes(volumes: Volumes, i: Id): set<Id> {
    set v | v in volumes && volumes[v].instance == Some(i)
  }

  /** Targets on one instance are pairwise distinct and never the root disk's. */
  lemma TargetsAreDistinct(volumes: Volumes, instances: Instances, domains: Domains, i: Id, v: Id, w: Id)
    requires VolumesOk(volumes, instances, domains)
    requires v in AttachedVolumes(volumes, i) && w in AttachedVolumes(volumes, i)
    ensures volumes[v].target.Some? && volumes[v].target.value != 'a'
    ensures volumes[v].target == volumes[w].target ==> v == w
  {
  }

  lemma {:induction false} InjectionBound(vs: set<Id>, volumes: Volumes, letters: set<char>)
    requires forall v :: v in vs ==> v in volumes && volumes[v].target.Some? && volumes[v].target.value in letters
    requires forall v, w :: v in vs && w in vs && volumes[v].target == volumes[w].target ==> v == w
    ensures |vs| <= |letters|
  {
    if vs != {} {
      var v :| v in vs;
      InjectionBound(vs - {v}, volumes, letters - {volumes[v].target.value});
    }
  }

  predicate DataLetter(x: char) {
    'b' <= x <= 'z'
  }

  function DataLettersBelow(c: int): set<char>
    requires 'b' as int <= c <= 'z' as int + 1
  {
    set x: char | DataLetter(x) && x as int < c
  }

  lemma {:induction false} DataLetterCount(c: int)
    requires 'b' as int <= c <= 'z' as int + 1
    ensures |DataLettersBelow(c)| == c - 'b' as int
    decreases c
  {
    if c > 'b' as int {
      DataLetterCount(c - 1);
      assert DataLettersBelow(c) == DataLettersBelow(c - 1) + {(c - 1) as char};
    } else {
      assert DataLettersBelow(c) == {};
    }
  }

  /** At most 25 volumes are attached to one instance. */
  lemma AtMost25Volumes(volumes: Volumes, instances: Instances, domains: Domains, i: Id)
    requires VolumesOk(volumes, instances, domains)
    ensures |AttachedVolumes(volumes, i)| <= 25
  {
    var vs := AttachedVolumes(volumes, i);
    forall v, w | v in vs && w in vs
      ensures volumes[v].target.Some? && volumes[v].target.value in DataLettersBelow('z' as int + 1)
      ensures volumes[v].target == volumes[w].target ==> v == w
    {
      TargetsAreDistinct(volumes, instances, domains, i, v, w);
      assert VolumeRowOk(v, volumes[v], instances, domains);
    }
    InjectionBound(vs, volumes, DataLettersBelow('z' as int + 1));
    DataLetterCount('z' as int + 1);
  }

  // ---- Attach and detach ---------------------------------------------------------------------------------------

  lemma DiskAddedKeeps(volumes: Volumes, domains: Domains, instances: Instances, name: string, letter: char, file: DiskFile, callOk: bool)
    requires VolumesOk(volumes, instances, domains) && NamesDistinct(instances)
    ensures var domains' := AttachDisk(domains, name, letter, file, callOk).0;
      VolumesOk(volumes, instances, domains') && domains'.Keys == domains.Keys
  {
    var domains' := AttachDisk(domains, name, letter, file, callOk).0;
    forall u | u in volumes ensures VolumeRowOk(u, volumes[u], instances, domains') {
      assert VolumeRowOk(u, volumes[u], instances, domains);
    }
  }

  lemma AttachDiskUndone(domains: Domains, name: string, letter: char, file: DiskFile)
    ensures var (attached, ok) := AttachDisk(domains, name, letter, file, true);
      ok ==> DetachDisk(attached, name, letter, file, true) == (domains, true)
  {
    var (attached, ok) := AttachDisk(domains, name, letter, file, true);
    if ok {
      var back := DetachDisk(attached, name, letter, file, true).0;
      assert domains[name].disks[letter := file] - {letter} == domains[name].disks;
      assert back[name] == domains[name];
      assert back == domains;
    }
  }

  lemma RecordKeeps(volumes: Volumes, domains: Domains, instances: Instances, project: Id, i: Id, v: Id, letter: char)
    requires VolumesOk(volumes, instances, domains)
    requires i in instances && instances[i].project == project && HoldsFile(domains, Sanitized(instances[i].name), letter, v)
    ensures VolumesOk(AttachRecord(volumes, project, v, i, letter), instances, domains)
  {
  }

  lemma AttachKeeps(volumes: Volumes, domains: Domains, instances: Instances, project: Id, i: Id, v: Id, c: AttachCalls)
    requires VolumesOk(volumes, instances, domains) && NamesDistinct(instances)
    ensures var (volumes', domains', reply) := Attach(volumes, domains, instances, project, i, v, c);
      && VolumesOk(volumes', instances, domains')
      && domains'.Keys == domains.Keys
  {
    hide VolumesOk, DetachDisk, AttachRecord;
    if i in instances && Sanitized(instances[i].name) in domains {
      var name := Sanitized(instances[i].name);
      var letter := NextLetter(domains[name].disks);
      if letter.Some? {
        var attached := AttachDisk(domains, name, letter.value, VolumeFile(v), true).0;
        DetachFails(attached, name, letter.value, VolumeFile(v));
        DiskAddedKeeps(volumes, domains, instances, name, letter.value, VolumeFile(v), true);
        AttachDiskUndone(domains, name, letter.value, VolumeFile(v));
        if instances[i].project == project {
          RecordKeeps(volumes, attached, instances, project, i, v, letter.value);
        }
      }
    }
  }

  lemma DetachFails(domains: Domains, name: string, letter: char, file: DiskFile)
    ensures DetachDisk(domains, name, letter, file, false).0 == domains
  {
  }

  /** A failed attach leaves both sides as they were, unless its own compensation fails. */
  lemma FailedAttachIsUndone(volumes: Volumes, domains: Domains, instances: Instances, project: Id, i: Id, v: Id, c: AttachCalls)
    requires Attach(volumes, domains, instances, project, i, v, c).2.Refused? && (c.recordOk || c.undoOk)
    ensures Attach(volumes, domains, instances, project, i, v, c).0 == volumes
    ensures Attach(volumes, domains, instances, project, i, v, c).1 == domains
  {
    if i in instances && Sanitized(instances[i].name) in domains {
      var name := Sanitized(instances[i].name);
      var letter := NextLetter(domains[name].disks);
      if letter.Some? {
        AttachDiskUndone(domains, name, letter.value, VolumeFile(v));
      }
    }
  }

  /** A successful attach uses the least free letter and is seen on both sides. */
  lemma AttachIsRecorded(volumes: Volumes, domains: Domains, instances: Instances, project: Id, i: Id, v: Id, c: AttachCalls)
    requires Attach(volumes, domains, instances, project, i, v, c).2.Accepted?
    ensures var (volumes', domains', _) := Attach(volumes, domains, instances, project, i, v, c);
      && v in volumes && i in instances && Sanitized(instances[i].name) in domains
      && volumes'[v].instance == Some(i) && volumes'[v].target.Some?
      && IsLeastUnused(domains[Sanitized(instances[i].name)].disks.Keys, volumes'[v].target.value)
      && HoldsFile(domains', Sanitized(instances[i].name), volumes'[v].target.value, v)
      && volumes' == volumes[v := volumes'[v]]
  {
  }

  lemma DetachKeeps(volumes: Volumes, domains: Domains, instances: Instances, project: Id, i: Id, v: Id, callOk: bool)
    requires VolumesOk(volumes, instances, domains) && NamesDistinct(instances)
    ensures var (volumes', domains', reply) := Detach(volumes, domains, instances, project, i, v, callOk);
      && VolumesOk(volumes', instances, domains')
      && domains'.Keys == domains.Keys
  {
    var (volumes', domains', reply) := Detach(volumes, domains, instances, project, i, v, callOk);
    if reply.Accepted? {
      var name, letter := Sanitized(instances[i].name), volumes[v].target.value;
      assert domains' == domains[name := domains[name].(disks := domains[name].disks - {letter})];
      forall u | u in volumes' ensures VolumeRowOk(u, volumes'[u], instances, domains') {
        assert VolumeRowOk(u, volumes[u], instances, domains);
        if u != v && volumes[u].instance.Some? {
          OtherDiskStays(volumes, instances, domains, i, v, u);
        }
      }
    }
  }

  /** Another volume's disk is on another domain or at another letter. */
  lemma OtherDiskStays(volumes: Volumes, instances: Instances, domains: Domains, i: Id, v: Id, u: Id)
    requires VolumesOk(volumes, instances, domains)
    requires v in volumes && u in volumes && u != v && volumes[v].instance == Some(i) && volumes[u].instance.Some?
    ensures volumes[v].target.Some? && i in instances && volumes[u].instance.value in instances && volumes[u].target.Some?
    ensures var name, letter := Sanitized(instances[i].name), volumes[v].target.value;
      && name in domains
      && HoldsFile(domains[name := domains[name].(disks := domains[name].disks - {letter})],
                   Sanitized(instances[volumes[u].instance.value].name), volumes[u].target.value, u)
  {
  }

  /** A detach undoes an attach: both sides are as before. */
  lemma DetachUndoesAttach(volumes: Volumes, domains: Domains, instances: Instances, project: Id, i: Id, v: Id, c: AttachCalls)
    requires Attach(volumes, domains, instances, project, i, v, c).2.Accepted? && volumes[v].target.None?
    ensures var (volumes', domains', _) := Attach(volumes, domains, instances, project, i, v, c);
      Detach(volumes', domains', instances, project, i, v, true) == (volumes, domains, Accepted)
  {
    var (volumes', domains', _) := Attach(volumes, domains, instances, project, i, v, c);
    var name := Sanitized(instances[i].name);
    var letter := NextLetter(domains[name].disks).value;
    AttachDiskUndone(domains, name, letter, VolumeFile(v));
    assert Detached(volumes'[v]) == volumes[v];
    assert DetachRecord(volumes', project, i, v) == volumes;
  }

  // ---- Domains changed by handlers ----------------------------------------------------------------------------------

  /** Two domain tables with the same disks. */
  ghost predicate SameDisks(a: Domains, b: Domains) {
    a.Keys == b.Keys && forall n :: n in a ==> b[n].disks == a[n].disks
  }

  lemma RunningFlagDoesNotMatter(volumes: Volumes, instances: Instances, a: Domains, b: Domains)
    requires VolumesOk(volumes, instances, a) && SameDisks(a, b)
    ensures VolumesOk(volumes, instances, b)
  {
  }

  lemma StatesDoNotMatterForVolumes(volumes: Volumes, a: Instances, b: Instances, domains: Domains)
    requires VolumesOk(volumes, a, domains) && NamesDistinct(a)
    requires a.Keys == b.Keys && forall i :: i in a ==> b[i] == a[i].(state := b[i].state)
    ensures VolumesOk(volumes, b, domains) && NamesDistinct(b)
  {
  }

  /** After every row of an instance is cleared its domain may be changed or deleted freely. */
  lemma DestroyKeepsVolumes(volumes: Volumes, instances: Instances, domains: Domains, domains': Domains, project: Id, i: Id)
    requires VolumesOk(volumes, instances, domains) && NamesDistinct(instances)
    requires i in instances && instances[i].project == project
    requires var name := Sanitized(instances[i].name);
      domains'.Keys <= domains.Keys && domains.Keys - {name} <= domains'.Keys
      && forall n :: n in domains' && n != name ==> domains'[n] == domains[n]
    ensures var volumes' := DetachAllRows(volumes, project, i);
      && VolumesOk(volumes', instances, domains')
      && (forall v :: v in volumes' ==> volumes'[v].instance != Some(i))
      && (forall v :: v in volumes && volumes[v].instance != Some(i) ==> volumes'[v] == volumes[v])
      && (forall v :: v in volumes && volumes[v].instance == Some(i) ==> volumes'[v].status == Available)
  {
    var volumes' := DetachAllRows(volumes, project, i);
    forall v | v in volumes'
      ensures VolumeRowOk(v, volumes'[v], instances, domains')
      ensures volumes[v].instance == Some(i) ==> DetachableFrom(volumes, project, i, v)
    {
      assert VolumeRowOk(v, volumes[v], instances, domains);
    }
  }

  /** Once nothing refers to an instance, its row can go, whatever became of its domain. */
  lemma InstanceGone(volumes: Volumes, instances: Instances, domains: Domains, i: Id)
    requires VolumesOk(volumes, instances, domains) && NamesDistinct(instances)
    requires forall v :: v in volumes ==> volumes[v].instance != Some(i)
    ensures VolumesOk(volumes, instances - {i}, domains) && NamesDistinct(instances - {i})
  {
    forall v | v in volumes ensures VolumeRowOk(v, volumes[v], instances - {i}, domains) {
      assert VolumeRowOk(v, volumes[v], instances, domains);
    }
  }

  lemma NewInstanceKeeps(volumes: Volumes, instances: Instances, domains: Domains, i: Id, row: Instance)
    requires VolumesOk(volumes, instances, domains) && NamesDistinct(instances) && i !in instances
    requires forall j :: j in instances ==> Sanitized(instances[j].name) != Sanitized(row.name)
    ensures VolumesOk(volumes, instances[i := row], domains) && NamesDistinct(instances[i := row])
  {
    forall v | v in volumes ensures VolumeRowOk(v, volumes[v], instances[i := row], domains) {
      assert VolumeRowOk(v, volumes[v], instances, domains);
    }
  }
}
