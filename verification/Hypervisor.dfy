/** The libvirt adapter: sequences of calls on the domains of the host. */
module Hypervisor {
  import opened Wrappers
  import opened Model
  import opened HostNames
  import opened DiskTargets
  import opened Disks

  class LibvirtAdapter {
    /** What the hypervisor prints at first, before the target of a disk, its file included, and after the last one. */
    const head: string
    const before: (char, DiskFile) -> string
    const rest: string
    var domains: Domains

    /** Nothing printed besides the targets reads like one. */
    ghost predicate PrintsPlainly() {
      Inert(head) && Inert(rest) && forall c, f :: Inert(before(c, f))
    }

    /** Targets are single letters; the scanner knows no others. */
    ghost predicate Valid()
      reads this
    {
      PrintsPlainly() && forall n, c :: n in domains && c in domains[n].disks ==> 'a' <= c <= 'z'
    }

    constructor (head: string, before: (char, DiskFile) -> string, rest: string)
      requires Inert(head) && Inert(rest) && forall c, f :: Inert(before(c, f))
      ensures Valid() && domains == map[]
    {
      this.head, this.before, this.rest := head, before, rest;
      domains := map[];
    }

    /** Replaces the domain of the name it finds, then defines and starts the new one; a failed start is undone if it can be. */
    method CreateVm(instanceName: string, owner: Id, k: VmCalls) returns (ok: bool)
      requires Valid()
      modifies this`domains
      ensures Valid()
      ensures (domains, ok) == Disks.CreateVm(old(domains), Sanitized(instanceName), owner, k)
    {
      var name := SanitizeLibvirtName(instanceName);
      if !k.connect {
        return false;
      }
      ok := RemoveExistingDomain(name, k);
      if !ok {
        return false;
      }
      if !k.files {
        return false;
      }
      if !k.define {
        return false;
      }
      DefineXml(name, owner);
      ghost var defined := domains;
      if !k.start {
        // a forced stop, then the definition is taken back; errors of both are dropped
        if k.stop && domains[name].running {
          domains := domains[name := domains[name].(running := false)];
        }
        assert domains == if k.stop then Halted(defined, name) else defined;
        if k.cleanUp {
          domains := domains - {name};
          assert domains == defined - {name};
        }
        return false;
      }
      if !domains[name].running {
        domains := domains[name := domains[name].(running := true)];
      }
      assert domains == defined[name := defined[name].(running := true)];
      return true;
    }

    method DefineXml(name: string, owner: Id)
      requires Valid()
      modifies this`domains
      ensures Valid() && domains == Defined(old(domains), name, owner)
    {
      var running := name in domains && domains[name].running;
      domains := domains[name := Domain(running, map['a' := RootDisk(owner)])];
    }

    /** An error of the lookup is taken for an absent domain, which needs no removal. */
    method RemoveExistingDomain(name: string, k: VmCalls) returns (ok: bool)
      requires Valid()
      modifies this`domains
      ensures Valid()
      ensures ok == (Found(old(domains), name, k.lookup) ==>
                     k.isActive && (old(domains)[name].running ==> k.stop) && k.undefine)
      ensures ok ==> domains == if Found(old(domains), name, k.lookup) then old(domains) - {name} else old(domains)
      ensures !ok ==>
        domains == if k.isActive && (old(domains)[name].running ==> k.stop) then Halted(old(domains), name) else old(domains)
    {
      if !k.lookup || name !in domains {
        return true;
      }
      if !k.isActive {
        return false;
      }
      if domains[name].running {
        if !k.stop {
          return false;
        }
        domains := domains[name := domains[name].(running := false)];
      }
      if !k.undefine {
        return false;
      }
      domains := domains - {name};
      return true;
    }

    /** Here too an error of the lookup is taken for an absent domain. */
    method DeleteVm(instanceName: string, k: DeleteCalls) returns (ok: bool)
      requires Valid()
      modifies this`domains
      ensures Valid()
      ensures (domains, ok) == Disks.DeleteVm(old(domains), Sanitized(instanceName), k)
    {
      var name := SanitizeLibvirtName(instanceName);
      if !k.connect {
        return false;
      }
      if k.lookup && name in domains {
        if !k.isActive {
          return false;
        }
        if domains[name].running {
          if !k.stop {
            return false;
          }
          domains := domains[name := domains[name].(running := false)];
        }
        assert domains == Halted(old(domains), name);
        if !k.undefine {
          return false;
        }
        domains := domains - {name};
        assert domains == old(domains) - {name};
      }
      return k.files;
    }

    method StartVm(instanceName: string, callOk: bool) returns (ok: bool)
      requires Valid()
      modifies this`domains
      ensures Valid()
      ensures (domains, ok) == Disks.StartVm(old(domains), Sanitized(instanceName), callOk)
    {
      var name := SanitizeLibvirtName(instanceName);
      if name !in domains || !callOk {
        return false;
      }
      if !domains[name].running {
        domains := domains[name := domains[name].(running := true)];
      }
      assert domains == old(domains)[name := old(domains)[name].(running := true)];
      return true;
    }

    /** A guest comes up or goes down on its own. */
    method GuestPower(name: string, running: bool)
      requires Valid() && name in domains
      modifies this`domains
      ensures Valid() && domains == old(domains)[name := old(domains)[name].(running := running)]
    {
      domains := domains[name := domains[name].(running := running)];
    }

    method GracefulShutdown(instanceName: string, callOk: bool) returns (ok: bool)
      ensures (domains, ok) == Disks.GracefulShutdown(domains, Sanitized(instanceName), callOk)
    {
      var name := SanitizeLibvirtName(instanceName);
      return name in domains && callOk;
    }

    method RebootVm(instanceName: string, callOk: bool) returns (ok: bool)
      ensures (domains, ok) == Disks.RebootVm(domains, Sanitized(instanceName), callOk)
    {
      var name := SanitizeLibvirtName(instanceName);
      if name !in domains || !domains[name].running {
        return false;
      }
      return callOk;
    }

    method CreateInternalSnapshot(instanceName: string, callOk: bool) returns (ok: bool)
      ensures (domains, ok) == Disks.CreateInternalSnapshot(domains, Sanitized(instanceName), callOk)
    {
      var name := SanitizeLibvirtName(instanceName);
      return name in domains && callOk;
    }

    method RevertToInternalSnapshot(instanceName: string, wasRunning: bool, runsNow: bool, k: RevertCalls) returns (ok: bool)
      requires Valid()
      modifies this`domains
      ensures Valid()
      ensures (domains, ok) == Disks.RevertToInternalSnapshot(old(domains), Sanitized(instanceName), wasRunning, runsNow, k)
    {
      var name := SanitizeLibvirtName(instanceName);
      if name !in domains || !k.revert {
        return false;
      }
      domains := domains[name := domains[name].(running := k.up)];
      if wasRunning || runsNow {
        if !k.isActive {
          return false;
        }
        if !domains[name].running {
          if !k.start {
            return false;
          }
          domains := domains[name := domains[name].(running := true)];
          assert domains == old(domains)[name := old(domains)[name].(running := true)];
        }
      }
      return true;
    }

    // ---- Disks ------------------------------------------------------------------------------------

    /** Domains whose state cannot be read are left out of the answer. */
    method ListDomainRunning(unseen: set<string>) returns (runs: map<string, bool>)
      ensures runs == map n | n in domains && n !in unseen :: domains[n].running
    {
      runs := map n | n in domains && n !in unseen :: domains[n].running;
    }

    /** Prints the disks of a domain, in any order, and scans the text for the first free letter. */
    method NextVirtioDiskTarget(instanceName: string, callOk: bool) returns (letter: Option<char>)
      requires Valid()
      ensures letter ==
        if Sanitized(instanceName) in domains && callOk then NextLetter(domains[Sanitized(instanceName)].disks) else None
    {
      var name := SanitizeLibvirtName(instanceName);
      if name !in domains || !callOk {
        return None;
      }
      var disks := domains[name].disks;
      var parts := GetXmlDesc(disks);
      var xml := DocumentXml(parts);
      letter := NextVirtioDataDiskTarget(xml);
      ScanFindsTargets(parts);
      assert forall c :: c in Used(xml) <==> c in TargetLetters(parts);
      LeastUnusedIsNext(disks, Used(xml), letter);
    }

    /** The disks in any order, each as whatever is printed before its target and the target. */
    method GetXmlDesc(disks: map<char, DiskFile>) returns (parts: seq<Part>)
      requires PrintsPlainly() && forall c :: c in disks ==> 'a' <= c <= 'z'
      ensures forall p :: p in parts ==> if p.Target? then 'a' <= p.letter <= 'z' else Inert(p.text)
      ensures forall c :: c in TargetLetters(parts) <==> c in disks
    {
      var left := disks.Keys;
      parts := [Other(rest)];
      while left != {}
        invariant left <= disks.Keys
        invariant forall p :: p in parts ==> if p.Target? then 'a' <= p.letter <= 'z' else Inert(p.text)
        invariant forall c :: c in TargetLetters(parts) <==> c in disks && c !in left
        decreases |left|
      {
        var c :| c in left;
        var disk := [Other(before(c, disks[c])), Target(c)];
        TwoMoreParts(before(c, disks[c]), c, parts);
        parts := disk + parts;
        left := left - {c};
      }
      assert ([Other(head)] + parts)[1..] == parts;
      parts := [Other(head)] + parts;
    }

    method AttachVolume(instanceName: string, file: DiskFile, letter: char, callOk: bool) returns (ok: bool)
      requires Valid() && 'a' <= letter <= 'z'
      modifies this`domains
      ensures Valid()
      ensures (domains, ok) == AttachDisk(old(domains), Sanitized(instanceName), letter, file, callOk)
    {
      var name := SanitizeLibvirtName(instanceName);
      if name !in domains || letter in domains[name].disks || !callOk {
        return false;
      }
      domains := domains[name := domains[name].(disks := domains[name].disks[letter := file])];
      return true;
    }

    method DetachVolume(instanceName: string, file: DiskFile, letter: char, callOk: bool) returns (ok: bool)
      requires Valid()
      modifies this`domains
      ensures Valid()
      ensures (domains, ok) == DetachDisk(old(domains), Sanitized(instanceName), letter, file, callOk)
    {
      var name := SanitizeLibvirtName(instanceName);
      if name !in domains || letter !in domains[name].disks || domains[name].disks[letter] != file || !callOk {
        return false;
      }
      domains := domains[name := domains[name].(disks := domains[name].disks - {letter})];
      return true;
    }
  }

  lemma TwoMoreParts(text: string, c: char, parts: seq<Part>)
    ensures TargetLetters([Other(text), Target(c)] + parts) == [c] + TargetLetters(parts)
  {
    var all := [Other(text), Target(c)] + parts;
    assert all[1..] == [Target(c)] + parts && all[1..][1..] == parts;
  }

  /** The scanner's choice on the printed letters is the domain's next letter. */
  lemma LeastUnusedIsNext(disks: map<char, DiskFile>, used: set<char>, letter: Option<char>)
    requires forall c :: c in used <==> c in disks
    requires letter.Some? ==> IsLeastUnused(used, letter.value)
    requires letter.None? <==> forall c :: 'b' <= c <= 'z' ==> c in used
    ensures letter == NextLetter(disks)
  {
  }
}
