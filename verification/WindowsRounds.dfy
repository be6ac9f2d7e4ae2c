/**
 The Windows reconcile as the controller runs it (handleReset and updateVirtualMachine of
 internal/controller/workspace_controller.go; finishWindowsLifecycle, reconcileWindowsBootstrap and
 windowsReady of internal/controller/vm_windows_guest.go), with users, KubeVirt and the garbage
 collector acting before every API call. The methods read and write the stored objects themselves; after each
 call `Note` demands that the objects are exactly as the machine of `WindowsGuest` says and advances only its
 program counter and history. So every execution is a run of that machine, and everything proved there about
 all runs holds for it.

 The model has one Workspace and at most one VM, so they are plain fields and not entries of a `Store`;
 `UpdateWorkspace`, `UpdateVm` and `DeleteVm` are the conditional update and the (foreground) delete of `ApiServer`
 for a store with that single name.
 */
module WindowsRounds {
  import opened ApiServer
  import opened WindowsGuest

  const RETRIES := 5

  /** The bootstrap Secret of a generation, fit for a guest that still has to be set up, or for one that is. */
  ghost predicate Seeded(v: Vault, g: string, provisioned: bool) {
    && Owned(v, g) && g in v.first
    && v.secrets[g].password == v.first[g] != ""
    && (!provisioned ==> v.secrets[g].answer && v.secrets[g].token)
  }

  /** What success promises of the VM: run state, bootstrap disc, and at least the desired hardware. */
  ghost predicate Delivered(m: Machine, ws: Workspace) {
    && m.vm.Some?
    && var vm := m.vm.value;
       (vm.run == Running(true) <==> Active(ws)) && vm.sysprep == DesiredSysprep(ws) && Carries(vm.gpu, ws.gpu)
  }

  /** The Secrets the controller owns are the same, with the same contents. */
  ghost predicate SameOwned(v: Vault, w: Vault) {
    && (forall g :: Owned(v, g) <==> Owned(w, g))
    && (forall g :: Owned(v, g) && Owned(w, g) ==> w.secrets[g] == v.secrets[g])
  }

  /** Two states with the same stored objects, whatever the program counter and the history say. */
  ghost predicate SameObjects(s: System, t: System) {
    s.record.version == t.record.version && s.record.ws == t.record.ws && s.vault.secrets == t.vault.secrets && s.machine == t.machine
  }

  class ControlPlane {
    var system: System
    /** What the other actors do before each of the controller's calls. */
    var schedule: seq<seq<Event>>
    ghost var trace: seq<Event>
    ghost const gpu: Hardware

    ghost predicate Valid()
      reads this
    {
      system == Run(Initial(gpu), trace)
    }

    /** Something another actor does. */
    method Happen(e: Event)
      requires Valid()
      modifies `system, `trace
      ensures Valid() && trace == old(trace) + [e] && system == Next(old(system), e)
    {
      assert (trace + [e])[..|trace|] == trace;
      system := Next(system, e);
      trace := trace + [e];
    }

    /** A call of the controller has been made: its effect on the stored objects is the machine's. */
    method Note(before: System, ch: Choice)
      requires before == Run(Initial(gpu), trace) && SameObjects(system, Act(before, ch))
      modifies `system, `trace
      ensures Valid() && trace == old(trace) + [Controller(ch)] && system == Act(before, ch)
    {
      assert (trace + [Controller(ch)])[..|trace|] == trace;
      var next := Act(before, ch);
      system := System(system.record.(generations := next.record.generations), system.vault.(first := next.vault.first), system.machine, next.pc);
      trace := trace + [Controller(ch)];
    }

    /** The others' turn. They do not touch the Secrets the controller owns, nor hand out generations. */
    method Others()
      requires Valid()
      modifies this
      ensures Valid() && old(trace) <= trace
      ensures system.pc == old(system.pc) && system.record.generations == old(system.record.generations)
      ensures system.vault.first == old(system.vault.first)
      ensures SameOwned(old(system.vault), system.vault)
    {
      if schedule == [] {
        return;
      }
      var batch := schedule[0];
      schedule := schedule[1..];
      for i := 0 to |batch|
        invariant Valid() && old(trace) <= trace
        invariant system.pc == old(system.pc) && system.record.generations == old(system.record.generations)
        invariant system.vault.first == old(system.vault.first)
        invariant SameOwned(old(system.vault), system.vault)
      {
        if !batch[i].Controller? && !batch[i].Crash? {
          Happen(batch[i]);
        }
      }
    }

    // ---------------------------------------------------------------- the API server

    method UpdateWorkspace(version: nat, ws: Workspace) returns (ok: bool)
      modifies `system
      ensures ok == (old(system.record.version) == version)
      ensures system == if ok then old(system).(record := old(system.record).(version := version + 1, ws := ws)) else old(system)
    {
      ok := system.record.version == version;
      if ok {
        system := system.(record := system.record.(version := version + 1, ws := ws));
      }
    }

    method UpdateVm(vm: Vm) returns (outcome: Outcome)
      modifies `system
      ensures outcome == if old(system.machine.vm).None? then NotFound
                         else if old(system.machine.vm).value.version != vm.version then Conflict else Done
      ensures system == if outcome == Done
                        then old(system).(machine := old(system.machine).(vm := Some(vm.(version := old(system.machine.clock))), clock := old(system.machine.clock) + 1))
                        else old(system)
    {
      if system.machine.vm.None? {
        return NotFound;
      }
      if system.machine.vm.value.version != vm.version {
        return Conflict;
      }
      var m := system.machine;
      system := system.(machine := m.(vm := Some(vm.(version := m.clock)), clock := m.clock + 1));
      return Done;
    }

    /** A foreground deletion marks the VM; the garbage collector finishes it later. */
    method DeleteVm()
      modifies `system
      ensures system == if old(system.machine.vm).None? || old(system.machine.vm).value.deleting then old(system)
                        else old(system).(machine := old(system.machine).(
                               vm := Some(old(system.machine.vm).value.(deleting := true, version := old(system.machine.clock))),
                               clock := old(system.machine.clock) + 1))
    {
      var m := system.machine;
      if m.vm.Some? && !m.vm.value.deleting {
        system := system.(machine := m.(vm := Some(m.vm.value.(deleting := true, version := m.clock)), clock := m.clock + 1));
      }
    }

    method PutSecret(name: string, secret: Secret)
      modifies `system
      ensures system == old(system).(vault := old(system.vault).(secrets := old(system.vault.secrets)[name := secret]))
    {
      system := system.(vault := system.vault.(secrets := system.vault.secrets[name := secret]));
    }

    // ---------------------------------------------------------------- reset

    /** handleReset, entered with a Workspace copy that asks for a reset. */
    method HandleReset(ch: Choice) returns (consumed: bool)
      requires Valid() && system.pc.Busy? && system.pc.at.ResetReadVm? && system.pc.copy.ws.reset
      requires ch.generation != "" && ch.generation !in system.record.generations
      modifies this
      ensures Valid() && old(trace) <= trace && system.pc.Idle?
      ensures consumed ==>
                && system.machine.vm.None?
                && system.record.ws == Fresh(old(system.pc.copy.ws), ch.generation)
                && !Owned(system.vault, old(system.pc.copy.ws.generation))
    {
      consumed := false;
      Others();
      var found := system.machine.vm;
      Note(system, ch);
      if found.Some? {
        if !found.value.deleting {
          StopOrDelete(found.value, ch);
        }
        return;
      }
      consumed := ResetWindowsGeneration(ch);
    }

    /** A running VM is stopped; a stopped one is deleted once its VMI is gone. */
    method StopOrDelete(found: Vm, ch: Choice)
      requires Valid() && system.pc.Busy?
      requires system.pc.at == if found.run == Running(true) then ResetStop(found) else ResetReadVmi
      modifies this
      ensures Valid() && old(trace) <= trace && system.pc.Idle?
    {
      Others();
      var before := system;
      if found.run == Running(true) {
        RunKeepsInv(gpu, trace);
        var outcome := UpdateVm(found.(run := Running(false)));
        Note(before, ch);
        return;
      }
      var vmi := system.machine.vmi;
      Note(before, ch);
      if vmi {
        return;
      }
      Others();
      before := system;
      DeleteVm();
      Note(before, ch);
    }

    /** resetWindowsGeneration and the write that consumes the annotation. */
    method ResetWindowsGeneration(ch: Choice) returns (consumed: bool)
      requires Valid() && system.pc.Busy? && system.pc.at.ResetReadSecret?
      requires ch.generation != "" && ch.generation !in system.record.generations
      modifies this
      ensures Valid() && old(trace) <= trace && system.pc.Idle?
      ensures consumed ==>
                && system.machine.vm.None?
                && system.record.ws == Fresh(old(system.pc.copy.ws), ch.generation)
                && !Owned(system.vault, old(system.pc.copy.ws.generation))
    {
      consumed := false;
      var copy := system.pc.copy;
      Others();
      var name := copy.ws.generation;
      var existing := name in system.vault.secrets;
      var owned := existing && system.vault.secrets[name].controlled;
      Note(system, ch);
      if existing {
        if !owned {
          return;
        }
        DeleteSecret(copy, ch);
      }
      consumed := CommitReset(copy, ch);
    }

    method DeleteSecret(copy: Copy, ch: Choice)
      requires Valid() && system.pc == Busy(copy, ResetDeleteSecret) && Owned(system.vault, copy.ws.generation)
      modifies this
      ensures Valid() && old(trace) <= trace && system.record.generations == old(system.record.generations)
      ensures system.pc == Busy(copy, ResetCommit) && copy.ws.generation !in system.vault.secrets
    {
      Others();
      var before := system;
      assert Owned(system.vault, copy.ws.generation);
      system := system.(vault := system.vault.(secrets := system.vault.secrets - {copy.ws.generation}));
      Note(before, ch);
    }

    /** A new generation, no marks of the old one, no reset: one conditional write. */
    method CommitReset(copy: Copy, ch: Choice) returns (consumed: bool)
      requires Valid() && system.pc == Busy(copy, ResetCommit) && !Owned(system.vault, copy.ws.generation)
      requires ch.generation != "" && ch.generation !in system.record.generations
      modifies this
      ensures Valid() && old(trace) <= trace && system.pc.Idle?
      ensures consumed ==>
                && system.machine.vm.None?
                && system.record.ws == Fresh(copy.ws, ch.generation)
                && !Owned(system.vault, copy.ws.generation)
    {
      Others();
      var before := system;
      RunKeepsInv(gpu, trace);
      var ws := copy.ws;
      ws := ws.(generation := ch.generation);
      ws := ws.(provisioned := "", detaching := "");
      ws := ws.(reset := false);
      consumed := UpdateWorkspace(copy.version, ws);
      Note(before, ch);
    }

    // ---------------------------------------------------------------- finishing a detach or a reboot

    /**
     finishWindowsDetach, entered when the mark names the current generation. Without a VMI the answer file is
     removed before the mark; with one the mark stays.
     */
    method FinishWindowsDetach(ch: Choice) returns (ok: bool)
      requires Valid() && system.pc.Busy? && system.pc.at.DetachReadVmi?
      modifies this
      ensures Valid() && old(trace) <= trace
      ensures if ok then system.pc.Busy? && system.pc == AfterDetach(system.pc.copy) else system.pc.Idle?
      ensures ok && system.pc.copy.ws.detaching == "" ==>
                Owned(system.vault, system.pc.copy.ws.generation) && !system.vault.secrets[system.pc.copy.ws.generation].answer
      ensures ok && system.pc.copy.ws.detaching != "" ==> system.pc.copy == old(system.pc.copy)
    {
      var copy := system.pc.copy;
      RunKeepsInv(gpu, trace);
      Others();
      var vmi := system.machine.vmi;
      Note(system, ch);
      if vmi {
        return true;
      }
      var removed := RemoveAnswerFile(copy, ch);
      if !removed {
        return false;
      }
      ok := RemoveDetachMark(copy, ch);
    }

    method RemoveAnswerFile(copy: Copy, ch: Choice) returns (ok: bool)
      requires Valid() && system.pc == Busy(copy, DetachReadSecret)
      modifies this
      ensures Valid() && old(trace) <= trace
      ensures system.pc == if ok then Busy(copy, DetachCommit) else Idle
    {
      Others();
      ok := Owned(system.vault, copy.ws.generation);
      var before := system;
      Note(before, ch);
      if ok {
        var secret := before.vault.secrets[copy.ws.generation];
        Others();
        before := system;
        assert Owned(system.vault, copy.ws.generation);
        PutSecret(copy.ws.generation, secret.(answer := false));
        Note(before, ch);
      }
    }

    method RemoveDetachMark(copy: Copy, ch: Choice) returns (ok: bool)
      requires Valid() && system.pc == Busy(copy, DetachCommit)
      modifies this
      ensures Valid() && old(trace) <= trace
      ensures if ok then system.pc == AfterDetach(Copy(copy.version + 1, copy.ws.(detaching := ""))) else system.pc.Idle?
      ensures ok ==> Owned(system.vault, copy.ws.generation) && !system.vault.secrets[copy.ws.generation].answer
    {
      Others();
      RunKeepsInv(gpu, trace);
      var before := system;
      ok := UpdateWorkspace(copy.version, copy.ws.(detaching := ""));
      Note(before, ch);
    }

    /** finishWindowsReboot, entered with a reboot mark: it is removed once the VMI is gone. */
    method FinishWindowsReboot(ch: Choice) returns (ok: bool)
      requires Valid() && system.pc.Busy? && system.pc.at.RebootReadVmi?
      modifies this
      ensures Valid() && old(trace) <= trace
      ensures if ok then system.pc.Busy? && system.pc == AfterReboot(system.pc.copy) else system.pc.Idle?
      ensures ok && system.pc.copy != old(system.pc.copy) ==>
                system.pc.copy.ws == old(system.pc.copy.ws).(reboot := "") == system.record.ws
    {
      var copy := system.pc.copy;
      Others();
      var vmi := system.machine.vmi;
      Note(system, ch);
      if vmi {
        return true;
      }
      Others();
      var before := system;
      ok := UpdateWorkspace(copy.version, copy.ws.(reboot := ""));
      Note(before, ch);
    }

    // ---------------------------------------------------------------- bootstrap

    /** reconcileWindowsBootstrap: accept the Secret, complete it, or create it once; a password is never rotated. */
    method ReconcileWindowsBootstrap(ch: Choice) returns (ok: bool)
      requires Valid() && system.pc.Busy? && system.pc.at.BootstrapRead? && ch.password != ""
      modifies this
      ensures Valid() && old(trace) <= trace
      ensures system.pc == if ok then Busy(old(system.pc.copy), ReadVm) else Idle
      ensures ok ==> var ws := old(system.pc.copy.ws); Seeded(system.vault, ws.generation, ws.provisioned == ws.generation)
    {
      var copy := system.pc.copy;
      var g := copy.ws.generation;
      var provisioned := copy.ws.provisioned == g;
      Others();
      var secrets := system.vault.secrets;
      RunKeepsInv(gpu, trace);
      Note(system, ch);
      if !ch.profileValid || !ch.preflight {
        return false;
      }
      if g in secrets {
        var secret := secrets[g];
        if !secret.controlled || secret.password == "" || (!provisioned && !secret.answer) {
          return false;
        }
        if !provisioned && !secret.token {
          Backfill(copy, secret, ch);
        }
        return true;
      }
      if provisioned {
        return false;
      }
      ok := CreateSecret(copy, ch);
    }

    method Backfill(copy: Copy, secret: Secret, ch: Choice)
      requires Valid() && system.pc == Busy(copy, BootstrapBackfill)
      requires Owned(system.vault, copy.ws.generation) && system.vault.secrets[copy.ws.generation] == secret
      requires secret.answer && secret.password != ""
      modifies this
      ensures Valid() && old(trace) <= trace && system.pc == Busy(copy, ReadVm)
      ensures Seeded(system.vault, copy.ws.generation, false)
    {
      Others();
      RunKeepsInv(gpu, trace);
      var before := system;
      assert Owned(system.vault, copy.ws.generation);
      PutSecret(copy.ws.generation, secret.(token := true));
      Note(before, ch);
    }

    method CreateSecret(copy: Copy, ch: Choice) returns (ok: bool)
      requires Valid() && system.pc == Busy(copy, BootstrapCreate) && ch.password != ""
      modifies this
      ensures Valid() && old(trace) <= trace
      ensures system.pc == if ok then Busy(copy, ReadVm) else Idle
      ensures ok ==> Seeded(system.vault, copy.ws.generation, false)
    {
      Others();
      var before := system;
      ok := copy.ws.generation !in system.vault.secrets;
      if ok {
        PutSecret(copy.ws.generation, Secret(true, ch.password, true, true));
      }
      Note(before, ch);
      RunKeepsInv(gpu, trace);
    }

    // ---------------------------------------------------------------- the VM

    /** The VM part of reconcileVirtualMachine: create it, refuse a stranger, or bring it up to date. */
    method ReconcileVm(ch: Choice, attempts: seq<Choice>) returns (ok: bool)
      requires Valid() && system.pc.Busy? && system.pc.at.ReadVm? && |attempts| == RETRIES
      modifies this
      ensures Valid() && old(trace) <= trace
      ensures system.pc == if ok then Busy(old(system.pc.copy), ReadyCheck) else Idle
      ensures ok ==> Delivered(system.machine, old(system.pc.copy.ws))
    {
      var copy := system.pc.copy;
      Others();
      var found := system.machine.vm;
      Note(system, ch);
      if !ch.profileValid {
        return false;
      }
      if found.None? {
        ok := CreateVm(copy, ch);
        return;
      }
      if !found.value.controlled || found.value.generation != copy.ws.generation {
        return false;
      }
      if !VmNeedsUpdate(copy.ws, found.value, ch.drift) {
        return true;
      }
      ok := UpdateVirtualMachine(copy, found.value.uid, attempts);
    }

    method CreateVm(copy: Copy, ch: Choice) returns (ok: bool)
      requires Valid() && system.pc == Busy(copy, VmCreate)
      modifies this
      ensures Valid() && old(trace) <= trace
      ensures system.pc == if ok then Busy(copy, ReadyCheck) else Idle
      ensures ok ==> Delivered(system.machine, copy.ws)
    {
      Others();
      var before, ws := system, copy.ws;
      ok := ch.preflight && system.machine.vm.None?;
      if ok {
        var stopped := ws.stopped || ws.detaching == ws.generation || ws.reboot != "";
        var sysprep := ws.provisioned != ws.generation;
        var clock := system.machine.clock;
        var vm := Vm(clock, clock, true, ws.generation, false, Running(!stopped), sysprep, ws.gpu);
        system := system.(machine := Machine(Some(vm), system.machine.vmi, clock + 1));
      }
      Note(before, ch);
    }

    /** updateVirtualMachine: read again, compare, guard the GPU, write over that version; a conflict starts over. */
    method UpdateVirtualMachine(copy: Copy, uid: nat, attempts: seq<Choice>) returns (ok: bool)
      requires Valid() && system.pc == Busy(copy, VmRefetch(uid)) && |attempts| == RETRIES
      modifies this
      ensures Valid() && old(trace) <= trace
      ensures system.pc == if ok then Busy(copy, ReadyCheck) else Idle
      ensures ok ==> Delivered(system.machine, copy.ws) && system.machine.vm.value.uid == uid
    {
      for i := 0 to RETRIES
        invariant Valid() && old(trace) <= trace && system.pc == Busy(copy, VmRefetch(uid))
      {
        var ch := attempts[i];
        Others();
        var latest := system.machine.vm;
        Note(system, ch);
        if latest.None? || latest.value.uid != uid || latest.value.deleting {
          return false;
        }
        if !VmNeedsUpdate(copy.ws, latest.value, ch.drift) {
          return true;
        }
        var allowed := GuardWindowsGpuTransition(copy, latest.value, ch);
        if !allowed {
          return false;
        }
        var outcome := WriteVm(copy, latest.value, ch);
        if outcome != Conflict {
          return outcome == Done;
        }
      }
      Happen(Crash);
      return false;
    }

    /** guardWindowsGPUTransition: equal hardware passes at once, changed hardware needs a halted VM and no VMI. */
    method GuardWindowsGpuTransition(copy: Copy, latest: Vm, ch: Choice) returns (allowed: bool)
      requires Valid()
      requires system.pc == if latest.gpu == copy.ws.gpu then Busy(copy, VmWrite(latest))
                            else if !Halted(latest.run) then Idle
                            else Busy(copy, GuardReadVmi(latest))
      modifies this
      ensures Valid() && old(trace) <= trace
      ensures system.pc == if allowed then Busy(copy, VmWrite(latest)) else Idle
      ensures latest.gpu == copy.ws.gpu ==> allowed
      ensures allowed && latest.gpu != copy.ws.gpu ==> Halted(latest.run) && !system.machine.vmi && ch.preflight
    {
      if latest.gpu == copy.ws.gpu {
        return true;
      }
      if !Halted(latest.run) {
        return false;
      }
      Others();
      allowed := !system.machine.vmi && ch.preflight;
      Note(system, ch);
    }

    /** The generated spec replaces the whole spec of the VM that was read; its metadata stays. */
    method WriteVm(copy: Copy, latest: Vm, ch: Choice) returns (outcome: Outcome)
      requires Valid() && system.pc == Busy(copy, VmWrite(latest))
      modifies this
      ensures Valid() && old(trace) <= trace
      ensures outcome == Done ==> system.pc == Busy(copy, ReadyCheck)
                                  && Delivered(system.machine, copy.ws) && system.machine.vm.value.uid == latest.uid
      ensures outcome == Conflict ==> system.pc == Busy(copy, VmRefetch(latest.uid))
      ensures outcome != Done && outcome != Conflict ==> system.pc.Idle?
    {
      Others();
      var before, ws := system, copy.ws;
      var stopped := ws.stopped || ws.detaching == ws.generation || ws.reboot != "";
      outcome := UpdateVm(latest.(run := Running(!stopped), sysprep := ws.provisioned != ws.generation, gpu := ws.gpu));
      Note(before, ch);
    }

    // ---------------------------------------------------------------- readiness

    /** windowsReady and reconcileWindowsProvisioning. */
    method WindowsReady(ch: Choice) returns (ok: bool, ready: bool)
      requires Valid() && system.pc.Busy? && system.pc.at.ReadyCheck?
      modifies this
      ensures Valid() && old(trace) <= trace
      ensures if ok then system.pc.Busy? && system.pc.at == Report(ready) else system.pc.Idle?
      ensures ok && ready ==> system.machine.vmi && ch.guestUp && ch.podReady
    {
      var copy := system.pc.copy;
      Others();
      var up := Active(copy.ws) && system.machine.vmi && ch.guestUp;
      Note(system, ch);
      if !up {
        return true, false;
      }
      if copy.ws.provisioned == copy.ws.generation {
        return true, ch.podReady;
      }
      if !ch.complete {
        return true, false;
      }
      ok := MarkProvisioned(copy, ch);
      ready := false;
    }

    /** The enrolment token is staged, then one write sets both marks. */
    method MarkProvisioned(copy: Copy, ch: Choice) returns (ok: bool)
      requires Valid() && system.pc == Busy(copy, ProvisionStage)
      modifies this
      ensures Valid() && old(trace) <= trace
      ensures if ok then system.pc.Busy? && system.pc.at == Report(false) else system.pc.Idle?
      ensures ok ==> system.record.ws == copy.ws.(provisioned := copy.ws.generation, detaching := copy.ws.generation)
    {
      Others();
      ok := copy.ws.generation in system.vault.secrets;
      Note(system, ch);
      if ok {
        ok := CommitMarks(copy, ch);
      }
    }

    method CommitMarks(copy: Copy, ch: Choice) returns (ok: bool)
      requires Valid() && system.pc == Busy(copy, ProvisionCommit)
      modifies this
      ensures Valid() && old(trace) <= trace
      ensures if ok then system.pc.Busy? && system.pc.at == Report(false) else system.pc.Idle?
      ensures ok ==> system.record.ws == copy.ws.(provisioned := copy.ws.generation, detaching := copy.ws.generation)
    {
      Others();
      var before, ws := system, copy.ws;
      ws := ws.(provisioned := copy.ws.generation);
      ws := ws.(detaching := copy.ws.generation);
      ok := UpdateWorkspace(copy.version, ws);
      Note(before, ch);
    }

    // ---------------------------------------------------------------- the whole round

    /**
     One reconcile of a Windows workspace. It reports ready only with the stored Workspace provisioned for its
     generation and not detaching, and with its first password and no answer file in the Secret.
     */
    method Reconcile(ch: Choice, attempts: seq<Choice>) returns (ready: bool)
      requires Valid() && system.pc.Idle? && |attempts| == RETRIES && ch.password != ""
      requires ch.generation != "" && ch.generation !in system.record.generations
      modifies this
      ensures Valid() && old(trace) <= trace && system.pc.Idle?
      ensures ready ==> var ws, v := system.record.ws, system.vault;
                        && ws.generation != "" && ws.provisioned == ws.generation && ws.detaching != ws.generation
                        && Seeded(v, ws.generation, true) && !v.secrets[ws.generation].answer
    {
      ready := false;
      Others();
      var copy := Copy(system.record.version, system.record.ws);
      Note(system, ch);
      if copy.ws.reset {
        var consumed := HandleReset(ch);
        return;
      }
      if copy.ws.generation == "" {
        ResolveGeneration(copy, ch);
        return;
      }
      var ok := PrepareGuest(copy, ch);
      if ok {
        ok := ReconcileVm(ch, attempts);
        if ok {
          ready := Conclude(ch);
        }
      }
    }

    /** The first generation of a Workspace. */
    method ResolveGeneration(copy: Copy, ch: Choice)
      requires Valid() && system.pc == Busy(copy, Resolve)
      requires ch.generation != "" && ch.generation !in system.record.generations
      modifies this
      ensures Valid() && old(trace) <= trace && system.pc.Idle?
    {
      Others();
      var before := system;
      var ok := UpdateWorkspace(copy.version, copy.ws.(generation := ch.generation));
      Note(before, ch);
    }

    /** finishWindowsLifecycle and reconcileVMGuestBootstrap. */
    method PrepareGuest(copy: Copy, ch: Choice) returns (ok: bool)
      requires Valid() && system.pc == BeginRound(copy) && !copy.ws.reset && copy.ws.generation != "" && ch.password != ""
      modifies this
      ensures Valid() && old(trace) <= trace
      ensures if ok then system.pc.Busy? && system.pc.at.ReadVm? else system.pc.Idle?
    {
      ok := true;
      if copy.ws.detaching == copy.ws.generation {
        ok := FinishWindowsDetach(ch);
      }
      if ok && system.pc.copy.ws.reboot != "" {
        ok := FinishWindowsReboot(ch);
      }
      if ok && Active(system.pc.copy.ws) {
        ok := ReconcileWindowsBootstrap(ch);
      }
    }

    method Conclude(ch: Choice) returns (ready: bool)
      requires Valid() && system.pc.Busy? && system.pc.at.ReadyCheck?
      modifies this
      ensures Valid() && old(trace) <= trace && system.pc.Idle?
      ensures ready ==> var ws, v := system.record.ws, system.vault;
                        && ws.generation != "" && ws.provisioned == ws.generation && ws.detaching != ws.generation
                        && Seeded(v, ws.generation, true) && !v.secrets[ws.generation].answer
    {
      var ok;
      ok, ready := WindowsReady(ch);
      if !ok {
        return false;
      }
      Others();
      if ready {
        ReadyMeansProvisioned(gpu, trace);
        RunKeepsInv(gpu, trace);
      }
      var before := system;
      var written := UpdateWorkspace(system.record.version, system.record.ws);
      Note(before, ch);
    }
  }
}
