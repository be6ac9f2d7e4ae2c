/**
 What the Windows controller of `WindowsGuest` achieves in rounds that nobody interrupts: every round ends, a
 workspace can be stopped, and a workspace left alone becomes ready.
 */
module WindowsProgress {
  import opened ApiServer
  import opened WindowsGuest

  // ---------------------------------------------------------------- uninterrupted rounds

  /** The controller alone, until the round is over (or `fuel` calls were made). */
  function Finish(s: System, ch: Choice, fuel: nat): System
    decreases fuel
  {
    if s.pc.Idle? || fuel == 0 then s else Finish(Act(s, ch), ch, fuel - 1)
  }

  /** No path through the reconcile takes more calls than this (`RoundEnds`). */
  const LONGEST := 16

  function Round(s: System, ch: Choice): System {
    Finish(Act(s, ch), ch, LONGEST)
  }

  lemma FinishUnfold(s: System, ch: Choice, fuel: nat)
    requires s.pc.Busy? && fuel > 0
    ensures Finish(s, ch, fuel) == Finish(Act(s, ch), ch, fuel - 1)
  {
  }

  /** The end of a round whose guest is off. */
  lemma OffTail(s: System, ch: Choice, fuel: nat)
    requires s.pc.Busy? && s.pc.at.ReadyCheck? && (!s.machine.vmi || !Active(s.pc.copy.ws)) && fuel >= 2
    ensures Finish(s, ch, fuel) == s.(record := s.record.(version := s.record.version + 1), pc := Idle)
  {
    FinishUnfold(s, ch, fuel);
    FinishUnfold(Act(s, ch), ch, fuel - 1);
  }

  function Written(m: Machine, ws: Workspace): Machine
    requires m.vm.Some?
  {
    m.(vm := Some(m.vm.value.(version := m.clock, run := DesiredRun(ws), sysprep := DesiredSysprep(ws), gpu := ws.gpu)),
       clock := m.clock + 1)
  }

  /** The first read of the VM in a round, spelt out. */
  lemma ReadVmAct(s: System, ch: Choice)
    requires s.pc.Busy? && s.pc.at.ReadVm? && s.machine.vm.Some?
    ensures var ws, vm := s.pc.copy.ws, s.machine.vm.value;
            Act(s, ch) == s.(pc := if !ch.profileValid || !vm.controlled || vm.generation != ws.generation then Idle
                                   else if VmNeedsUpdate(ws, vm, ch.drift) then Busy(s.pc.copy, VmRefetch(vm.uid))
                                   else Busy(s.pc.copy, ReadyCheck))
  {
  }

  /** The second read, of a VM that is still the same and needs the update. */
  lemma RefetchAct(s: System, ch: Choice)
    requires s.pc.Busy? && s.machine.vm.Some? && s.pc.at == VmRefetch(s.machine.vm.value.uid)
    requires VmNeedsUpdate(s.pc.copy.ws, s.machine.vm.value, ch.drift)
    ensures var ws, vm := s.pc.copy.ws, s.machine.vm.value;
            Act(s, ch) == s.(pc := if vm.deleting then Idle
                                   else if vm.gpu == ws.gpu then Busy(s.pc.copy, VmWrite(vm))
                                   else if !Halted(vm.run) then Idle
                                   else Busy(s.pc.copy, GuardReadVmi(vm)))
  {
  }

  lemma WriteAct(s: System, ch: Choice)
    requires s.pc.Busy? && s.pc.at.VmWrite? && s.machine.vm == Some(s.pc.at.seen)
    ensures Act(s, ch) == s.(machine := Written(s.machine, s.pc.copy.ws), pc := Busy(s.pc.copy, ReadyCheck))
  {
  }

  /** Reading the VM, reading it again and writing it, with unchanged hardware. */
  lemma UpdateTail(s: System, ch: Choice, fuel: nat)
    requires s.pc.Busy? && s.pc.at.ReadVm? && ch.profileValid && fuel >= 3 && s.machine.vm.Some?
    requires var vm, ws := s.machine.vm.value, s.pc.copy.ws;
             vm.controlled && vm.generation == ws.generation && !vm.deleting && vm.gpu == ws.gpu && VmNeedsUpdate(ws, vm, ch.drift)
    ensures Finish(s, ch, fuel) == Finish(s.(machine := Written(s.machine, s.pc.copy.ws), pc := Busy(s.pc.copy, ReadyCheck)), ch, fuel - 3)
  {
    var copy, vm := s.pc.copy, s.machine.vm.value;
    var s1, s2 := s.(pc := Busy(copy, VmRefetch(vm.uid))), s.(pc := Busy(copy, VmWrite(vm)));
    ReadVmAct(s, ch);
    RefetchAct(s1, ch);
    WriteAct(s2, ch);
    FinishUnfold(s, ch, fuel);
    FinishUnfold(s1, ch, fuel - 1);
    FinishUnfold(s2, ch, fuel - 2);
  }

  // ---------------------------------------------------------------- rounds end

  /** A bound on the calls of a round that has come to this point. */
  function CallsLeft(at: Point): nat {
    match at
    case DetachReadVmi => 16
    case DetachReadSecret => 15
    case DetachWriteSecret => 14
    case DetachCommit => 13
    case RebootReadVmi => 12
    case RebootCommit => 11
    case BootstrapRead => 10
    case BootstrapBackfill => 9
    case BootstrapCreate => 9
    case ReadVm => 8
    case VmRefetch(_) => 7
    case GuardReadVmi(_) => 6
    case VmWrite(_) => 5
    case VmCreate => 5
    case ReadyCheck => 4
    case ProvisionStage => 3
    case ProvisionCommit => 2
    case Report(_) => 1
    case ResetReadVm => 5
    case ResetReadVmi => 2
    case ResetReadSecret => 3
    case ResetDeleteSecret => 2
    case ResetStop(_) => 1
    case ResetDelete => 1
    case ResetCommit => 1
    case Resolve => 1
  }

  /** Without interruption a write meets the VM that was read. */
  ghost predicate Undisturbed(s: System) {
    s.pc.Busy? && (s.pc.at.GuardReadVmi? || s.pc.at.VmWrite?) ==> s.machine.vm == Some(s.pc.at.seen)
  }

  /** A new UUID and a non-empty password. */
  predicate FreshDraw(s: System, ch: Choice) {
    ch.password != "" && ch.generation != "" && ch.generation !in s.record.generations
  }

  /** A call that ends the round or brings it closer to its end. */
  ghost predicate Advances(s: System, d: System, ch: Choice)
    requires s.pc.Busy?
  {
    d.pc.Idle? || (CallsLeft(d.pc.at) < CallsLeft(s.pc.at) && Undisturbed(d) && FreshDraw(d, ch))
  }

  lemma ResetAdvances(s: System, ch: Choice)
    requires s.pc.Busy? && ResetPoint(s.pc.at) && FreshDraw(s, ch)
    ensures Advances(s, ResetAct(s, s.pc.copy, s.pc.at, ch), ch)
  {
  }

  lemma LifecycleAdvances(s: System, ch: Choice)
    requires s.pc.Busy? && LifecyclePoint(s.pc.at) && FreshDraw(s, ch)
    ensures Advances(s, LifecycleAct(s, s.pc.copy, s.pc.at, ch), ch)
  {
  }

  lemma BootstrapAdvances(s: System, ch: Choice)
    requires s.pc.Busy? && BootstrapPoint(s.pc.at) && FreshDraw(s, ch)
    ensures Advances(s, BootstrapAct(s, s.pc.copy, s.pc.at, ch), ch)
  {
  }

  lemma VmAdvances(s: System, ch: Choice)
    requires s.pc.Busy? && VmPoint(s.pc.at) && Undisturbed(s) && FreshDraw(s, ch)
    ensures Advances(s, VmAct(s, s.pc.copy, s.pc.at, ch), ch)
  {
  }

  lemma ReadyAdvances(s: System, ch: Choice)
    requires s.pc.Busy? && (s.pc.at.ReadyCheck? || s.pc.at.ProvisionStage? || s.pc.at.ProvisionCommit? || s.pc.at.Report?) && FreshDraw(s, ch)
    ensures Advances(s, ReadyAct(s, s.pc.copy, s.pc.at, ch), ch)
  {
  }

  lemma ActAdvances(s: System, ch: Choice)
    requires s.pc.Busy? && Undisturbed(s) && FreshDraw(s, ch)
    ensures Advances(s, Act(s, ch), ch)
  {
    var at := s.pc.at;
    if ResetPoint(at) { ResetAdvances(s, ch); }
    else if LifecyclePoint(at) { LifecycleAdvances(s, ch); }
    else if BootstrapPoint(at) { BootstrapAdvances(s, ch); }
    else if VmPoint(at) { VmAdvances(s, ch); }
    else { ReadyAdvances(s, ch); }
  }

  lemma {:induction false} FinishEnds(s: System, ch: Choice, fuel: nat)
    requires s.pc.Busy? ==> Undisturbed(s) && FreshDraw(s, ch) && CallsLeft(s.pc.at) <= fuel
    ensures Finish(s, ch, fuel).pc.Idle?
    decreases fuel
  {
    if s.pc.Busy? {
      ActAdvances(s, ch);
      FinishEnds(Act(s, ch), ch, fuel - 1);
    }
  }

  /** Every uninterrupted round ends, whatever the profile, the preflights and the guest say. */
  lemma RoundEnds(s: System, ch: Choice)
    requires s.pc.Idle? && FreshDraw(s, ch)
    ensures Round(s, ch).pc.Idle?
  {
    FinishEnds(Act(s, ch), ch, LONGEST);
  }

  // ---------------------------------------------------------------- stopping

  /** The round will write the VM: the profile is valid, the VM is this workspace's, its hardware is unchanged, and something differs. */
  predicate WillWrite(ws: Workspace, vm: Vm, ch: Choice) {
    && ch.profileValid && vm.controlled && vm.generation == ws.generation && !vm.deleting
    && vm.gpu == ws.gpu && VmNeedsUpdate(ws, vm, ch.drift)
  }

  /** What an uninterrupted round does to the VM of a workspace that is to be off. */
  ghost predicate TurnsOff(m: Machine, d: System, ws: Workspace, ch: Choice)
    requires m.vm.Some?
  {
    && d.pc.Idle? && d.machine.vm.Some? && d.machine.vm.value.uid == m.vm.value.uid && d.machine.vmi == m.vmi
    && (Halted(d.machine.vm.value.run) <==> Halted(m.vm.value.run) || WillWrite(ws, m.vm.value, ch))
  }

  lemma WriteTail(s: System, ch: Choice, fuel: nat)
    requires s.pc.Busy? && s.pc.at.VmWrite? && fuel >= 3 && !Active(s.pc.copy.ws) && s.machine.vm == Some(s.pc.at.seen)
    ensures var d := Finish(s, ch, fuel); d.pc.Idle? && d.machine == Written(s.machine, s.pc.copy.ws)
  {
    FinishUnfold(s, ch, fuel);
    WriteAct(s, ch);
    OffTail(Act(s, ch), ch, fuel - 1);
  }

  lemma GuardTail(s: System, ch: Choice, fuel: nat)
    requires s.pc.Busy? && s.pc.at.GuardReadVmi? && fuel >= 4 && !Active(s.pc.copy.ws) && s.machine.vm == Some(s.pc.at.seen)
    ensures var d := Finish(s, ch, fuel); d.pc.Idle? && (d.machine == s.machine || d.machine == Written(s.machine, s.pc.copy.ws))
  {
    FinishUnfold(s, ch, fuel);
    var s1 := Act(s, ch);
    if s1.pc.Busy? {
      WriteTail(s1, ch, fuel - 1);
    }
  }

  lemma RefetchTail(s: System, ch: Choice, fuel: nat)
    requires s.pc.Busy? && s.machine.vm.Some? && s.pc.at == VmRefetch(s.machine.vm.value.uid) && fuel >= 5 && !Active(s.pc.copy.ws)
    requires var ws, vm := s.pc.copy.ws, s.machine.vm.value;
             ch.profileValid && vm.controlled && vm.generation == ws.generation && VmNeedsUpdate(ws, vm, ch.drift)
    ensures TurnsOff(s.machine, Finish(s, ch, fuel), s.pc.copy.ws, ch)
  {
    FinishUnfold(s, ch, fuel);
    RefetchAct(s, ch);
    var s1 := Act(s, ch);
    if s1.pc.Busy? && s1.pc.at.VmWrite? {
      WriteTail(s1, ch, fuel - 1);
    } else if s1.pc.Busy? {
      GuardTail(s1, ch, fuel - 1);
    }
  }

  lemma OffRound(s: System, ch: Choice, fuel: nat)
    requires s.pc.Busy? && s.pc.at.ReadVm? && fuel >= 6 && !Active(s.pc.copy.ws) && s.machine.vm.Some?
    ensures TurnsOff(s.machine, Finish(s, ch, fuel), s.pc.copy.ws, ch)
  {
    FinishUnfold(s, ch, fuel);
    ReadVmAct(s, ch);
    var s1 := Act(s, ch);
    if s1.pc.Busy? && s1.pc.at.ReadyCheck? {
      OffTail(s1, ch, fuel - 1);
    } else if s1.pc.Busy? {
      RefetchTail(s1, ch, fuel - 1);
    }
  }

  /** The copy is current, and the guest is off or on its way: stopped by a user, or held down by a mark until its VMI is gone. */
  ghost predicate GoingDown(s: System, copy: Copy) {
    && copy == Copy(s.record.version, s.record.ws)
    && (copy.ws.stopped || (s.machine.vmi && !Active(copy.ws)))
  }

  /** A round that has come to the VM without turning the workspace on or touching the machine. */
  ghost predicate CameToVm(s: System, mid: System, ws: Workspace) {
    && mid.pc.Busy? && mid.pc.at.ReadVm? && !Active(mid.pc.copy.ws) && mid.machine == s.machine
    && mid.pc.copy.ws.(detaching := "", reboot := "") == ws.(detaching := "", reboot := "")
  }

  lemma RebootPart(s: System, ch: Choice, fuel: nat) returns (mid: System, left: nat)
    requires s.pc.Busy? && GoingDown(s, s.pc.copy) && fuel >= 2
    requires s.pc == AfterDetach(s.pc.copy)
    ensures left + 2 >= fuel && Finish(s, ch, fuel) == Finish(mid, ch, left)
    ensures CameToVm(s, mid, s.pc.copy.ws)
  {
    mid, left := s, fuel;
    if s.pc.at.RebootReadVmi? {
      FinishUnfold(s, ch, fuel);
      mid, left := Act(s, ch), fuel - 1;
      if !s.machine.vmi {
        FinishUnfold(mid, ch, left);
        mid, left := Act(mid, ch), left - 1;
      }
    }
  }

  lemma DetachPart(s: System, ch: Choice) returns (mid: System, left: nat)
    requires Inv(s) && s.pc.Busy? && s.pc.at.DetachReadVmi? && GoingDown(s, s.pc.copy)
    ensures left + 4 >= LONGEST && Finish(s, ch, LONGEST) == Finish(mid, ch, left)
    ensures mid.pc.Busy? && GoingDown(mid, mid.pc.copy) && mid.pc == AfterDetach(mid.pc.copy) && mid.machine == s.machine
    ensures mid.pc.copy.ws.(detaching := "") == s.pc.copy.ws.(detaching := "")
  {
    FinishUnfold(s, ch, LONGEST);
    mid, left := Act(s, ch), LONGEST - 1;
    if !s.machine.vmi {
      var s2 := Act(mid, ch);
      assert s2.pc.at.DetachWriteSecret?;
      var s3 := Act(s2, ch);
      assert s3.pc.at.DetachCommit?;
      FinishUnfold(mid, ch, LONGEST - 1);
      FinishUnfold(s2, ch, LONGEST - 2);
      FinishUnfold(s3, ch, LONGEST - 3);
      mid, left := Act(s3, ch), LONGEST - 4;
    }
  }

  lemma SameWrites(a: Workspace, b: Workspace, vm: Vm, ch: Choice)
    requires a.(detaching := "", reboot := "") == b.(detaching := "", reboot := "") && !Active(a) && !Active(b)
    ensures WillWrite(a, vm, ch) == WillWrite(b, vm, ch)
  {
  }

  /**
   Stopping, exactly. One uninterrupted round of a workspace that a user stopped, or that a detach or reboot holds
   down, leaves its VM halted if and only if it was halted already or the round writes it; the GPU preflight plays
   no part.
   */
  lemma StopExactly(gpu: Hardware, trace: seq<Event>, ch: Choice)
    requires var s := Run(Initial(gpu), trace);
             && s.pc.Idle? && s.machine.vm.Some? && !s.record.ws.reset && s.record.ws.generation != ""
             && (s.record.ws.stopped || (s.machine.vmi && !Active(s.record.ws)))
    ensures var s := Run(Initial(gpu), trace); TurnsOff(s.machine, Round(s, ch), s.record.ws, ch)
  {
    var s := Run(Initial(gpu), trace);
    RunKeepsInv(gpu, trace);
    BeginKeepsInv(s, ch);
    var mid, left := Act(s, ch), LONGEST;
    var ws := s.record.ws;
    if mid.pc.at.DetachReadVmi? {
      mid, left := DetachPart(mid, ch);
    }
    mid, left := RebootPart(mid, ch, left);
    OffRound(mid, ch, left);
    SameWrites(ws, mid.pc.copy.ws, s.machine.vm.value, ch);
  }

  /**
   With a valid profile, unchanged hardware and everything else in place, stopping works exactly on a VM whose run
   field is the one the controller writes, or that is halted: a VM on another run strategy is not stopped.
   */
  lemma StopNeedsRunField(gpu: Hardware, trace: seq<Event>, ch: Choice)
    requires var s := Run(Initial(gpu), trace);
             && s.pc.Idle? && s.machine.vm.Some? && !s.record.ws.reset && s.record.ws.generation != ""
             && (s.record.ws.stopped || (s.machine.vmi && !Active(s.record.ws)))
             && var vm := s.machine.vm.value;
             vm.controlled && vm.generation == s.record.ws.generation && !vm.deleting
             && vm.gpu == s.record.ws.gpu && vm.sysprep == DesiredSysprep(s.record.ws)
    requires ch.profileValid && !ch.drift
    ensures var m := Run(Initial(gpu), trace).machine;
            var d := Round(Run(Initial(gpu), trace), ch).machine;
            && d.vm.Some? && d.vm.value.uid == m.vm.value.uid
            && (Halted(d.vm.value.run) <==> m.vm.value.run.Running? || Halted(m.vm.value.run))
  {
    StopExactly(gpu, trace, ch);
  }

  // ---------------------------------------------------------------- a workspace does become ready

  /** The milestones of provisioning, seen between rounds of an undisturbed workspace. */
  ghost predicate LeftAlone(s: System) {
    s.pc.Idle? && !s.record.ws.stopped && s.record.ws.reboot == "" && !s.record.ws.reset && s.record.ws.generation != ""
  }

  ghost predicate VmIs(s: System, run: bool, sysprep: bool) {
    && s.machine.vm.Some?
    && var vm := s.machine.vm.value;
       && vm.controlled && vm.generation == s.record.ws.generation && !vm.deleting
       && vm.run == Running(run) && vm.sysprep == sysprep && vm.gpu == s.record.ws.gpu
  }

  ghost predicate SecretIs(s: System, answer: bool) {
    && Owned(s.vault, s.record.ws.generation)
    && var secret := s.vault.secrets[s.record.ws.generation];
       secret.password != "" && secret.answer == answer && secret.token
  }

  ghost predicate Resolved(s: System) {
    && LeftAlone(s) && s.record.ws.provisioned == "" && s.record.ws.detaching == ""
    && s.machine.vm.None? && s.record.ws.generation !in s.vault.secrets
  }

  ghost predicate Created(s: System) {
    LeftAlone(s) && s.record.ws.provisioned == "" && s.record.ws.detaching == "" && VmIs(s, true, true) && SecretIs(s, true)
  }

  ghost predicate Marked(s: System) {
    && LeftAlone(s) && s.record.ws.provisioned == s.record.ws.generation == s.record.ws.detaching
    && VmIs(s, true, true) && SecretIs(s, true)
  }

  ghost predicate HaltedForDetach(s: System) {
    && LeftAlone(s) && s.record.ws.provisioned == s.record.ws.generation == s.record.ws.detaching
    && VmIs(s, false, false) && SecretIs(s, true)
  }

  ghost predicate Finished(s: System) {
    && LeftAlone(s) && s.record.ws.provisioned == s.record.ws.generation && s.record.ws.detaching == ""
    && VmIs(s, true, false) && SecretIs(s, false)
  }

  const SMOOTH := Choice("g", "p", true, true, false, true, true, true)

  /** Everything checks out: profile, preflights, no template drift. */
  predicate Smooth(ch: Choice) {
    ch.profileValid && ch.preflight && !ch.drift && ch.password != "" && ch.generation != ""
  }

  lemma ResolveRound(gpu: Hardware, ch: Choice)
    requires Smooth(ch)
    ensures Resolved(Round(Initial(gpu), ch))
  {
    var s1 := Act(Initial(gpu), ch);
    assert s1.pc.at.Resolve?;
    FinishUnfold(s1, ch, LONGEST);
  }

  lemma CreateRound(s: System, ch: Choice)
    requires Resolved(s) && Smooth(ch) && !s.machine.vmi
    ensures Created(Round(s, ch)) && !Round(s, ch).machine.vmi
  {
    var s1 := Act(s, ch);
    assert s1.pc.at.BootstrapRead?;
    var s2 := Act(s1, ch);
    assert s2.pc.at.BootstrapCreate?;
    var s3 := Act(s2, ch);
    assert s3.pc.at.ReadVm? && SecretIs(s3, true);
    FinishUnfold(s1, ch, LONGEST);
    FinishUnfold(s2, ch, LONGEST - 1);
    CreateTail(s3, ch, LONGEST - 2);
  }

  lemma CreateTail(s: System, ch: Choice, fuel: nat)
    requires s.pc == Busy(Copy(s.record.version, s.record.ws), ReadVm) && Smooth(ch) && fuel >= 4
    requires !s.machine.vmi && s.machine.vm.None?
    ensures var d := Finish(s, ch, fuel);
            && d.pc.Idle? && d.record.ws == s.record.ws && d.vault == s.vault && !d.machine.vmi
            && VmIs(d, Active(s.record.ws), DesiredSysprep(s.record.ws))
  {
    var s4 := Act(s, ch);
    assert s4.pc.at.VmCreate?;
    var s5 := Act(s4, ch);
    assert s5.pc.at.ReadyCheck?;
    FinishUnfold(s, ch, fuel);
    FinishUnfold(s4, ch, fuel - 1);
    OffTail(s5, ch, fuel - 2);
  }

  lemma MarkRound(s: System, ch: Choice)
    requires Created(s) && Smooth(ch) && s.machine.vmi && ch.guestUp && ch.complete
    ensures Marked(Round(s, ch)) && Round(s, ch).machine.vmi
  {
    var copy := Copy(s.record.version, s.record.ws);
    var s1 := s.(pc := Busy(copy, BootstrapRead));
    assert Act(s, ch) == s1;
    var s2 := s.(pc := Busy(copy, ReadVm));
    assert Act(s1, ch) == s2;
    var s3 := s.(pc := Busy(copy, ReadyCheck));
    assert Act(s2, ch) == s3;
    FinishUnfold(s1, ch, LONGEST);
    FinishUnfold(s2, ch, LONGEST - 1);
    MarkTail(s3, ch, LONGEST - 2);
  }

  lemma MarkTail(s: System, ch: Choice, fuel: nat)
    requires s.pc == Busy(Copy(s.record.version, s.record.ws), ReadyCheck) && fuel >= 4
    requires Active(s.record.ws) && s.record.ws.provisioned != s.record.ws.generation
    requires s.machine.vmi && ch.guestUp && ch.complete && s.record.ws.generation in s.vault.secrets
    ensures var d, g := Finish(s, ch, fuel), s.record.ws.generation;
            && d.pc.Idle? && d.vault == s.vault && d.machine == s.machine
            && d.record.ws == s.record.ws.(provisioned := g, detaching := g)
  {
    var copy, g := s.pc.copy, s.record.ws.generation;
    var marked := copy.ws.(provisioned := g, detaching := g);
    var s4, s5 := s.(pc := Busy(copy, ProvisionStage)), s.(pc := Busy(copy, ProvisionCommit));
    var version := s.record.version + 1;
    var s6 := s.(record := s.record.(version := version, ws := marked), pc := Busy(Copy(version, marked), Report(false)));
    MarkActs(s, ch);
    FinishUnfold(s, ch, fuel);
    FinishUnfold(s4, ch, fuel - 1);
    FinishUnfold(s5, ch, fuel - 2);
    FinishUnfold(s6, ch, fuel - 3);
  }

  lemma MarkActs(s: System, ch: Choice)
    requires s.pc == Busy(Copy(s.record.version, s.record.ws), ReadyCheck)
    requires Active(s.record.ws) && s.record.ws.provisioned != s.record.ws.generation
    requires s.machine.vmi && ch.guestUp && ch.complete && s.record.ws.generation in s.vault.secrets
    ensures var copy, g, version := s.pc.copy, s.record.ws.generation, s.record.version + 1;
            var marked := copy.ws.(provisioned := g, detaching := g);
            var s4, s5 := s.(pc := Busy(copy, ProvisionStage)), s.(pc := Busy(copy, ProvisionCommit));
            && Act(s, ch) == s4 && Act(s4, ch) == s5
            && Act(s5, ch) == s.(record := s.record.(version := version, ws := marked), pc := Busy(Copy(version, marked), Report(false)))
  {
  }

  lemma HaltRound(s: System, ch: Choice)
    requires Marked(s) && Smooth(ch) && s.machine.vmi
    ensures HaltedForDetach(Round(s, ch)) && Round(s, ch).machine.vmi
  {
    var s1 := Act(s, ch);
    assert s1.pc.at.DetachReadVmi?;
    var s2 := Act(s1, ch);
    assert s2.pc.at.ReadVm?;
    FinishUnfold(s1, ch, LONGEST);
    UpdateTail(s2, ch, LONGEST - 1);
    OffTail(s2.(machine := Written(s2.machine, s2.pc.copy.ws), pc := Busy(s2.pc.copy, ReadyCheck)), ch, LONGEST - 4);
  }

  /** First half of the round that finishes the detach: the answer file is removed, then the mark. */
  lemma DetachHalf(s: System, ch: Choice) returns (mid: System)
    requires HaltedForDetach(s) && Smooth(ch) && !s.machine.vmi
    ensures Round(s, ch) == Finish(mid, ch, LONGEST - 4)
    ensures mid.pc == Busy(Copy(mid.record.version, mid.record.ws), BootstrapRead) && mid.machine == s.machine
    ensures mid.record.ws == s.record.ws.(detaching := "") && SecretIs(mid, false)
  {
    var s1 := Act(s, ch);
    assert s1.pc.at.DetachReadVmi?;
    var s2 := Act(s1, ch);
    assert s2.pc.at.DetachReadSecret?;
    var s3 := Act(s2, ch);
    assert s3.pc.at.DetachWriteSecret?;
    var s4 := Act(s3, ch);
    assert s4.pc.at.DetachCommit? && SecretIs(s4, false);
    mid := Act(s4, ch);
    FinishUnfold(s1, ch, LONGEST);
    FinishUnfold(s2, ch, LONGEST - 1);
    FinishUnfold(s3, ch, LONGEST - 2);
    FinishUnfold(s4, ch, LONGEST - 3);
  }

  lemma DetachRound(s: System, ch: Choice)
    requires HaltedForDetach(s) && Smooth(ch) && !s.machine.vmi
    ensures Finished(Round(s, ch)) && !Round(s, ch).machine.vmi
  {
    var s5 := DetachHalf(s, ch);
    var s6 := Act(s5, ch);
    assert s6.pc.at.ReadVm?;
    FinishUnfold(s5, ch, LONGEST - 4);
    UpdateTail(s6, ch, LONGEST - 5);
    OffTail(s6.(machine := Written(s6.machine, s6.pc.copy.ws), pc := Busy(s6.pc.copy, ReadyCheck)), ch, LONGEST - 8);
  }

  lemma ReadyRound(s: System, ch: Choice)
    requires Finished(s) && Smooth(ch) && s.machine.vmi && ch.guestUp && ch.podReady
    ensures var d := Act(Act(Act(Act(s, ch), ch), ch), ch); d.pc.Busy? && d.pc.at == Report(true)
  {
    var s1 := Act(s, ch);
    assert s1.pc.at.BootstrapRead?;
    var s2 := Act(s1, ch);
    assert s2.pc.at.ReadVm?;
    var s3 := Act(s2, ch);
    assert s3.pc.at.ReadyCheck?;
  }

  /**
   A workspace left alone does become ready: five rounds, with KubeVirt starting, stopping and starting the guest
   between them, and the guest finishing its setup.
   */
  lemma ProvisioningCompletes(gpu: Hardware, ch: Choice)
    requires Smooth(ch) && ch.guestUp && ch.complete && ch.podReady
    ensures var created := Round(Round(Initial(gpu), ch), ch);
            var halted := Round(Round(Next(created, StartVmi), ch), ch);
            var finished := Round(Next(halted, StopVmi), ch);
            var up := Next(finished, StartVmi);
            var d := Act(Act(Act(Act(up, ch), ch), ch), ch);
            d.pc.Busy? && d.pc.at == Report(true)
  {
    var resolved := Round(Initial(gpu), ch);
    ResolveRound(gpu, ch);
    FirstRoundsKeepVmi(gpu, ch);
    CreateRound(resolved, ch);
    var on := Next(Round(resolved, ch), StartVmi);
    assert Created(on) && on.machine.vmi;
    MarkRound(on, ch);
    HaltRound(Round(on, ch), ch);
    var off := Next(Round(Round(on, ch), ch), StopVmi);
    assert HaltedForDetach(off) && !off.machine.vmi;
    DetachRound(off, ch);
    var up := Next(Round(off, ch), StartVmi);
    assert Finished(up) && up.machine.vmi;
    ReadyRound(up, ch);
  }

  lemma FirstRoundsKeepVmi(gpu: Hardware, ch: Choice)
    requires Smooth(ch)
    ensures !Round(Initial(gpu), ch).machine.vmi
  {
    var s1 := Act(Initial(gpu), ch);
    FinishUnfold(s1, ch, LONGEST);
  }

  // ---------------------------------------------------------------- runs from the beginning

  lemma {:induction false} FinishRuns(gpu: Hardware, trace: seq<Event>, ch: Choice, fuel: nat) returns (longer: seq<Event>)
    ensures Run(Initial(gpu), longer) == Finish(Run(Initial(gpu), trace), ch, fuel)
    decreases fuel
  {
    longer := trace;
    if Run(Initial(gpu), trace).pc.Busy? && fuel > 0 {
      longer := Extend(gpu, trace, Controller(ch));
      longer := FinishRuns(gpu, longer, ch, fuel - 1);
    }
  }

  lemma Extend(gpu: Hardware, trace: seq<Event>, e: Event) returns (longer: seq<Event>)
    ensures longer == trace + [e] && Run(Initial(gpu), longer) == Next(Run(Initial(gpu), trace), e)
  {
    longer := trace + [e];
    assert longer[..|trace|] == trace;
  }

  /** A created workspace, by a run from the beginning. */
  lemma CreatedRun(gpu: Hardware) returns (trace: seq<Event>)
    ensures Created(Run(Initial(gpu), trace)) && !Run(Initial(gpu), trace).machine.vmi
  {
    ResolveRound(gpu, SMOOTH);
    FirstRoundsKeepVmi(gpu, SMOOTH);
    var resolved := Round(Initial(gpu), SMOOTH);
    CreateRound(resolved, SMOOTH);
    trace := Extend(gpu, [], Controller(SMOOTH));
    trace := FinishRuns(gpu, trace, SMOOTH, LONGEST);
    trace := Extend(gpu, trace, Controller(SMOOTH));
    trace := FinishRuns(gpu, trace, SMOOTH, LONGEST);
  }

  /** A VM that was put on runStrategy Always and then stopped by its user stays on, in every smooth round. */
  lemma StrategyVmIsNotStopped(gpu: Hardware) returns (trace: seq<Event>)
    ensures var s := Run(Initial(gpu), trace);
            && s.pc.Idle? && s.record.ws.stopped && s.machine.vm.Some? && s.machine.vm.value.gpu == s.record.ws.gpu
            && forall ch :: Smooth(ch) ==> var d := Round(s, ch); d.machine.vm.Some? && !Halted(d.machine.vm.value.run)
  {
    trace := CreatedRun(gpu);
    trace := Extend(gpu, trace, EditVm(Strategy("Always"), gpu));
    trace := Extend(gpu, trace, EditWorkspace(true, "", false, gpu));
    forall ch | Smooth(ch)
      ensures var d := Round(Run(Initial(gpu), trace), ch); d.machine.vm.Some? && !Halted(d.machine.vm.value.run)
    {
      StopNeedsRunField(gpu, trace, ch);
    }
  }

  lemma RoundRuns(gpu: Hardware, trace: seq<Event>, ch: Choice) returns (longer: seq<Event>)
    ensures Run(Initial(gpu), longer) == Round(Run(Initial(gpu), trace), ch)
  {
    longer := Extend(gpu, trace, Controller(ch));
    longer := FinishRuns(gpu, longer, ch, LONGEST);
  }

  /** The whole way to a report of readiness, as one run from the beginning. */
  lemma ReadyRun(gpu: Hardware) returns (trace: seq<Event>)
    ensures var s := Run(Initial(gpu), trace); s.pc.Busy? && s.pc.at == Report(true)
  {
    ProvisioningCompletes(gpu, SMOOTH);
    trace := RoundRuns(gpu, [], SMOOTH);
    trace := RoundRuns(gpu, trace, SMOOTH);
    trace := Extend(gpu, trace, StartVmi);
    trace := RoundRuns(gpu, trace, SMOOTH);
    trace := RoundRuns(gpu, trace, SMOOTH);
    trace := Extend(gpu, trace, StopVmi);
    trace := RoundRuns(gpu, trace, SMOOTH);
    trace := Extend(gpu, trace, StartVmi);
    trace := Extend(gpu, trace, Controller(SMOOTH));
    trace := Extend(gpu, trace, Controller(SMOOTH));
    trace := Extend(gpu, trace, Controller(SMOOTH));
    trace := Extend(gpu, trace, Controller(SMOOTH));
  }

  /** An edit after the round's read does slip through: a workspace its user has just stopped is reported ready. */
  lemma StoppedWhileReporting(gpu: Hardware) returns (trace: seq<Event>)
    ensures var s := Run(Initial(gpu), trace); s.pc.Busy? && s.pc.at == Report(true) && s.record.ws.stopped
  {
    trace := ReadyRun(gpu);
    trace := Extend(gpu, trace, EditWorkspace(true, "", false, gpu));
  }
}
