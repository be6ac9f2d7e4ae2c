/**
 While a reset is pending (handleReset in internal/controller/workspace_controller.go): no round that saw it creates
 a VM or turns one on, and exactly which rounds, already under way when it was asked for, still may.
 */
module WindowsPendingReset {
  import opened ApiServer
  import opened WindowsGuest
  import opened WindowsProgress

  /** The controller's next call creates a VM or turns a halted one on. */
  predicate TurnsOn(s: System, ch: Choice) {
    var before, after := s.machine.vm, Act(s, ch).machine.vm;
    after.Some? && (before.None? || (Halted(before.value.run) && !Halted(after.value.run)))
  }

  /** The reset is pending all along. */
  ghost predicate StaysPending(s: System, rest: seq<Event>) {
    Run(s, rest).record.ws.reset && (rest == [] || StaysPending(s, rest[..|rest| - 1]))
  }

  /** The VM that a round has in hand still exists, is not going away, and the round wants it on. */
  predicate WantsOn(s: System, uid: nat)
    requires s.pc.Busy?
  {
    Active(s.pc.copy.ws) && s.machine.vm.Some? && s.machine.vm.value.uid == uid && !s.machine.vm.value.deleting
  }

  /**
   A round that did not see the reset and still has a write or create of the VM ahead of it. Its own writes of the
   Workspace will fail, for the reset has moved the version; so from a detach or reboot it comes to the VM only while
   there is a VMI, or a VM that may get one.
   */
  predicate MayTurnOn(s: System) {
    s.pc.Busy? && !s.pc.copy.ws.reset
    && match s.pc.at
       case DetachReadVmi => s.machine.vmi || s.machine.vm.Some?
       case RebootReadVmi => s.machine.vmi || s.machine.vm.Some?
       case BootstrapRead => true
       case BootstrapBackfill => true
       case BootstrapCreate => true
       case ReadVm => true
       case VmCreate => true
       case VmRefetch(uid) => WantsOn(s, uid)
       case GuardReadVmi(seen) => WantsOn(s, seen.uid)
       case VmWrite(seen) => WantsOn(s, seen.uid)
       case _ => false
  }

  // ---------------------------------------------------------------- the others never do

  /** A call that turns nothing on and leads to no round that may. */
  ghost predicate Harmless(s: System, d: System) {
    && (d.machine.vm.Some? ==> s.machine.vm.Some? && (Halted(s.machine.vm.value.run) ==> Halted(d.machine.vm.value.run)))
    && (d.record.ws.reset ==> !MayTurnOn(d))
  }

  lemma BeginIsHarmless(s: System, ch: Choice)
    requires s.record.ws.reset && s.pc.Idle?
    ensures Harmless(s, Act(s, ch))
  {
  }

  lemma ResetIsHarmless(s: System, ch: Choice)
    requires Inv(s) && s.pc.Busy? && ResetPoint(s.pc.at)
    ensures Harmless(s, ResetAct(s, s.pc.copy, s.pc.at, ch))
  {
    var d := ResetAct(s, s.pc.copy, s.pc.at, ch);
    assert d.pc.Idle? || d.pc.copy == s.pc.copy;
  }

  /** The stored version is ahead of a copy without the reset. */
  lemma CopyIsStale(s: System)
    requires Inv(s) && s.record.ws.reset && s.pc.Busy? && !s.pc.copy.ws.reset
    ensures s.record.version != s.pc.copy.version
  {
  }

  lemma LifecycleIsHarmless(s: System, ch: Choice)
    requires Inv(s) && s.record.ws.reset && s.pc.Busy? && LifecyclePoint(s.pc.at) && !MayTurnOn(s)
    ensures Harmless(s, LifecycleAct(s, s.pc.copy, s.pc.at, ch))
  {
    CopyIsStale(s);
  }

  lemma VmIsHarmless(s: System, ch: Choice)
    requires Inv(s) && s.record.ws.reset && s.pc.Busy? && VmPoint(s.pc.at) && !MayTurnOn(s)
    ensures Harmless(s, VmAct(s, s.pc.copy, s.pc.at, ch))
  {
  }

  lemma ReadyIsHarmless(s: System, ch: Choice)
    requires Inv(s) && s.record.ws.reset && s.pc.Busy?
    requires s.pc.at.ReadyCheck? || s.pc.at.ProvisionStage? || s.pc.at.ProvisionCommit? || s.pc.at.Report?
    ensures Harmless(s, ReadyAct(s, s.pc.copy, s.pc.at, ch))
  {
    CopyIsStale(s);
  }

  lemma CallIsHarmless(s: System, ch: Choice)
    requires Inv(s) && s.record.ws.reset && !MayTurnOn(s)
    ensures Harmless(s, Act(s, ch))
  {
    if s.pc.Idle? { BeginIsHarmless(s, ch); }
    else if ResetPoint(s.pc.at) { ResetIsHarmless(s, ch); }
    else if LifecyclePoint(s.pc.at) { LifecycleIsHarmless(s, ch); }
    else if VmPoint(s.pc.at) { VmIsHarmless(s, ch); }
    else if !BootstrapPoint(s.pc.at) { ReadyIsHarmless(s, ch); }
  }

  lemma OthersAreHarmless(s: System, e: Event)
    requires !MayTurnOn(s) && !e.Controller?
    ensures !MayTurnOn(Next(s, e))
  {
  }

  lemma {:induction false} RunIsHarmless(s: System, rest: seq<Event>)
    requires Inv(s) && !MayTurnOn(s) && StaysPending(s, rest)
    ensures Inv(Run(s, rest)) && !MayTurnOn(Run(s, rest))
  {
    if rest != [] {
      var n := |rest| - 1;
      RunIsHarmless(s, rest[..n]);
      var mid := Run(s, rest[..n]);
      StepKeepsInv(mid, rest[n]);
      if rest[n].Controller? {
        CallIsHarmless(mid, rest[n].choice);
      } else {
        OthersAreHarmless(mid, rest[n]);
      }
    }
  }

  // ---------------------------------------------------------------- those rounds can

  ghost predicate CanTurnOn(s: System) {
    exists rest, ch :: StaysPending(s, rest) && TurnsOn(Run(s, rest), ch)
  }

  lemma {:induction false} RunCons(s: System, e: Event, rest: seq<Event>)
    requires s.record.ws.reset && StaysPending(Next(s, e), rest)
    ensures Run(s, [e] + rest) == Run(Next(s, e), rest) && StaysPending(s, [e] + rest)
  {
    var longer := [e] + rest;
    if rest == [] {
      assert longer == [e] && [e][..0] == [];
      assert Run(s, [e]) == Next(Run(s, []), e) && StaysPending(s, []);
    } else {
      var n := |rest| - 1;
      assert longer[..n + 1] == [e] + rest[..n] && longer[n + 1] == rest[n];
      RunCons(s, e, rest[..n]);
    }
  }

  lemma Now(s: System, ch: Choice)
    requires s.record.ws.reset && TurnsOn(s, ch)
    ensures CanTurnOn(s)
  {
    assert Run(s, []) == s && StaysPending(s, []);
  }

  lemma Earlier(s: System, e: Event)
    requires s.record.ws.reset && CanTurnOn(Next(s, e))
    ensures CanTurnOn(s)
  {
    var rest, ch :| StaysPending(Next(s, e), rest) && TurnsOn(Run(Next(s, e), rest), ch);
    RunCons(s, e, rest);
  }

  const GO := Controller(SMOOTH)

  lemma FromVmCreate(s: System)
    requires s.record.ws.reset && s.pc.Busy? && s.pc.at.VmCreate?
    ensures CanTurnOn(s)
  {
    var s1 := Next(s, RemoveVm);
    var s2 := Next(s1, FinishVmDeletion);
    assert s2.machine.vm.None? && s2.pc == s.pc && s2.record == s.record;
    Now(s2, SMOOTH);
    Earlier(s1, FinishVmDeletion);
    Earlier(s, RemoveVm);
  }

  lemma FromReadVm(s: System)
    requires s.record.ws.reset && s.pc.Busy? && s.pc.at.ReadVm?
    ensures CanTurnOn(s)
  {
    var s1 := Next(s, RemoveVm);
    var s2 := Next(s1, FinishVmDeletion);
    assert s2.machine.vm.None? && s2.pc == s.pc && s2.record == s.record;
    var s3 := Next(s2, GO);
    assert s3.pc.at.VmCreate? && s3.record == s.record;
    FromVmCreate(s3);
    Earlier(s2, GO);
    Earlier(s1, FinishVmDeletion);
    Earlier(s, RemoveVm);
  }

  lemma FromBackfill(s: System)
    requires Inv(s) && s.record.ws.reset && s.pc.Busy? && s.pc.at.BootstrapBackfill?
    ensures CanTurnOn(s)
  {
    var s1 := Next(s, GO);
    assert s1.pc.at.ReadVm? && s1.record == s.record;
    FromReadVm(s1);
    Earlier(s, GO);
  }

  /** Somebody else's Secret in the way can be removed. */
  lemma RemoveForeign(s: System) returns (d: System)
    requires Inv(s) && s.record.ws.reset && s.pc.Busy? && !Owned(s.vault, s.pc.copy.ws.generation)
    ensures d.pc == s.pc && d.record == s.record && d.pc.copy.ws.generation !in d.vault.secrets && Inv(d)
    ensures CanTurnOn(d) ==> CanTurnOn(s)
  {
    var e := RemoveForeignSecret(s.pc.copy.ws.generation);
    d := Next(s, e);
    StepKeepsInv(s, e);
    if CanTurnOn(d) {
      Earlier(s, e);
    }
  }

  lemma FromBootstrapCreate(s: System)
    requires Inv(s) && s.record.ws.reset && s.pc.Busy? && s.pc.at.BootstrapCreate?
    ensures CanTurnOn(s)
  {
    var s1 := RemoveForeign(s);
    var s2 := Next(s1, GO);
    assert s2.pc.at.ReadVm? && s2.record == s.record;
    FromReadVm(s2);
    Earlier(s1, GO);
  }

  lemma FromBootstrapRead(s: System)
    requires Inv(s) && s.record.ws.reset && s.pc.Busy? && s.pc.at.BootstrapRead?
    ensures CanTurnOn(s)
  {
    var s1 := s;
    if !Owned(s.vault, s.pc.copy.ws.generation) {
      s1 := RemoveForeign(s);
    }
    var s2 := Next(s1, GO);
    StepKeepsInv(s1, GO);
    assert s2.record == s.record && s2.pc.Busy?;
    if s2.pc.at.ReadVm? {
      FromReadVm(s2);
    } else if s2.pc.at.BootstrapBackfill? {
      FromBackfill(s2);
    } else {
      FromBootstrapCreate(s2);
    }
    Earlier(s1, GO);
  }

  lemma FromRefetch(s: System, uid: nat)
    requires s.record.ws.reset && s.pc.Busy? && s.pc.at == VmRefetch(uid) && WantsOn(s, uid)
    ensures CanTurnOn(s)
  {
    var e := EditVm(Running(false), s.pc.copy.ws.gpu);
    var s1 := Next(s, e);
    RefetchAct(s1, SMOOTH);
    var s2 := Next(s1, GO);
    assert s2 == s1.(pc := Busy(s.pc.copy, VmWrite(s1.machine.vm.value)));
    WriteAct(s2, SMOOTH);
    Now(s2, SMOOTH);
    Earlier(s1, GO);
    Earlier(s, e);
  }

  lemma FromWrite(s: System, seen: Vm)
    requires Inv(s) && s.record.ws.reset && s.pc.Busy? && s.pc.at == VmWrite(seen) && WantsOn(s, seen.uid)
    ensures CanTurnOn(s)
  {
    var e := EditVm(Running(false), s.pc.copy.ws.gpu);
    var s1 := Next(s, e);
    assert s1.machine.vm.value.version != seen.version;
    var s2 := Next(s1, GO);
    assert s2 == s1.(pc := Busy(s.pc.copy, VmRefetch(seen.uid)));
    FromRefetch(s2, seen.uid);
    Earlier(s1, GO);
    Earlier(s, e);
  }

  lemma FromGuard(s: System, seen: Vm)
    requires Inv(s) && s.record.ws.reset && s.pc.Busy? && s.pc.at == GuardReadVmi(seen) && WantsOn(s, seen.uid)
    ensures CanTurnOn(s)
  {
    var s1 := Next(s, StopVmi);
    StepKeepsInv(s, StopVmi);
    var s2 := Next(s1, GO);
    StepKeepsInv(s1, GO);
    assert s2 == s1.(pc := Busy(s.pc.copy, VmWrite(seen)));
    FromWrite(s2, seen);
    Earlier(s1, GO);
    Earlier(s, StopVmi);
  }

  /** With a VMI there is one; with a VM somebody can give it one. */
  lemma WithVmi(s: System) returns (d: System)
    requires Inv(s) && s.record.ws.reset && s.pc.Busy? && (s.machine.vmi || s.machine.vm.Some?)
    ensures Inv(d) && d.pc == s.pc && d.record == s.record && d.machine.vmi
    ensures CanTurnOn(d) ==> CanTurnOn(s)
  {
    d := s;
    if !s.machine.vmi {
      var e := EditVm(Running(true), s.pc.copy.ws.gpu);
      var s1 := Next(s, e);
      StepKeepsInv(s, e);
      d := Next(s1, StartVmi);
      StepKeepsInv(s1, StartVmi);
      if CanTurnOn(d) {
        Earlier(s1, StartVmi);
        Earlier(s, e);
      }
    }
  }

  lemma FromReboot(s: System)
    requires Inv(s) && s.record.ws.reset && s.pc.Busy? && s.pc.at.RebootReadVmi? && (s.machine.vmi || s.machine.vm.Some?)
    ensures CanTurnOn(s)
  {
    var s1 := WithVmi(s);
    var s2 := Next(s1, GO);
    StepKeepsInv(s1, GO);
    assert s2 == s1.(pc := AfterReboot(s.pc.copy));
    if s2.pc.at.ReadVm? {
      FromReadVm(s2);
    } else {
      FromBootstrapRead(s2);
    }
    Earlier(s1, GO);
  }

  lemma FromDetach(s: System)
    requires Inv(s) && s.record.ws.reset && s.pc.Busy? && s.pc.at.DetachReadVmi? && (s.machine.vmi || s.machine.vm.Some?)
    ensures CanTurnOn(s)
  {
    var s1 := WithVmi(s);
    var s2 := Next(s1, GO);
    StepKeepsInv(s1, GO);
    assert s2 == s1.(pc := AfterDetach(s.pc.copy));
    if s2.pc.at.RebootReadVmi? {
      FromReboot(s2);
    } else if s2.pc.at.ReadVm? {
      FromReadVm(s2);
    } else {
      FromBootstrapRead(s2);
    }
    Earlier(s1, GO);
  }

  lemma MayMeansCan(s: System)
    requires Inv(s) && s.record.ws.reset && MayTurnOn(s)
    ensures CanTurnOn(s)
  {
    match s.pc.at
    case DetachReadVmi => FromDetach(s);
    case RebootReadVmi => FromReboot(s);
    case BootstrapRead => FromBootstrapRead(s);
    case BootstrapBackfill => FromBackfill(s);
    case BootstrapCreate => FromBootstrapCreate(s);
    case ReadVm => FromReadVm(s);
    case VmCreate => FromVmCreate(s);
    case VmRefetch(uid) => FromRefetch(s, uid);
    case GuardReadVmi(seen) => FromGuard(s, seen);
    case VmWrite(seen) => FromWrite(s, seen);
  }

  // ---------------------------------------------------------------- main results

  /**
   Once a reset is pending and no older round is under way, no call of the controller creates a VM or turns one on, in
   any continuation along which the reset stays pending.
   */
  lemma ResetNeverTurnsOn(gpu: Hardware, trace: seq<Event>, rest: seq<Event>, ch: Choice)
    requires var s := Run(Initial(gpu), trace); s.pc.Idle? || s.pc.copy.ws.reset
    requires StaysPending(Run(Initial(gpu), trace), rest)
    ensures !TurnsOn(Run(Run(Initial(gpu), trace), rest), ch)
  {
    TurnsOnExactly(gpu, trace);
  }

  lemma {:induction false} PendingFromStart(s: System, rest: seq<Event>)
    requires StaysPending(s, rest)
    ensures s.record.ws.reset
  {
    if rest != [] {
      PendingFromStart(s, rest[..|rest| - 1]);
    }
  }

  /**
   In every reachable state with the reset pending: a VM can still be created or turned on by the controller while the
   reset stays pending, if and only if an older round with its write or create ahead is under way.
   */
  lemma TurnsOnExactly(gpu: Hardware, trace: seq<Event>)
    ensures var s := Run(Initial(gpu), trace); CanTurnOn(s) <==> s.record.ws.reset && MayTurnOn(s)
  {
    var s := Run(Initial(gpu), trace);
    RunKeepsInv(gpu, trace);
    if s.record.ws.reset && MayTurnOn(s) {
      MayMeansCan(s);
    } else {
      forall rest, ch | StaysPending(s, rest)
        ensures !TurnsOn(Run(s, rest), ch)
      {
        PendingFromStart(s, rest);
        RunIsHarmless(s, rest);
        CallIsHarmless(Run(s, rest), ch);
      }
    }
  }

  /** Such a round, in a run from the beginning: it is about to turn a halted VM on when the reset is asked for, and does. */
  lemma OlderRoundTurnsOn(gpu: Hardware) returns (trace: seq<Event>)
    ensures var s := Run(Initial(gpu), trace); s.record.ws.reset && s.machine.vm.Some? && TurnsOn(s, SMOOTH)
  {
    trace := CreatedRun(gpu);
    trace := Extend(gpu, trace, EditVm(Running(false), gpu));
    trace := Extend(gpu, trace, EditWorkspace(false, "", false, gpu));
    trace := Extend(gpu, trace, GO);
    assert Run(Initial(gpu), trace).pc.at.BootstrapRead?;
    trace := Extend(gpu, trace, GO);
    trace := ReachWrite(gpu, trace);
    trace := Extend(gpu, trace, EditWorkspace(false, "", true, gpu));
    WriteAct(Run(Initial(gpu), trace), SMOOTH);
  }

  lemma ReachWrite(gpu: Hardware, trace: seq<Event>) returns (longer: seq<Event>)
    requires var s := Run(Initial(gpu), trace);
             && s.pc.Busy? && s.pc.at.ReadVm? && Active(s.pc.copy.ws) && s.machine.vm.Some?
             && var vm := s.machine.vm.value;
             && vm.controlled && vm.generation == s.pc.copy.ws.generation && !vm.deleting
             && vm.gpu == s.pc.copy.ws.gpu && vm.run == Running(false)
    ensures var s, d := Run(Initial(gpu), trace), Run(Initial(gpu), longer);
            d == s.(pc := Busy(s.pc.copy, VmWrite(s.machine.vm.value)))
  {
    ReadVmAct(Run(Initial(gpu), trace), SMOOTH);
    longer := Extend(gpu, trace, GO);
    RefetchAct(Run(Initial(gpu), longer), SMOOTH);
    longer := Extend(gpu, longer, GO);
  }
}
