/**
 Resets in the Windows lifecycle of `WindowsGuest` (handleReset in internal/controller/workspace_controller.go):
 what a pending reset never does, when its deletion is safe, and when it is consumed.
 */
module WindowsReset {
  import opened ApiServer
  import opened WindowsGuest
  import opened WindowsProgress

  /** A round that saw the reset does nothing but reset steps until it ends, creates no VM and turns none on. */
  lemma ResetRoundOnlyResets(gpu: Hardware, trace: seq<Event>, ch: Choice)
    requires var s := Run(Initial(gpu), trace); s.pc.Busy? && s.pc.copy.ws.reset
    ensures var s := Run(Initial(gpu), trace);
            var d := Act(s, ch);
            && (d.machine.vm.Some? ==> s.machine.vm.Some? && (Halted(s.machine.vm.value.run) ==> Halted(d.machine.vm.value.run)))
            && d.machine.vmi == s.machine.vmi
            && (d.pc.Idle? || (d.pc.copy == s.pc.copy && ResetPoint(d.pc.at)))
  {
    RunKeepsInv(gpu, trace);
  }

  /** The controller's next call starts the deletion of the VM. */
  predicate StartsDeletion(s: System, ch: Choice) {
    && s.machine.vm.Some? && !s.machine.vm.value.deleting
    && Act(s, ch).machine.vm.Some? && Act(s, ch).machine.vm.value.deleting
  }

  /** Only the delete step of a reset does that, with the reset still pending. */
  lemma DeletionNeedsReset(gpu: Hardware, trace: seq<Event>, ch: Choice)
    requires StartsDeletion(Run(Initial(gpu), trace), ch)
    ensures var s := Run(Initial(gpu), trace); s.pc.Busy? && s.pc.at.ResetDelete? && s.record.ws.reset
  {
    RunKeepsInv(gpu, trace);
    OnlyResetDeletes(Run(Initial(gpu), trace), ch);
  }

  lemma OnlyResetDeletes(s: System, ch: Choice)
    requires StartsDeletion(s, ch)
    requires s.pc.Busy? && s.pc.at.VmWrite? ==> SeenVm(s.machine, s.pc.at.seen)
    ensures s.pc.Busy? && s.pc.at.ResetDelete?
  {
  }

  /** An event by which nobody turns the VM on. */
  predicate KeepsOff(e: Event) {
    e.EditVm? ==> e.run == Running(false) || e.run == Strategy("Halted")
  }

  ghost predicate DeletesSafely(s: System, rest: seq<Event>, ch: Choice) {
    StartsDeletion(Run(s, rest), ch) ==> !Run(s, rest).machine.vmi
  }

  /** The VM the reset is about to delete cannot get a VMI by itself. */
  predicate StaysDown(m: Machine) {
    m.vm.Some? && !m.vm.value.deleting ==> m.vm.value.run == Running(false) || m.vm.value.run == Strategy("Halted")
  }

  /** Kept by every event that turns nothing on: no VM is on a run strategy, and past the reset's reads it is halted. */
  ghost predicate DeletionInv(s: System) {
    && (s.machine.vm.Some? && !s.machine.vm.value.deleting ==> s.machine.vm.value.run.Running? || Halted(s.machine.vm.value.run))
    && (s.pc.Busy? && (s.pc.at.ResetReadVmi? || s.pc.at.ResetDelete?) ==> StaysDown(s.machine))
    && (s.pc.Busy? && s.pc.at.ResetDelete? && s.machine.vm.Some? && !s.machine.vm.value.deleting ==> !s.machine.vmi)
  }

  lemma ResetKeepsDeletionInv(s: System, ch: Choice)
    requires DeletionInv(s) && s.pc.Busy? && ResetPoint(s.pc.at)
    ensures DeletionInv(ResetAct(s, s.pc.copy, s.pc.at, ch))
  {
  }

  lemma VmKeepsDeletionInv(s: System, ch: Choice)
    requires DeletionInv(s) && s.pc.Busy? && VmPoint(s.pc.at)
    ensures DeletionInv(VmAct(s, s.pc.copy, s.pc.at, ch))
  {
  }

  lemma ActKeepsDeletionInv(s: System, ch: Choice)
    requires DeletionInv(s)
    ensures DeletionInv(Act(s, ch))
  {
    if s.pc.Busy? && ResetPoint(s.pc.at) {
      ResetKeepsDeletionInv(s, ch);
    } else if s.pc.Busy? && VmPoint(s.pc.at) {
      VmKeepsDeletionInv(s, ch);
    } else {
      assert Act(s, ch).machine == s.machine;
    }
  }

  lemma OthersKeepDeletionInv(s: System, e: Event)
    requires DeletionInv(s) && KeepsOff(e) && !e.Controller?
    ensures DeletionInv(Next(s, e))
  {
  }

  lemma {:induction false} RunKeepsDeletionInv(s: System, rest: seq<Event>)
    requires Inv(s) && DeletionInv(s) && forall e <- rest :: KeepsOff(e)
    ensures Inv(Run(s, rest)) && DeletionInv(Run(s, rest))
  {
    if rest != [] {
      var n := |rest| - 1;
      RunKeepsDeletionInv(s, rest[..n]);
      assert rest[n] in rest;
      StepKeepsInv(Run(s, rest[..n]), rest[n]);
      if rest[n].Controller? {
        ActKeepsDeletionInv(Run(s, rest[..n]), rest[n].choice);
      } else {
        OthersKeepDeletionInv(Run(s, rest[..n]), rest[n]);
      }
    }
  }

  /**
   When a reset deletes safely. At the check for the VMI, with none there: every continuation in which nobody turns
   the VM on starts deletions only without a VMI, if and only if the VM is halted at that check.
   */
  lemma DeleteOnlyWithoutVmi(gpu: Hardware, trace: seq<Event>)
    requires var s := Run(Initial(gpu), trace); s.pc.Busy? && s.pc.at.ResetReadVmi? && !s.machine.vmi
    ensures var s := Run(Initial(gpu), trace);
            (forall rest, ch :: (forall e <- rest :: KeepsOff(e)) ==> DeletesSafely(s, rest, ch)) <==> StaysDown(s.machine)
  {
    var s := Run(Initial(gpu), trace);
    RunKeepsInv(gpu, trace);
    if StaysDown(s.machine) {
      forall rest: seq<Event>, ch | forall e <- rest :: KeepsOff(e)
        ensures DeletesSafely(s, rest, ch)
      {
        RunKeepsDeletionInv(s, rest);
        if StartsDeletion(Run(s, rest), ch) {
          OnlyResetDeletes(Run(s, rest), ch);
        }
      }
    } else {
      var ch := SMOOTH;
      var rest := [Controller(ch), StartVmi];
      StartedWhileDeleting(s, ch);
      assert (forall e <- rest :: KeepsOff(e)) && !DeletesSafely(s, rest, ch);
    }
  }

  /** A VM that is not halted may get its VMI between the check and the delete call. */
  lemma StartedWhileDeleting(s: System, ch: Choice)
    requires s.pc.Busy? && s.pc.at.ResetReadVmi? && !s.machine.vmi && !StaysDown(s.machine)
    ensures var d := Run(s, [Controller(ch), StartVmi]); StartsDeletion(d, ch) && d.machine.vmi
  {
    RunPair(s, Controller(ch), StartVmi);
  }

  lemma RunPair(s: System, e: Event, f: Event)
    ensures Run(s, [e, f]) == Next(Next(s, e), f)
  {
    assert [e, f][..1] == [e];
    assert Run(s, [e]) == Next(Run(s, []), e);
  }

  // ---------------------------------------------------------------- runs in which it is not safe

  /** A created workspace whose run field is edited and a reset asked for. */
  lemma ResetRequested(gpu: Hardware, run: RunField) returns (trace: seq<Event>)
    ensures var s := Run(Initial(gpu), trace);
            && s.pc.Idle? && s.record.ws.reset && !s.machine.vmi
            && s.machine.vm.Some? && !s.machine.vm.value.deleting && s.machine.vm.value.run == run
  {
    trace := CreatedRun(gpu);
    trace := Extend(gpu, trace, EditVm(run, gpu));
    trace := Extend(gpu, trace, EditWorkspace(false, "", true, gpu));
  }

  /** A reset round that has come to its check for the VMI. */
  lemma ResetAtCheck(gpu: Hardware, run: RunField) returns (trace: seq<Event>)
    requires run != Running(true)
    ensures var s := Run(Initial(gpu), trace);
            && s.pc.Busy? && s.pc.at.ResetReadVmi? && !s.machine.vmi
            && s.machine.vm.Some? && !s.machine.vm.value.deleting && s.machine.vm.value.run == run
  {
    trace := ResetRequested(gpu, run);
    trace := Extend(gpu, trace, Controller(SMOOTH));
    trace := Extend(gpu, trace, Controller(SMOOTH));
  }

  /** First story: the VM is halted at the check, somebody turns it on before the delete call, and it goes with its VMI. */
  lemma TurnedOnVmIsDeleted(gpu: Hardware) returns (trace: seq<Event>)
    ensures StartsDeletion(Run(Initial(gpu), trace), SMOOTH) && Run(Initial(gpu), trace).machine.vmi
  {
    trace := ResetAtCheck(gpu, Running(false));
    trace := Extend(gpu, trace, Controller(SMOOTH));
    trace := Extend(gpu, trace, EditVm(Running(true), gpu));
    trace := Extend(gpu, trace, StartVmi);
  }

  /** Second story: the VM is on a run strategy all the time, nobody edits it during the round, and it goes with its VMI. */
  lemma StrategyVmIsDeleted(gpu: Hardware) returns (trace: seq<Event>, rest: seq<Event>)
    ensures var s := Run(Initial(gpu), trace);
            && s.pc.Busy? && s.pc.at.ResetReadVmi? && !s.machine.vmi
            && rest == [Controller(SMOOTH), StartVmi]
            && StartsDeletion(Run(s, rest), SMOOTH) && Run(s, rest).machine.vmi
  {
    trace := ResetAtCheck(gpu, Strategy("Always"));
    rest := [Controller(SMOOTH), StartVmi];
    StartedWhileDeleting(Run(Initial(gpu), trace), SMOOTH);
  }

  // ---------------------------------------------------------------- progress of a reset

  /** How far a reset still has to go: on, halted with a VMI, halted, deleting, gone. */
  function Rank(m: Machine): nat {
    if m.vm.None? then 0
    else if m.vm.value.deleting then 1
    else if m.vm.value.run == Running(true) then 4
    else if m.vmi then 3
    else 2
  }

  /**
   Apart from editors of the run field, exactly one thing moves a reset backwards: KubeVirt starting the VMI of a VM
   that is on a run strategy.
   */
  lemma RankNeverRises(m: Machine, e: Event)
    requires !e.EditVm?
    ensures Rank(EditMachine(m, e)) <= Rank(m) <==>
            !(e.StartVmi? && !m.vmi && m.vm.Some? && !m.vm.value.deleting && m.vm.value.run.Strategy? && m.vm.value.run.name != "Halted")
  {
  }

  /** What one round of a pending reset makes of a machine with a VM. */
  function Stage(m: Machine): Machine {
    if m.vm.None? || m.vm.value.deleting then m
    else if m.vm.value.run == Running(true) then m.(vm := Some(m.vm.value.(run := Running(false), version := m.clock)), clock := m.clock + 1)
    else if m.vmi then m
    else m.(vm := Some(m.vm.value.(deleting := true, version := m.clock)), clock := m.clock + 1)
  }

  ghost predicate PendingReset(s: System) {
    s.pc.Idle? && s.record.ws.reset
  }

  /** The VM is on a run strategy with a VMI, which handleReset takes for halted and waits for. */
  predicate WaitsForVmi(m: Machine) {
    m.vm.Some? && !m.vm.value.deleting && m.vmi && m.vm.value.run.Strategy? && m.vm.value.run.name != "Halted"
  }

  predicate ForeignSecret(s: System) {
    s.record.ws.generation in s.vault.secrets && !s.vault.secrets[s.record.ws.generation].controlled
  }

  lemma ResetRoundWithVm(s: System, ch: Choice)
    requires PendingReset(s) && s.machine.vm.Some?
    ensures Round(s, ch) == s.(machine := Stage(s.machine))
    ensures var r := Rank(s.machine); Rank(Stage(s.machine)) == if r == 4 then (if s.machine.vmi then 3 else 2) else if r == 2 then 1 else r
  {
    var s1 := Act(s, ch);
    assert s1 == s.(pc := Busy(Copy(s.record.version, s.record.ws), ResetReadVm));
    var s2 := Act(s1, ch);
    FinishUnfold(s1, ch, LONGEST);
    if s2.pc.Busy? {
      FinishUnfold(s2, ch, LONGEST - 1);
      var s3 := Act(s2, ch);
      if s3.pc.Busy? {
        FinishUnfold(s3, ch, LONGEST - 2);
      }
    }
  }

  /** With the VM gone one round consumes the reset, unless somebody else's Secret is in the way; then nothing happens. */
  lemma ResetRoundWithoutVm(s: System, ch: Choice)
    requires PendingReset(s) && s.machine.vm.None?
    requires ch.generation != "" && ch.generation !in s.record.generations
    ensures var d := Round(s, ch);
            if ForeignSecret(s) then d == s
            else
              && d.pc.Idle? && d.machine == s.machine && d.vault.secrets == s.vault.secrets - {s.record.ws.generation}
              && d.record.ws == s.record.ws.(generation := ch.generation, provisioned := "", detaching := "", reset := false)
  {
    var s1 := Act(s, ch);
    assert s1.pc.at.ResetReadVm?;
    var s2 := Act(s1, ch);
    assert s2.pc.at.ResetReadSecret?;
    var s3 := Act(s2, ch);
    FinishUnfold(s1, ch, LONGEST);
    FinishUnfold(s2, ch, LONGEST - 1);
    if s3.pc.Busy? {
      FinishUnfold(s3, ch, LONGEST - 2);
      var s4 := Act(s3, ch);
      if s4.pc.Busy? {
        FinishUnfold(s4, ch, LONGEST - 3);
      }
    }
  }

  /** KubeVirt and the garbage collector do their part: a halted VM loses its VMI, a deleted VM goes away. */
  function ClusterProgress(s: System): System {
    if s.machine.vm.None? then s
    else if s.machine.vm.value.deleting then Next(s, FinishVmDeletion)
    else if Halted(s.machine.vm.value.run) then Next(s, StopVmi)
    else s
  }

  /** Alternating rounds and cluster progress until the reset is consumed. */
  function ResetRounds(s: System, choices: seq<Choice>): System
    decreases |choices|
  {
    if choices == [] || !s.record.ws.reset then s
    else ResetRounds(ClusterProgress(Round(s, choices[0])), choices[1..])
  }

  /** The two things a reset cannot get past. */
  predicate Obstructed(s: System) {
    WaitsForVmi(s.machine) || ForeignSecret(s)
  }

  lemma {:induction false} FreeResetIsConsumed(s: System, choices: seq<Choice>)
    requires PendingReset(s) && !Obstructed(s) && |choices| > Rank(s.machine)
    requires forall ch <- choices :: ch.generation != "" && ch.generation !in s.record.generations
    ensures var d := ResetRounds(s, choices);
            !d.record.ws.reset && d.machine.vm.None? && d.record.ws.generation !in s.record.generations
    decreases |choices|
  {
    var next := ClusterProgress(Round(s, choices[0]));
    assert choices[0] in choices;
    if s.machine.vm.None? {
      ResetRoundWithoutVm(s, choices[0]);
      assert ResetRounds(next, choices[1..]) == next;
    } else {
      ResetRoundWithVm(s, choices[0]);
      assert next.record == s.record && next.vault == s.vault && !Obstructed(next) && Rank(next.machine) < Rank(s.machine);
      FreeResetIsConsumed(next, choices[1..]);
    }
  }

  lemma {:induction false} ObstructedResetStays(s: System, choices: seq<Choice>)
    requires PendingReset(s) && Obstructed(s)
    requires forall ch <- choices :: ch.generation != "" && ch.generation !in s.record.generations
    ensures ResetRounds(s, choices).record.ws.reset
    decreases |choices|
  {
    if choices != [] {
      assert choices[0] in choices;
      var next := ClusterProgress(Round(s, choices[0]));
      if s.machine.vm.None? {
        ResetRoundWithoutVm(s, choices[0]);
      } else {
        ResetRoundWithVm(s, choices[0]);
      }
      assert next.record == s.record && next.vault == s.vault && Obstructed(next);
      ObstructedResetStays(next, choices[1..]);
    }
  }

  /**
   A reset is consumed within one more rounds than its rank, leaving no VM and a new generation, if and only if
   at the start the VM is not on a run strategy with a VMI, and the generation's Secret is absent or owned.
   */
  lemma ResetIsConsumed(s: System, choices: seq<Choice>)
    requires PendingReset(s) && |choices| > Rank(s.machine)
    requires forall ch <- choices :: ch.generation != "" && ch.generation !in s.record.generations
    ensures !ResetRounds(s, choices).record.ws.reset <==> !Obstructed(s)
    ensures !Obstructed(s) ==> var d := ResetRounds(s, choices); d.machine.vm.None? && d.record.ws.generation !in s.record.generations
  {
    if Obstructed(s) {
      ObstructedResetStays(s, choices);
    } else {
      FreeResetIsConsumed(s, choices);
    }
  }

  lemma {:induction false} StrategyResetIsStuck(s: System, choices: seq<Choice>)
    requires PendingReset(s) && WaitsForVmi(s.machine)
    ensures ResetRounds(s, choices) == s
    decreases |choices|
  {
    if choices != [] {
      ResetRoundWithVm(s, choices[0]);
      StrategyResetIsStuck(s, choices[1..]);
    }
  }

  /** A reset that is never consumed, in a run from the beginning: the VM was put on runStrategy Always and has its VMI. */
  lemma StrategyResetWaitsForever(gpu: Hardware) returns (trace: seq<Event>)
    ensures var s := Run(Initial(gpu), trace);
            PendingReset(s) && s.machine.vm.Some? && s.machine.vm.value.run == Strategy("Always")
            && forall choices :: ResetRounds(s, choices) == s
  {
    trace := ResetRequested(gpu, Strategy("Always"));
    trace := Extend(gpu, trace, StartVmi);
    var s := Run(Initial(gpu), trace);
    forall choices
      ensures ResetRounds(s, choices) == s
    {
      StrategyResetIsStuck(s, choices);
    }
  }
}
