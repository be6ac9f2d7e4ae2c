/**
 Exactly what one uninterrupted round of the Windows controller of `WindowsGuest` does, in every reachable state
 without a pending reset: which marks it removes or sets, what it does to the Secret and to the VM, and what it
 reports. Everything is said in terms of the stored fields.
 */
module WindowsOutcome {
  import opened ApiServer
  import opened WindowsGuest
  import opened WindowsProgress

  // ---------------------------------------------------------------- the specification, on the stored fields

  /** The marks once the VMI is gone: neither a detach nor a reboot is left. With a VMI they stay. */
  function Marks(s: System): Workspace {
    if s.machine.vmi then s.record.ws else s.record.ws.(detaching := "", reboot := "")
  }

  predicate On(ws: Workspace) {
    !ws.stopped && ws.reboot == "" && ws.detaching != ws.generation
  }

  predicate SetUp(ws: Workspace) {
    ws.provisioned == ws.generation
  }

  /** Finishing a detach removes the answer file. */
  function SecretsAfterDetach(s: System): map<string, Secret> {
    var g, secrets := s.record.ws.generation, s.vault.secrets;
    if s.record.ws.detaching == g && !s.machine.vmi && g in secrets then secrets[g := secrets[g].(answer := false)] else secrets
  }

  /** A workspace that is to be on passes its checks, and its Secret is not somebody else's. */
  predicate Admitted(s: System, ch: Choice) {
    && ch.profileValid
    && (On(Marks(s)) ==> ch.preflight && (s.record.ws.generation in s.vault.secrets ==> s.vault.secrets[s.record.ws.generation].controlled))
  }

  /** A guest still to be set up gets its Secret, complete with token, before the VM. */
  function SecretsAfter(s: System, ch: Choice): map<string, Secret> {
    var g, secrets := s.record.ws.generation, SecretsAfterDetach(s);
    if !On(Marks(s)) || !Admitted(s, ch) || SetUp(Marks(s)) then secrets
    else if g in secrets then secrets[g := secrets[g].(token := true)]
    else secrets[g := Secret(true, ch.password, true, true)]
  }

  predicate Met(have: map<string, string>, wanted: map<string, string>) {
    forall k <- wanted :: k in have && have[k] == wanted[k]
  }

  /** The stored VM shows something else than is wanted; devices and resources nobody asked for do not count. */
  predicate Differs(ws: Workspace, vm: Vm, drift: bool) {
    || (vm.run == Running(true)) != On(ws)
    || vm.sysprep != !SetUp(ws)
    || |vm.gpu.devices| != |ws.gpu.devices|
    || (exists i | 0 <= i < |ws.gpu.devices| && i < |vm.gpu.devices| :: !Met(vm.gpu.devices[i], ws.gpu.devices[i]))
    || !Met(vm.gpu.resources, ws.gpu.resources)
    || drift
  }

  predicate Mine(ws: Workspace, vm: Vm) {
    vm.controlled && vm.generation == ws.generation
  }

  /** Changed hardware needs a halted VM, no VMI and the GPU preflight. */
  predicate HardwareAllowed(s: System, vm: Vm, ch: Choice) {
    vm.gpu == s.record.ws.gpu || ((vm.run == Running(false) || vm.run == Strategy("Halted")) && !s.machine.vmi && ch.preflight)
  }

  predicate Creates(s: System, ch: Choice) {
    Admitted(s, ch) && ch.preflight && s.machine.vm.None?
  }

  predicate Writes(s: System, ch: Choice) {
    && Admitted(s, ch) && s.machine.vm.Some?
    && var vm := s.machine.vm.value;
       Mine(Marks(s), vm) && Differs(Marks(s), vm, ch.drift) && !vm.deleting && HardwareAllowed(s, vm, ch)
  }

  predicate Quiet(s: System, ch: Choice) {
    && Admitted(s, ch) && s.machine.vm.Some?
    && Mine(Marks(s), s.machine.vm.value) && !Differs(Marks(s), s.machine.vm.value, ch.drift)
  }

  function MachineAfter(s: System, ch: Choice): Machine {
    var ws, m := Marks(s), s.machine;
    if Creates(s, ch) then
      Machine(Some(Vm(m.clock, m.clock, true, ws.generation, false, Running(On(ws)), !SetUp(ws), ws.gpu)), m.vmi, m.clock + 1)
    else if Writes(s, ch) then
      m.(vm := Some(m.vm.value.(version := m.clock, run := Running(On(ws)), sysprep := !SetUp(ws), gpu := ws.gpu)), clock := m.clock + 1)
    else m
  }

  /** The round gets past the VM. */
  predicate Reaches(s: System, ch: Choice) {
    Creates(s, ch) || Writes(s, ch) || Quiet(s, ch)
  }

  predicate GuestSeen(s: System, ch: Choice) {
    Reaches(s, ch) && On(Marks(s)) && s.machine.vmi && ch.guestUp
  }

  /** A guest that has completed its setup is marked provisioned and detaching; it is not ready yet. */
  function WorkspaceAfter(s: System, ch: Choice): Workspace {
    var ws := Marks(s);
    if GuestSeen(s, ch) && !SetUp(ws) && ch.complete then ws.(provisioned := ws.generation, detaching := ws.generation) else ws
  }

  function ReportAfter(s: System, ch: Choice): Option<bool> {
    if !Reaches(s, ch) then None else Some(GuestSeen(s, ch) && SetUp(Marks(s)) && ch.podReady)
  }

  // ---------------------------------------------------------------- following a round

  /** From state `i` of the path one call leads to the next state, without ending the round or reporting before it. */
  ghost predicate StepAt(path: seq<System>, ch: Choice, i: nat) {
    i + 1 < |path| && path[i].pc.Busy? && !path[i].pc.at.Report? && path[i + 1] == Act(path[i], ch)
  }

  ghost predicate Leads(path: seq<System>, ch: Choice, s: System, mid: System) {
    && |path| > 0 && path[0] == s && path[|path| - 1] == mid
    && forall i: nat :: i + 1 < |path| ==> StepAt(path, ch, i)
  }

  /** What the round reports, if it comes to that. */
  function Reported(s: System, ch: Choice, fuel: nat): Option<bool>
    decreases fuel
  {
    if s.pc.Idle? || fuel == 0 then None
    else if s.pc.at.Report? then Some(s.pc.at.ready)
    else Reported(Act(s, ch), ch, fuel - 1)
  }

  lemma Here(s: System, ch: Choice) returns (path: seq<System>)
    ensures Leads(path, ch, s, s) && |path| == 1
  {
    path := [s];
  }

  lemma One(s: System, ch: Choice, mid: System) returns (path: seq<System>)
    requires s.pc.Busy? && !s.pc.at.Report? && Act(s, ch) == mid
    ensures Leads(path, ch, s, mid) && |path| == 2
  {
    path := [s, mid];
    assert StepAt(path, ch, 0);
  }

  lemma Then(a: seq<System>, b: seq<System>, ch: Choice, s: System, mid: System, end: System) returns (path: seq<System>)
    requires Leads(a, ch, s, mid) && Leads(b, ch, mid, end)
    ensures Leads(path, ch, s, end) && |path| == |a| + |b| - 1
  {
    path := a + b[1..];
    forall i: nat | i + 1 < |path|
      ensures StepAt(path, ch, i)
    {
      if i + 1 < |a| {
        assert StepAt(a, ch, i);
      } else {
        var j: nat := i + 1 - |a|;
        assert StepAt(b, ch, j);
        assert path[i] == b[j] && path[i + 1] == b[j + 1];
      }
    }
  }

  lemma {:induction false} Follow(path: seq<System>, ch: Choice, s: System, mid: System, fuel: nat)
    requires Leads(path, ch, s, mid) && |path| - 1 <= fuel
    ensures Finish(s, ch, fuel) == Finish(mid, ch, fuel - (|path| - 1))
    ensures Reported(s, ch, fuel) == Reported(mid, ch, fuel - (|path| - 1))
    decreases |path|
  {
    if |path| > 1 {
      assert StepAt(path, ch, 0);
      var rest := path[1..];
      forall i: nat | i + 1 < |rest|
        ensures StepAt(rest, ch, i)
      {
        assert StepAt(path, ch, i + 1);
      }
      Follow(rest, ch, path[1], mid, fuel - 1);
    }
  }

  // ---------------------------------------------------------------- stage 1: detach and reboot

  /** A state within a round whose copy is the stored Workspace. */
  ghost predicate Current(s: System) {
    Inv(s) && s.pc.Busy? && s.pc.copy == Copy(s.record.version, s.record.ws) && !s.pc.copy.ws.reset
  }

  /** The marks are settled and the round goes on to the Secret or the VM. */
  ghost predicate AfterLifecycle(s: System, d: System) {
    && Current(d) && d.pc == AfterReboot(d.pc.copy) && d.machine == s.machine
    && d.record.ws == Marks(s) && d.vault.secrets == SecretsAfterDetach(s)
  }

  lemma RebootStage(s: System, ch: Choice) returns (path: seq<System>, d: System)
    requires Current(s) && s.pc.at.RebootReadVmi? && s.record.ws.detaching != s.record.ws.generation && !s.machine.vmi
    ensures |path| <= 3 && Leads(path, ch, s, d)
    ensures Current(d) && d.pc == AfterReboot(d.pc.copy) && d.machine == s.machine && d.vault == s.vault
    ensures d.record.ws == s.record.ws.(reboot := "")
  {
    ControllerKeepsInv(s, ch);
    var mid := Act(s, ch);
    path := One(s, ch, mid);
    ControllerKeepsInv(mid, ch);
    d := Act(mid, ch);
    var more := One(mid, ch, d);
    path := Then(path, more, ch, s, mid, d);
  }

  lemma RebootWithVmi(s: System, ch: Choice) returns (path: seq<System>, d: System)
    requires Current(s) && s.pc.at.RebootReadVmi? && s.machine.vmi
    ensures |path| == 2 && Leads(path, ch, s, d) && d == s.(pc := AfterReboot(s.pc.copy)) && Inv(d)
  {
    ControllerKeepsInv(s, ch);
    d := Act(s, ch);
    path := One(s, ch, d);
  }

  /** Without a VMI the answer file goes. */
  lemma AnswerStage(s: System, ch: Choice) returns (path: seq<System>, d: System)
    requires Current(s) && s.pc.at.DetachReadVmi? && !s.machine.vmi
    ensures |path| == 4 && Leads(path, ch, s, d) && Inv(d) && d.pc == Busy(s.pc.copy, DetachCommit)
    ensures d.machine == s.machine && d.record == s.record && d.vault.secrets == SecretsAfterDetach(s)
  {
    var s1 := Act(s, ch);
    assert s1.pc.at.DetachReadSecret?;
    ControllerKeepsInv(s, ch);
    var s2 := Act(s1, ch);
    assert s2.pc.at.DetachWriteSecret?;
    ControllerKeepsInv(s1, ch);
    d := Act(s2, ch);
    ControllerKeepsInv(s2, ch);
    path := One(s, ch, s1);
    var more := One(s1, ch, s2);
    path := Then(path, more, ch, s, s1, s2);
    more := One(s2, ch, d);
    path := Then(path, more, ch, s, s2, d);
  }

  /** And then the mark. */
  lemma DetachStage(s: System, ch: Choice) returns (path: seq<System>, d: System)
    requires Current(s) && s.pc.at.DetachReadVmi? && !s.machine.vmi
    ensures |path| == 5 && Leads(path, ch, s, d) && Current(d) && d.pc == AfterDetach(d.pc.copy) && d.machine == s.machine
    ensures d.record.ws == s.record.ws.(detaching := "") && d.vault.secrets == SecretsAfterDetach(s)
  {
    var mid;
    path, mid := AnswerStage(s, ch);
    d := Act(mid, ch);
    ControllerKeepsInv(mid, ch);
    var more := One(mid, ch, d);
    path := Then(path, more, ch, s, mid, d);
  }

  lemma DetachWithVmi(s: System, ch: Choice) returns (path: seq<System>, d: System)
    requires Current(s) && s.pc.at.DetachReadVmi? && s.machine.vmi
    ensures |path| == 2 && Leads(path, ch, s, d) && d == s.(pc := AfterDetach(s.pc.copy)) && Inv(d)
  {
    ControllerKeepsInv(s, ch);
    d := Act(s, ch);
    path := One(s, ch, d);
  }

  lemma LifecycleWithVmi(s: System, ch: Choice) returns (path: seq<System>, d: System)
    requires Current(s) && s.machine.vmi && s.pc == BeginRound(s.pc.copy) && s.record.ws.generation != ""
    ensures |path| <= 3 && Leads(path, ch, s, d) && AfterLifecycle(s, d)
  {
    d := s;
    path := Here(s, ch);
    if s.pc.at.DetachReadVmi? {
      path, d := DetachWithVmi(s, ch);
    }
    if d.pc.at.RebootReadVmi? {
      var mid, more := d, path;
      more, d := RebootWithVmi(mid, ch);
      path := Then(path, more, ch, s, mid, d);
    }
  }

  lemma LifecycleWithoutVmi(s: System, ch: Choice) returns (path: seq<System>, d: System)
    requires Current(s) && !s.machine.vmi && s.pc == BeginRound(s.pc.copy) && s.record.ws.generation != ""
    ensures |path| <= 7 && Leads(path, ch, s, d) && AfterLifecycle(s, d)
  {
    d := s;
    path := Here(s, ch);
    if s.pc.at.DetachReadVmi? {
      path, d := DetachStage(s, ch);
    }
    if d.pc.at.RebootReadVmi? {
      var mid, more := d, path;
      more, d := RebootStage(mid, ch);
      path := Then(path, more, ch, s, mid, d);
    }
  }

  // ---------------------------------------------------------------- stage 2: the Secret

  /** The Secret is in order and the round goes on to the VM. */
  ghost predicate AfterSecret(s: System, d: System, ch: Choice)
    requires s.pc.Busy?
  {
    && d.pc == Busy(s.pc.copy, ReadVm) && d.record == s.record && d.machine == s.machine
    && var g, secrets := s.record.ws.generation, s.vault.secrets;
       d.vault.secrets == if SetUp(s.record.ws) then secrets
                          else if g in secrets then secrets[g := secrets[g].(token := true)]
                          else secrets[g := Secret(true, ch.password, true, true)]
  }

  predicate SecretFree(s: System) {
    s.record.ws.generation in s.vault.secrets ==> s.vault.secrets[s.record.ws.generation].controlled
  }

  lemma SecretStage(s: System, ch: Choice) returns (path: seq<System>, d: System)
    requires Current(s) && s.pc.at.BootstrapRead? && ch.password != "" && ch.profileValid && ch.preflight && SecretFree(s)
    ensures |path| <= 3 && Leads(path, ch, s, d) && AfterSecret(s, d, ch) && s.record.ws.generation in d.vault.secrets
  {
    d := Act(s, ch);
    path := One(s, ch, d);
    var g, secrets := s.record.ws.generation, s.vault.secrets;
    assert SetUp(s.record.ws) ==> Owned(s.vault, g);
    assert g in secrets ==> Owned(s.vault, g) && (SetUp(s.record.ws) || secrets[g].answer) && secrets[g].password != "";
    if !d.pc.at.ReadVm? {
      var mid := d;
      d := Act(mid, ch);
      var more := One(mid, ch, d);
      path := Then(path, more, ch, s, mid, d);
    } else if !SetUp(s.record.ws) {
      assert secrets[g].token && secrets[g := secrets[g].(token := true)] == secrets;
    }
  }

  lemma SecretRefused(s: System, ch: Choice) returns (path: seq<System>)
    requires Current(s) && s.pc.at.BootstrapRead? && !(ch.profileValid && ch.preflight && SecretFree(s))
    ensures |path| == 2 && Leads(path, ch, s, s.(pc := Idle))
  {
    path := One(s, ch, s.(pc := Idle));
  }

  // ---------------------------------------------------------------- stage 3: the VM

  lemma DiffersIsNeeds(ws: Workspace, vm: Vm, drift: bool)
    ensures Differs(ws, vm, drift) <==> VmNeedsUpdate(ws, vm, drift)
  {
    assert forall have, wanted :: Met(have, wanted) <==> Extends(have, wanted);
  }

  /** The VM stage from `ReadVm`, on its own: what it does to the machine, and whether the round goes on. */
  ghost predicate AfterVm(s: System, d: System, ch: Choice)
    requires s.pc.Busy?
  {
    var ws, m := s.pc.copy.ws, s.machine;
    && d.record == s.record && d.vault == s.vault
    && if m.vm.None? then
         if ch.profileValid && ch.preflight then
           && d.pc == Busy(s.pc.copy, ReadyCheck)
           && d.machine == Machine(Some(Vm(m.clock, m.clock, true, ws.generation, false, Running(On(ws)), !SetUp(ws), ws.gpu)), m.vmi, m.clock + 1)
         else d.pc.Idle? && d.machine == m
       else
         var vm := m.vm.value;
         if !ch.profileValid || !Mine(ws, vm) then d.pc.Idle? && d.machine == m
         else if !Differs(ws, vm, ch.drift) then d.pc == Busy(s.pc.copy, ReadyCheck) && d.machine == m
         else if !vm.deleting && (vm.gpu == ws.gpu || ((vm.run == Running(false) || vm.run == Strategy("Halted")) && !m.vmi && ch.preflight)) then
           && d.pc == Busy(s.pc.copy, ReadyCheck)
           && d.machine == m.(vm := Some(vm.(version := m.clock, run := Running(On(ws)), sysprep := !SetUp(ws), gpu := ws.gpu)), clock := m.clock + 1)
         else d.pc.Idle? && d.machine == m
  }

  lemma NewVmStage(s: System, ch: Choice) returns (path: seq<System>, d: System)
    requires s.pc.Busy? && s.pc.at.ReadVm? && s.machine.vm.None?
    ensures |path| <= 3 && Leads(path, ch, s, d) && AfterVm(s, d, ch)
  {
    d := Act(s, ch);
    path := One(s, ch, d);
    if ch.profileValid {
      var mid := d;
      assert mid == s.(pc := Busy(s.pc.copy, VmCreate));
      d := Act(mid, ch);
      var more := One(mid, ch, d);
      path := Then(path, more, ch, s, mid, d);
    }
  }

  lemma GuardStep(s: System, ch: Choice) returns (path: seq<System>, d: System)
    requires s.pc.Busy? && s.pc.at.GuardReadVmi?
    ensures |path| == 2 && Leads(path, ch, s, d)
    ensures d == s.(pc := if s.machine.vmi || !ch.preflight then Idle else Busy(s.pc.copy, VmWrite(s.pc.at.seen)))
  {
    d := Act(s, ch);
    path := One(s, ch, d);
  }

  lemma UpdateStage(s: System, ch: Choice) returns (path: seq<System>, d: System)
    requires s.pc.Busy? && s.machine.vm.Some? && s.pc.at == VmRefetch(s.machine.vm.value.uid) && ch.profileValid
    requires Mine(s.pc.copy.ws, s.machine.vm.value) && Differs(s.pc.copy.ws, s.machine.vm.value, ch.drift)
    ensures |path| <= 4 && Leads(path, ch, s, d) && AfterVm(s, d, ch)
  {
    var vm, ws := s.machine.vm.value, s.pc.copy.ws;
    DiffersIsNeeds(ws, vm, ch.drift);
    RefetchAct(s, ch);
    d := Act(s, ch);
    path := One(s, ch, d);
    if d.pc.Busy? && d.pc.at.GuardReadVmi? {
      var mid, more := d, path;
      more, d := GuardStep(mid, ch);
      path := Then(path, more, ch, s, mid, d);
    }
    if d.pc.Busy? {
      var mid := d;
      WriteAct(mid, ch);
      d := Act(mid, ch);
      var more := One(mid, ch, d);
      path := Then(path, more, ch, s, mid, d);
    }
  }

  lemma VmStage(s: System, ch: Choice) returns (path: seq<System>, d: System)
    requires s.pc.Busy? && s.pc.at.ReadVm?
    ensures |path| <= 5 && Leads(path, ch, s, d) && AfterVm(s, d, ch)
  {
    if s.machine.vm.None? {
      path, d := NewVmStage(s, ch);
    } else {
      DiffersIsNeeds(s.pc.copy.ws, s.machine.vm.value, ch.drift);
      ReadVmAct(s, ch);
      d := Act(s, ch);
      path := One(s, ch, d);
      if d.pc.Busy? && d.pc.at.VmRefetch? {
        var mid, more := d, path;
        more, d := UpdateStage(mid, ch);
        path := Then(path, more, ch, s, mid, d);
      }
    }
  }

  // ---------------------------------------------------------------- stage 4: readiness

  /** The state and report of a round from here on. */
  ghost predicate EndsWith(s: System, ch: Choice, fuel: nat, ws: Workspace, report: Option<bool>) {
    var d := Finish(s, ch, fuel);
    && d.pc.Idle? && d.vault == s.vault && d.machine == s.machine && d.record.ws == ws
    && Reported(s, ch, fuel) == report
  }

  lemma MarkedEnd(s: System, ch: Choice, fuel: nat)
    requires s.pc == Busy(Copy(s.record.version, s.record.ws), ReadyCheck) && fuel >= 4 && s.record.ws.generation in s.vault.secrets
    requires On(s.record.ws) && s.machine.vmi && ch.guestUp && !SetUp(s.record.ws) && ch.complete
    ensures EndsWith(s, ch, fuel, s.record.ws.(provisioned := s.record.ws.generation, detaching := s.record.ws.generation), Some(false))
  {
    MarkTail(s, ch, fuel);
    ReportedMarks(s, ch, fuel);
  }

  lemma ReportedMarks(s: System, ch: Choice, fuel: nat)
    requires s.pc == Busy(Copy(s.record.version, s.record.ws), ReadyCheck) && fuel >= 4
    requires Active(s.record.ws) && s.record.ws.provisioned != s.record.ws.generation
    requires s.machine.vmi && ch.guestUp && ch.complete && s.record.ws.generation in s.vault.secrets
    ensures Reported(s, ch, fuel) == Some(false)
  {
    MarkActs(s, ch);
    var copy, g, version := s.pc.copy, s.record.ws.generation, s.record.version + 1;
    var marked := copy.ws.(provisioned := g, detaching := g);
    var s4, s5 := s.(pc := Busy(copy, ProvisionStage)), s.(pc := Busy(copy, ProvisionCommit));
    var s6 := s.(record := s.record.(version := version, ws := marked), pc := Busy(Copy(version, marked), Report(false)));
    var path := One(s, ch, s4);
    var more := One(s4, ch, s5);
    path := Then(path, more, ch, s, s4, s5);
    more := One(s5, ch, s6);
    path := Then(path, more, ch, s, s5, s6);
    Follow(path, ch, s, s6, fuel);
  }

  lemma PlainEnd(s: System, ch: Choice, fuel: nat)
    requires s.pc == Busy(Copy(s.record.version, s.record.ws), ReadyCheck) && fuel >= 4
    requires !(On(s.record.ws) && s.machine.vmi && ch.guestUp && !SetUp(s.record.ws) && ch.complete)
    ensures EndsWith(s, ch, fuel, s.record.ws, Some(On(s.record.ws) && s.machine.vmi && ch.guestUp && SetUp(s.record.ws) && ch.podReady))
  {
    var s1 := Act(s, ch);
    FinishUnfold(s, ch, fuel);
    FinishUnfold(s1, ch, fuel - 1);
  }

  // ---------------------------------------------------------------- the whole round

  ghost predicate RoundIs(s: System, ch: Choice, d: System, report: Option<bool>) {
    && d.pc.Idle?
    && d.record.ws == WorkspaceAfter(s, ch)
    && d.vault.secrets == SecretsAfter(s, ch)
    && d.machine == MachineAfter(s, ch)
    && report == ReportAfter(s, ch)
  }

  /** The VM stage of a round that is admitted does what the specification says of the machine. */
  lemma MachineIs(s: System, vmReady: System, d: System, ch: Choice)
    requires vmReady.pc.Busy? && vmReady.machine == s.machine && vmReady.pc.copy.ws == Marks(s) && AfterVm(vmReady, d, ch)
    requires On(Marks(s)) ==> Admitted(s, ch)
    ensures d.machine == MachineAfter(s, ch) && d.machine.vmi == s.machine.vmi && d.record == vmReady.record && d.vault == vmReady.vault
    ensures if Reaches(s, ch) then d.pc == Busy(vmReady.pc.copy, ReadyCheck) else d.pc.Idle?
  {
  }

  lemma SecretsAre(s: System, mid: System, d: System, ch: Choice)
    requires mid.pc.Busy? && mid.record.ws == Marks(s) && mid.vault.secrets == SecretsAfterDetach(s)
    requires On(Marks(s)) && Admitted(s, ch) && AfterSecret(mid, d, ch)
    ensures d.vault.secrets == SecretsAfter(s, ch)
  {
  }

  /** The state the VM stage leaves. */
  ghost predicate AfterStages(s: System, d: System, ch: Choice) {
    && d.machine == MachineAfter(s, ch) && d.machine.vmi == s.machine.vmi
    && d.vault.secrets == SecretsAfter(s, ch) && d.record.ws == Marks(s)
    && if Reaches(s, ch) then
         && d.pc == Busy(Copy(d.record.version, d.record.ws), ReadyCheck)
         && (On(Marks(s)) ==> d.record.ws.generation in d.vault.secrets)
       else d.pc.Idle?
  }

  lemma OffStages(s: System, mid: System, ch: Choice) returns (path: seq<System>, d: System)
    requires AfterLifecycle(s, mid) && !On(Marks(s))
    ensures |path| <= 5 && Leads(path, ch, mid, d) && AfterStages(s, d, ch)
  {
    path, d := VmStage(mid, ch);
    MachineIs(s, mid, d, ch);
  }

  lemma RefusedStages(s: System, mid: System, ch: Choice) returns (path: seq<System>, d: System)
    requires AfterLifecycle(s, mid) && On(Marks(s)) && !Admitted(s, ch)
    ensures |path| <= 2 && Leads(path, ch, mid, d) && AfterStages(s, d, ch)
  {
    path := SecretRefused(mid, ch);
    d := mid.(pc := Idle);
  }

  lemma OnStages(s: System, mid: System, ch: Choice) returns (path: seq<System>, d: System)
    requires AfterLifecycle(s, mid) && On(Marks(s)) && Admitted(s, ch) && ch.password != ""
    ensures |path| <= 7 && Leads(path, ch, mid, d) && AfterStages(s, d, ch)
  {
    var vmReady, more;
    path, vmReady := SecretStage(mid, ch);
    SecretsAre(s, mid, vmReady, ch);
    more, d := VmStage(vmReady, ch);
    MachineIs(s, vmReady, d, ch);
    path := Then(path, more, ch, mid, vmReady, d);
  }

  /** The end of the round, once the VM stage is over. */
  lemma EndIs(s: System, d: System, ch: Choice, fuel: nat)
    requires AfterStages(s, d, ch) && fuel >= 4
    ensures RoundIs(s, ch, Finish(d, ch, fuel), Reported(d, ch, fuel))
  {
    if Reaches(s, ch) {
      var ws := d.record.ws;
      if On(ws) && d.machine.vmi && ch.guestUp && !SetUp(ws) && ch.complete {
        MarkedEnd(d, ch, fuel);
      } else {
        PlainEnd(d, ch, fuel);
      }
    }
  }

  lemma BeginStage(s: System, ch: Choice) returns (s0: System)
    requires Inv(s) && s.pc.Idle? && !s.record.ws.reset && s.record.ws.generation != ""
    ensures s0 == Act(s, ch) && Current(s0) && s0.pc == BeginRound(s0.pc.copy) && s0 == s.(pc := s0.pc)
  {
    BeginKeepsInv(s, ch);
    s0 := Act(s, ch);
  }

  lemma LifecycleStage(s: System, s0: System, ch: Choice) returns (path: seq<System>, d: System)
    requires Current(s0) && s0.pc == BeginRound(s0.pc.copy) && s0.record.ws.generation != "" && s0 == s.(pc := s0.pc)
    ensures |path| <= 7 && Leads(path, ch, s0, d) && AfterLifecycle(s, d)
  {
    if s.machine.vmi {
      path, d := LifecycleWithVmi(s0, ch);
    } else {
      path, d := LifecycleWithoutVmi(s0, ch);
    }
  }

  lemma Stages(s: System, mid: System, ch: Choice) returns (path: seq<System>, d: System)
    requires AfterLifecycle(s, mid) && ch.password != ""
    ensures |path| <= 7 && Leads(path, ch, mid, d) && AfterStages(s, d, ch)
  {
    if !On(Marks(s)) {
      path, d := OffStages(s, mid, ch);
    } else if Admitted(s, ch) {
      path, d := OnStages(s, mid, ch);
    } else {
      path, d := RefusedStages(s, mid, ch);
    }
  }

  lemma WholePath(s: System, s0: System, ch: Choice) returns (path: seq<System>, d: System)
    requires Current(s0) && s0.pc == BeginRound(s0.pc.copy) && s0.record.ws.generation != "" && s0 == s.(pc := s0.pc) && ch.password != ""
    ensures |path| <= 13 && Leads(path, ch, s0, d) && AfterStages(s, d, ch)
  {
    var mid, more;
    path, mid := LifecycleStage(s, s0, ch);
    more, d := Stages(s, mid, ch);
    path := Then(path, more, ch, s0, mid, d);
  }

  lemma PathIsRound(s: System, s0: System, path: seq<System>, d: System, ch: Choice, fuel: nat)
    requires |path| <= 13 && Leads(path, ch, s0, d) && AfterStages(s, d, ch) && fuel >= 16
    ensures RoundIs(s, ch, Finish(s0, ch, fuel), Reported(s0, ch, fuel))
  {
    Follow(path, ch, s0, d, fuel);
    EndIs(s, d, ch, fuel - (|path| - 1));
  }

  lemma RoundInState(s: System, ch: Choice)
    requires Inv(s) && s.pc.Idle? && !s.record.ws.reset && s.record.ws.generation != "" && ch.password != ""
    ensures RoundIs(s, ch, Round(s, ch), Reported(Act(s, ch), ch, LONGEST))
  {
    var s0 := BeginStage(s, ch);
    var path, d := WholePath(s, s0, ch);
    PathIsRound(s, s0, path, d, ch, LONGEST);
  }

  /**
   Exactly what an uninterrupted round does, from every reachable state without a pending reset: the stored Workspace,
   Secrets and machine afterwards, and the report, all as the specification above says.
   */
  lemma RoundExactly(gpu: Hardware, trace: seq<Event>, ch: Choice)
    requires var s := Run(Initial(gpu), trace); s.pc.Idle? && !s.record.ws.reset && s.record.ws.generation != ""
    requires ch.password != ""
    ensures var s := Run(Initial(gpu), trace);
            RoundIs(s, ch, Round(s, ch), Reported(Act(s, ch), ch, LONGEST))
  {
    RunKeepsInv(gpu, trace);
    RoundInState(Run(Initial(gpu), trace), ch);
  }

  /** The very first round hands out the generation and does nothing else. */
  lemma ResolveExactly(s: System, ch: Choice)
    requires Inv(s) && s.pc.Idle? && !s.record.ws.reset && s.record.ws.generation == ""
    requires ch.generation != "" && ch.generation !in s.record.generations
    ensures var d := Round(s, ch);
            && d.pc.Idle? && d.record.ws == s.record.ws.(generation := ch.generation)
            && d.vault == s.vault && d.machine == s.machine && Reported(Act(s, ch), ch, LONGEST) == None
  {
    var s1 := Act(s, ch);
    assert s1.pc.at.Resolve?;
    FinishUnfold(s1, ch, LONGEST);
  }

  // ---------------------------------------------------------------- single calls, whatever others did before them

  /**
   The VM is read again, and may have changed: another incarnation, or one that is going away, ends the round; one that
   has become right lets it go on without a write; changed hardware is guarded.
   */
  lemma RefetchExactly(s: System, ch: Choice)
    requires s.pc.Busy? && s.pc.at.VmRefetch?
    ensures var ws, uid := s.pc.copy.ws, s.pc.at.uid;
            Act(s, ch) == s.(pc :=
              if s.machine.vm.None? || s.machine.vm.value.uid != uid || s.machine.vm.value.deleting then Idle
              else
                var vm := s.machine.vm.value;
                if !Differs(ws, vm, ch.drift) then Busy(s.pc.copy, ReadyCheck)
                else if vm.gpu == ws.gpu then Busy(s.pc.copy, VmWrite(vm))
                else if vm.run == Running(false) || vm.run == Strategy("Halted") then Busy(s.pc.copy, GuardReadVmi(vm))
                else Idle)
  {
    if s.machine.vm.Some? {
      DiffersIsNeeds(s.pc.copy.ws, s.machine.vm.value, ch.drift);
    }
  }

  /** The VM is written exactly over the version that was read; a newer one is read again, a missing one ends the round. */
  lemma VmWriteExactly(s: System, ch: Choice)
    requires s.pc.Busy? && s.pc.at.VmWrite?
    ensures var ws, m, seen := s.pc.copy.ws, s.machine, s.pc.at.seen;
            Act(s, ch) ==
            if m.vm.None? then s.(pc := Idle)
            else if m.vm.value.version != seen.version then s.(pc := Busy(s.pc.copy, VmRefetch(seen.uid)))
            else s.(machine := m.(vm := Some(seen.(version := m.clock, run := Running(On(ws)), sysprep := !SetUp(ws), gpu := ws.gpu)), clock := m.clock + 1),
                    pc := Busy(s.pc.copy, ReadyCheck))
  {
  }

  /** A mark or generation is written exactly over the version the round has; after anybody else's write the round ends without it. */
  lemma WorkspaceWritesExactly(s: System, ch: Choice)
    requires s.pc.Busy? && (s.pc.at.DetachCommit? || s.pc.at.RebootCommit? || s.pc.at.ProvisionCommit?)
    ensures var copy, d := s.pc.copy, Act(s, ch);
            && d.vault == s.vault && d.machine == s.machine
            && if s.record.version != copy.version then d.pc.Idle? && d.record == s.record
               else
                 && d.pc.Busy? && d.record.version == copy.version + 1 && d.pc.copy == Copy(d.record.version, d.record.ws)
                 && d.record.ws == if s.pc.at.DetachCommit? then copy.ws.(detaching := "")
                                   else if s.pc.at.RebootCommit? then copy.ws.(reboot := "")
                                   else copy.ws.(provisioned := copy.ws.generation, detaching := copy.ws.generation)
  {
  }

  /**
   The Secret is read, whatever it is: credentials of a set-up guest that are missing are never replaced, somebody else's
   or incomplete ones are refused, and only a guest still to be set up gets new ones.
   */
  lemma SecretReadExactly(s: System, ch: Choice)
    requires s.pc.Busy? && s.pc.at.BootstrapRead?
    ensures var ws, secrets := s.pc.copy.ws, s.vault.secrets;
            var g := ws.generation;
            Act(s, ch) == s.(pc :=
              if !ch.profileValid || !ch.preflight then Idle
              else if g !in secrets then (if SetUp(ws) then Idle else Busy(s.pc.copy, BootstrapCreate))
              else if !secrets[g].controlled || secrets[g].password == "" || (!SetUp(ws) && !secrets[g].answer) then Idle
              else if !SetUp(ws) && !secrets[g].token then Busy(s.pc.copy, BootstrapBackfill)
              else Busy(s.pc.copy, ReadVm))
  {
  }

  /** Creating loses to anybody who was there first: a Secret or VM of that name is left alone and the round ends. */
  lemma CreatesLoseRaces(s: System, ch: Choice)
    requires s.pc.Busy? && ch.password != ""
    requires (s.pc.at.BootstrapCreate? && s.pc.copy.ws.generation in s.vault.secrets) || (s.pc.at.VmCreate? && s.machine.vm.Some?)
    ensures Act(s, ch) == s.(pc := Idle)
  {
  }

  // ---------------------------------------------------------------- consequences

  /** A reboot finishes: once the VMI is gone, one round removes the mark and turns the VM back on; with a VMI the mark stays. */
  lemma RebootFinishes(gpu: Hardware, trace: seq<Event>, ch: Choice)
    requires var s := Run(Initial(gpu), trace);
             && s.pc.Idle? && !s.record.ws.reset && s.record.ws.generation != "" && s.record.ws.reboot != ""
    requires ch.password != ""
    ensures var s := Run(Initial(gpu), trace);
            var d := Round(s, ch);
            && (s.machine.vmi ==> d.record.ws.reboot == s.record.ws.reboot)
            && (!s.machine.vmi ==> d.record.ws.reboot == "")
            && (!s.machine.vmi && !s.record.ws.stopped && Admitted(s, ch) && s.machine.vm.Some? && !s.machine.vm.value.deleting
                && Mine(s.record.ws, s.machine.vm.value) && s.machine.vm.value.gpu == s.record.ws.gpu ==>
                  d.machine.vm.Some? && d.machine.vm.value.uid == s.machine.vm.value.uid && d.machine.vm.value.run == Running(true))
  {
    RoundExactly(gpu, trace, ch);
  }

  /** A detach finishes in the same way, and takes the answer file with it. */
  lemma DetachFinishes(gpu: Hardware, trace: seq<Event>, ch: Choice)
    requires var s := Run(Initial(gpu), trace);
             && s.pc.Idle? && !s.record.ws.reset && s.record.ws.generation != "" && s.record.ws.detaching == s.record.ws.generation
    requires ch.password != ""
    ensures var s := Run(Initial(gpu), trace);
            var d, g := Round(s, ch), s.record.ws.generation;
            && (s.machine.vmi ==> d.record.ws.detaching == g)
            && (!s.machine.vmi ==> d.record.ws.detaching == "" && Owned(d.vault, g) && !d.vault.secrets[g].answer)
  {
    RunKeepsInv(gpu, trace);
    RoundExactly(gpu, trace, ch);
  }

  /** A stopped workspace whose user turns it on again gets its VM turned on in one round. */
  lemma StartTurnsOn(gpu: Hardware, trace: seq<Event>, ch: Choice)
    requires var s := Run(Initial(gpu), trace);
             && s.pc.Idle? && !s.record.ws.reset && s.record.ws.generation != "" && On(s.record.ws) && s.machine.vm.Some?
    requires ch.password != ""
    ensures var s := Run(Initial(gpu), trace);
            var d := Round(s, ch);
            && d.machine.vm.Some?
            && (d.machine.vm.value.run == Running(true) <==> s.machine.vm.value.run == Running(true) || Writes(s, ch))
  {
    RoundExactly(gpu, trace, ch);
  }

  /** Changed hardware does arrive: on a halted VM without VMI one round writes it, and exactly then. */
  lemma HardwareArrives(gpu: Hardware, trace: seq<Event>, ch: Choice)
    requires var s := Run(Initial(gpu), trace);
             && s.pc.Idle? && !s.record.ws.reset && s.record.ws.generation != ""
             && s.machine.vm.Some? && s.machine.vm.value.gpu != s.record.ws.gpu
    requires ch.password != ""
    ensures var s := Run(Initial(gpu), trace);
            var vm, d := s.machine.vm.value, Round(s, ch);
            && d.machine.vm.Some?
            && (d.machine.vm.value.gpu == s.record.ws.gpu <==>
                  && Admitted(s, ch) && Mine(s.record.ws, vm) && Differs(Marks(s), vm, ch.drift) && !vm.deleting
                  && (vm.run == Running(false) || vm.run == Strategy("Halted")) && !s.machine.vmi && ch.preflight)
  {
    RoundExactly(gpu, trace, ch);
  }

  /** The report of an uninterrupted round: ready exactly for a set-up workspace that is on, whose VM is in order and whose guest is seen. */
  lemma ReadyExactly(gpu: Hardware, trace: seq<Event>, ch: Choice)
    requires var s := Run(Initial(gpu), trace); s.pc.Idle? && !s.record.ws.reset && s.record.ws.generation != ""
    requires ch.password != ""
    ensures var s := Run(Initial(gpu), trace);
            Reported(Act(s, ch), ch, LONGEST) == Some(true) <==>
            Reaches(s, ch) && On(Marks(s)) && SetUp(s.record.ws) && s.machine.vmi && ch.guestUp && ch.podReady
  {
    RoundExactly(gpu, trace, ch);
  }
}
