/**
 The life of one Windows workspace (internal/controller/vm_windows_guest.go, vm_windows_gpu.go and
 the reset and VM parts of workspace_controller.go): provisioning generations, the bootstrap Secret,
 the one restart that removes the bootstrap disc, stop, reboot, reset and GPU changes.

 The controller's reconcile is a program counter over its API calls. Rounds of one Workspace do not
 overlap, but users, KubeVirt and the garbage collector act between any two calls, and the
 controller may crash there. Assumed of the others: only the controller writes or deletes the
 Secrets it owns, creates the VM, moves the generation and its marks, and consumes a reset; KubeVirt
 creates a VMI only for a VM that is not halted. Secret names are injective in the generation.
 */
module WindowsGuest {
  import opened ApiServer

  /** The Workspace fields the protocol uses; marks hold a generation, "" means absent. */
  datatype Workspace = Workspace(
    generation: string, provisioned: string, detaching: string,
    stopped: bool, reboot: string, reset: bool, gpu: Hardware)

  /** What windowsGPUHardware extracts: the device entries in order and the extended resources by section and name. */
  datatype Hardware = Hardware(devices: seq<map<string, string>>, resources: map<string, string>)

  /** All that virtualMachineNeedsUpdate asks of hardware: further fields of a device and further resources are tolerated. */
  predicate Carries(have: Hardware, wanted: Hardware) {
    && |have.devices| == |wanted.devices|
    && (forall i | 0 <= i < |wanted.devices| :: Extends(have.devices[i], wanted.devices[i]))
    && Extends(have.resources, wanted.resources)
  }

  predicate Extends(have: map<string, string>, wanted: map<string, string>) {
    forall k <- wanted :: k in have && have[k] == wanted[k]
  }

  /** Whether the Secret is controlled by this Workspace, and what it holds. */
  datatype Secret = Secret(controlled: bool, password: string, answer: bool, token: bool)

  datatype RunField = Running(on: bool) | Strategy(name: string)

  /** `gpu` is the VM's hardware; `sysprep` says the bootstrap disc is attached. */
  datatype Vm = Vm(uid: nat, version: nat, controlled: bool, generation: string, deleting: bool,
                   run: RunField, sysprep: bool, gpu: Hardware)

  predicate Halted(run: RunField) {
    run == Running(false) || run == Strategy("Halted")
  }

  // ---------------------------------------------------------------- state

  /** The stored Workspace with its resourceVersion, and every generation ever handed out. */
  datatype Record = Record(version: nat, ws: Workspace, generations: set<string>)

  /** Bootstrap Secrets by generation; `first` remembers the password first stored for each. */
  datatype Vault = Vault(secrets: map<string, Secret>, first: map<string, string>)

  datatype Machine = Machine(vm: Option<Vm>, vmi: bool, clock: nat)

  /** The controller's copy of the Workspace. */
  datatype Copy = Copy(version: nat, ws: Workspace)

  datatype Point =
    // handleReset
    | ResetReadVm | ResetStop(seen: Vm) | ResetReadVmi | ResetDelete
    | ResetReadSecret | ResetDeleteSecret | ResetCommit
    // resolveWindowsProfile
    | Resolve
    // finishWindowsDetach, finishWindowsReboot
    | DetachReadVmi | DetachReadSecret | DetachWriteSecret | DetachCommit
    | RebootReadVmi | RebootCommit
    // reconcileWindowsBootstrap
    | BootstrapRead | BootstrapBackfill | BootstrapCreate
    // reconcileVirtualMachine, updateVirtualMachine, guardWindowsGPUTransition
    | ReadVm | VmCreate | VmRefetch(uid: nat) | GuardReadVmi(seen: Vm) | VmWrite(seen: Vm)
    // windowsReady, reconcileWindowsProvisioning
    | ReadyCheck | ProvisionStage | ProvisionCommit
    | Report(ready: bool)

  datatype Pc = Idle | Busy(copy: Copy, at: Point)

  datatype System = System(record: Record, vault: Vault, machine: Machine, pc: Pc)

  /** Everything the controller cannot decide itself. */
  datatype Choice = Choice(
    generation: string, password: string,
    profileValid: bool, preflight: bool, drift: bool,
    guestUp: bool, complete: bool, podReady: bool)

  datatype Event =
    | Controller(choice: Choice)
    | Crash
    | EditWorkspace(stopped: bool, reboot: string, requestReset: bool, gpu: Hardware)
    | WriteStatus
    | StartVmi
    | StopVmi
    | EditVm(run: RunField, gpu: Hardware)
    | TouchVm
    | RemoveVm
    | FinishVmDeletion
    | AddForeignSecret(generation: string, secret: Secret)
    | RemoveForeignSecret(generation: string)

  // ---------------------------------------------------------------- local decisions

  /** The guest may be on and set up: the controller prepares its Secret and looks at its readiness. */
  predicate Active(ws: Workspace) {
    !ws.stopped && ws.reboot == "" && ws.detaching != ws.generation
  }

  /** generateWindowsVirtualMachine, as far as the protocol needs it. */
  function DesiredRun(ws: Workspace): RunField {
    Running(Active(ws))
  }

  predicate DesiredSysprep(ws: Workspace) {
    ws.provisioned != ws.generation
  }

  /** virtualMachineNeedsUpdate on the modelled fields; `drift` stands for the rest of the template. */
  predicate VmNeedsUpdate(ws: Workspace, vm: Vm, drift: bool) {
    (vm.run == Running(true)) != (DesiredRun(ws) == Running(true)) || vm.sysprep != DesiredSysprep(ws) || !Carries(vm.gpu, ws.gpu) || drift
  }

  function AfterReboot(copy: Copy): Pc {
    Busy(copy, if Active(copy.ws) then BootstrapRead else ReadVm)
  }

  function AfterDetach(copy: Copy): Pc {
    if copy.ws.reboot != "" then Busy(copy, RebootReadVmi) else AfterReboot(copy)
  }

  function BeginRound(copy: Copy): Pc {
    if copy.ws.reset then Busy(copy, ResetReadVm)
    else if copy.ws.generation == "" then Busy(copy, Resolve)
    else if copy.ws.detaching == copy.ws.generation then Busy(copy, DetachReadVmi)
    else AfterDetach(copy)
  }

  // ---------------------------------------------------------------- one API call of the controller

  /** A versioned write of the Workspace: accepted only over the version the copy was read at. */
  function Commit(r: Record, copy: Copy, ws: Workspace): Record {
    if r.version == copy.version then r.(version := r.version + 1, ws := ws) else r
  }

  /** Where the round goes after that write. */
  function Committed(r: Record, copy: Copy, ws: Workspace): Option<Copy> {
    if r.version == copy.version then Some(Copy(r.version + 1, ws)) else None
  }

  function Fresh(ws: Workspace, generation: string): Workspace {
    ws.(generation := generation, provisioned := "", detaching := "", reset := false)
  }

  predicate ResetPoint(at: Point) {
    at.ResetReadVm? || at.ResetStop? || at.ResetReadVmi? || at.ResetDelete? || at.ResetReadSecret? || at.ResetDeleteSecret? || at.ResetCommit?
  }

  function ResetAct(s: System, copy: Copy, at: Point, ch: Choice): System {
    var g, m := copy.ws.generation, s.machine;
    match at
    case ResetReadVm =>
      if m.vm.None? then s.(pc := Busy(copy, ResetReadSecret))
      else
        var vm := m.vm.value;
        s.(pc := if vm.deleting then Idle
                 else if vm.run == Running(true) then Busy(copy, ResetStop(vm))
                 else Busy(copy, ResetReadVmi))
    case ResetStop(seen) =>
      s.(machine := if m.vm.Some? && m.vm.value.version == seen.version
                    then m.(vm := Some(m.vm.value.(run := Running(false), version := m.clock)), clock := m.clock + 1)
                    else m,
         pc := Idle)
    case ResetReadVmi => s.(pc := if m.vmi then Idle else Busy(copy, ResetDelete))
    case ResetDelete =>
      s.(machine := if m.vm.Some? && !m.vm.value.deleting
                    then m.(vm := Some(m.vm.value.(deleting := true, version := m.clock)), clock := m.clock + 1)
                    else m,
         pc := Idle)
    case ResetReadSecret =>
      s.(pc := if g !in s.vault.secrets then Busy(copy, ResetCommit)
               else if !s.vault.secrets[g].controlled then Idle
               else Busy(copy, ResetDeleteSecret))
    case ResetDeleteSecret =>
      if g !in s.vault.secrets then s.(pc := Idle)
      else s.(vault := s.vault.(secrets := s.vault.secrets - {g}), pc := Busy(copy, ResetCommit))
    case ResetCommit =>
      if ch.generation == "" || ch.generation in s.record.generations then s
      else
        s.(record := Commit(s.record, copy, Fresh(copy.ws, ch.generation)).(generations := s.record.generations + {ch.generation}),
           pc := Idle)
    case _ => s
  }

  predicate LifecyclePoint(at: Point) {
    at.Resolve? || at.DetachReadVmi? || at.DetachReadSecret? || at.DetachWriteSecret? || at.DetachCommit? || at.RebootReadVmi? || at.RebootCommit?
  }

  function LifecycleAct(s: System, copy: Copy, at: Point, ch: Choice): System {
    var g := copy.ws.generation;
    match at
    case Resolve =>
      if ch.generation == "" || ch.generation in s.record.generations then s
      else
        s.(record := Commit(s.record, copy, copy.ws.(generation := ch.generation)).(generations := s.record.generations + {ch.generation}),
           pc := Idle)
    case DetachReadVmi => s.(pc := if s.machine.vmi then AfterDetach(copy) else Busy(copy, DetachReadSecret))
    case DetachReadSecret =>
      s.(pc := if g in s.vault.secrets && s.vault.secrets[g].controlled then Busy(copy, DetachWriteSecret) else Idle)
    case DetachWriteSecret =>
      if g !in s.vault.secrets then s.(pc := Idle)
      else
        s.(vault := s.vault.(secrets := s.vault.secrets[g := s.vault.secrets[g].(answer := false)]), pc := Busy(copy, DetachCommit))
    case DetachCommit =>
      var ws := copy.ws.(detaching := "");
      var next := Committed(s.record, copy, ws);
      s.(record := Commit(s.record, copy, ws), pc := if next.Some? then AfterDetach(next.value) else Idle)
    case RebootReadVmi => s.(pc := if s.machine.vmi then AfterReboot(copy) else Busy(copy, RebootCommit))
    case RebootCommit =>
      var ws := copy.ws.(reboot := "");
      var next := Committed(s.record, copy, ws);
      s.(record := Commit(s.record, copy, ws), pc := if next.Some? then AfterReboot(next.value) else Idle)
    case _ => s
  }

  predicate BootstrapPoint(at: Point) {
    at.BootstrapRead? || at.BootstrapBackfill? || at.BootstrapCreate?
  }

  function BootstrapAct(s: System, copy: Copy, at: Point, ch: Choice): System {
    var g, secrets := copy.ws.generation, s.vault.secrets;
    var provisioned := copy.ws.provisioned == g;
    match at
    case BootstrapRead =>
      if !ch.profileValid || !ch.preflight then s.(pc := Idle)
      else if g in secrets then
        s.(pc := if !secrets[g].controlled || secrets[g].password == "" || (!provisioned && !secrets[g].answer) then Idle
                 else if !provisioned && !secrets[g].token then Busy(copy, BootstrapBackfill)
                 else Busy(copy, ReadVm))
      else s.(pc := if provisioned then Idle else Busy(copy, BootstrapCreate))
    case BootstrapBackfill =>
      if g !in secrets then s.(pc := Idle)
      else s.(vault := s.vault.(secrets := secrets[g := secrets[g].(token := true)]), pc := Busy(copy, ReadVm))
    case BootstrapCreate =>
      if ch.password == "" then s
      else if g in secrets then s.(pc := Idle)
      else
        s.(vault := Vault(secrets[g := Secret(true, ch.password, true, true)],
                          if g in s.vault.first then s.vault.first else s.vault.first[g := ch.password]),
           pc := Busy(copy, ReadVm))
    case _ => s
  }

  predicate VmPoint(at: Point) {
    at.ReadVm? || at.VmCreate? || at.VmRefetch? || at.GuardReadVmi? || at.VmWrite?
  }

  function VmAct(s: System, copy: Copy, at: Point, ch: Choice): System {
    var ws, m := copy.ws, s.machine;
    match at
    case ReadVm =>
      if !ch.profileValid then s.(pc := Idle)
      else if m.vm.None? then s.(pc := Busy(copy, VmCreate))
      else
        var vm := m.vm.value;
        s.(pc := if !vm.controlled || vm.generation != ws.generation then Idle
                 else Busy(copy, if VmNeedsUpdate(ws, vm, ch.drift) then VmRefetch(vm.uid) else ReadyCheck))
    case VmCreate =>
      if !ch.preflight || m.vm.Some? then s.(pc := Idle)
      else
        s.(machine := Machine(Some(Vm(m.clock, m.clock, true, ws.generation, false, DesiredRun(ws), DesiredSysprep(ws), ws.gpu)),
                              m.vmi, m.clock + 1),
           pc := Busy(copy, ReadyCheck))
    case VmRefetch(uid) =>
      if m.vm.None? || m.vm.value.uid != uid || m.vm.value.deleting then s.(pc := Idle)
      else
        var vm := m.vm.value;
        s.(pc := if !VmNeedsUpdate(ws, vm, ch.drift) then Busy(copy, ReadyCheck)
                 else if vm.gpu == ws.gpu then Busy(copy, VmWrite(vm))
                 else if !Halted(vm.run) then Idle
                 else Busy(copy, GuardReadVmi(vm)))
    case GuardReadVmi(seen) => s.(pc := if m.vmi || !ch.preflight then Idle else Busy(copy, VmWrite(seen)))
    case VmWrite(seen) =>
      if m.vm.None? then s.(pc := Idle)
      else if m.vm.value.version != seen.version then s.(pc := Busy(copy, VmRefetch(seen.uid)))
      else
        s.(machine := m.(vm := Some(seen.(version := m.clock, run := DesiredRun(ws), sysprep := DesiredSysprep(ws), gpu := ws.gpu)),
                         clock := m.clock + 1),
           pc := Busy(copy, ReadyCheck))
    case _ => s
  }

  function ReadyAct(s: System, copy: Copy, at: Point, ch: Choice): System {
    var ws, g := copy.ws, copy.ws.generation;
    match at
    case ReadyCheck =>
      s.(pc := if !Active(ws) || !s.machine.vmi || !ch.guestUp then Busy(copy, Report(false))
               else if ws.provisioned == g then Busy(copy, Report(ch.podReady))
               else if ch.complete then Busy(copy, ProvisionStage)
               else Busy(copy, Report(false)))
    case ProvisionStage => s.(pc := if g in s.vault.secrets then Busy(copy, ProvisionCommit) else Idle)
    case ProvisionCommit =>
      var marked := ws.(provisioned := g, detaching := g);
      var next := Committed(s.record, copy, marked);
      s.(record := Commit(s.record, copy, marked), pc := if next.Some? then Busy(next.value, Report(false)) else Idle)
    case Report(_) => s.(record := s.record.(version := s.record.version + 1), pc := Idle)
    case _ => s
  }

  function Act(s: System, ch: Choice): System {
    if s.pc.Idle? then s.(pc := BeginRound(Copy(s.record.version, s.record.ws)))
    else if ResetPoint(s.pc.at) then ResetAct(s, s.pc.copy, s.pc.at, ch)
    else if LifecyclePoint(s.pc.at) then LifecycleAct(s, s.pc.copy, s.pc.at, ch)
    else if BootstrapPoint(s.pc.at) then BootstrapAct(s, s.pc.copy, s.pc.at, ch)
    else if VmPoint(s.pc.at) then VmAct(s, s.pc.copy, s.pc.at, ch)
    else ReadyAct(s, s.pc.copy, s.pc.at, ch)
  }

  // ---------------------------------------------------------------- everybody else

  /** Users edit their own fields of the Workspace; a reset can be asked for but not taken back. */
  function EditRecord(r: Record, e: Event): Record {
    match e
    case EditWorkspace(stopped, reboot, requestReset, gpu) =>
      r.(version := r.version + 1,
         ws := r.ws.(stopped := stopped, reboot := reboot, reset := r.ws.reset || requestReset, gpu := gpu))
    case WriteStatus => r.(version := r.version + 1)
    case _ => r
  }

  function EditVault(v: Vault, e: Event): Vault {
    match e
    case AddForeignSecret(g, secret) =>
      if g in v.secrets then v else v.(secrets := v.secrets[g := secret.(controlled := false)])
    case RemoveForeignSecret(g) =>
      if g in v.secrets && !v.secrets[g].controlled then v.(secrets := v.secrets - {g}) else v
    case _ => v
  }

  function EditMachine(m: Machine, e: Event): Machine {
    match e
    case StartVmi => if m.vm.Some? && !Halted(m.vm.value.run) then m.(vmi := true) else m
    case StopVmi => m.(vmi := false)
    case EditVm(run, gpu) =>
      if m.vm.None? then m
      else
        m.(vm := Some(m.vm.value.(run := run, gpu := gpu, version := m.clock)), clock := m.clock + 1)
    case TouchVm =>
      if m.vm.None? then m else m.(vm := Some(m.vm.value.(version := m.clock)), clock := m.clock + 1)
    case RemoveVm =>
      if m.vm.None? then m else m.(vm := Some(m.vm.value.(deleting := true, version := m.clock)), clock := m.clock + 1)
    case FinishVmDeletion => if m.vm.Some? && m.vm.value.deleting then m.(vm := None) else m
    case _ => m
  }

  function Next(s: System, e: Event): System {
    if e.Controller? then Act(s, e.choice)
    else if e.Crash? then s.(pc := Idle)
    else System(EditRecord(s.record, e), EditVault(s.vault, e), EditMachine(s.machine, e), s.pc)
  }

  function Run(s: System, trace: seq<Event>): System {
    if trace == [] then s else Next(Run(s, trace[..|trace| - 1]), trace[|trace| - 1])
  }

  /** A Workspace whose profile is not resolved yet: no generation, no marks, no VM. */
  function Initial(gpu: Hardware): System {
    System(Record(0, Workspace("", "", "", false, "", false, gpu), {}), Vault(map[], map[]), Machine(None, false, 0), Idle)
  }

  // ---------------------------------------------------------------- invariant

  ghost predicate RecordInv(r: Record) {
    && (r.ws.provisioned == "" || r.ws.provisioned == r.ws.generation)
    && (r.ws.detaching == "" || (r.ws.detaching == r.ws.generation && r.ws.provisioned == r.ws.generation))
    && (r.ws.generation != "" ==> r.ws.generation in r.generations)
  }

  /** The controller's copy agrees with the stored object on everything only the controller writes. */
  ghost predicate CopyInv(r: Record, pc: Pc) {
    pc.Busy? ==>
      && pc.copy.version <= r.version
      && (pc.copy.version == r.version ==> pc.copy.ws == r.ws)
      && pc.copy.ws.generation == r.ws.generation && pc.copy.ws.provisioned == r.ws.provisioned
      && pc.copy.ws.detaching == r.ws.detaching
      && (pc.copy.ws.reset ==> r.ws.reset)
      && (ResetPoint(pc.at) <==> pc.copy.ws.reset)
      && (pc.copy.ws.generation == "" ==> ResetPoint(pc.at) || pc.at.Resolve?)
      && (pc.at.Resolve? ==> pc.copy.ws.generation == "")
      && PointInv(pc.copy.ws, pc.at)
  }

  ghost predicate PointInv(ws: Workspace, at: Point) {
    && (at.DetachReadVmi? || at.DetachReadSecret? || at.DetachWriteSecret? || at.DetachCommit? ==> ws.detaching == ws.generation)
    && (BootstrapPoint(at) || at.ProvisionStage? || at.ProvisionCommit? ==> Active(ws))
    && (at.BootstrapBackfill? || at.BootstrapCreate? || at.ProvisionStage? || at.ProvisionCommit? ==> ws.provisioned != ws.generation)
    && (at.Report? && at.ready ==> Active(ws) && ws.provisioned == ws.generation)
  }

  /** A Secret the controller owns still holds the password first stored for its generation. */
  ghost predicate VaultInv(r: Record, v: Vault) {
    && (forall g <- v.secrets :: v.secrets[g].controlled ==>
          g in v.first && v.secrets[g].password == v.first[g] && v.secrets[g].password != "")
    && v.first.Keys <= r.generations
  }

  /** A round that did not see a reset: it never deletes the Secret. */
  predicate OrdinaryRound(pc: Pc) {
    pc.Busy? && !ResetPoint(pc.at)
  }

  /** Points an active round reaches only after it has seen or created its Secret. */
  predicate AfterBootstrap(at: Point) {
    VmPoint(at) || at.BootstrapBackfill? || at.ReadyCheck? || at.ProvisionStage? || at.ProvisionCommit?
  }

  predicate Owned(v: Vault, g: string) {
    g in v.secrets && v.secrets[g].controlled
  }

  ghost predicate CustodyInv(r: Record, v: Vault, pc: Pc) {
    var g := r.ws.generation;
    // While no reset is under way, the Secret of the current generation stays.
    && (g in v.first && (!r.ws.reset || OrdinaryRound(pc)) ==> Owned(v, g))
    && (g != "" && r.ws.provisioned == g ==> g in v.first)
    // Once bootstrap removal is complete the answer file is gone.
    && (g != "" && r.ws.provisioned == g && r.ws.detaching != g && Owned(v, g) ==> !v.secrets[g].answer)
    // Before that it is there, for a guest that is still to be set up.
    && (r.ws.provisioned != g && Owned(v, g) ==> v.secrets[g].answer)
    && (pc.Busy? && pc.at.BootstrapCreate? ==> !Owned(v, g))
    && (pc.Busy? && AfterBootstrap(pc.at) && Active(pc.copy.ws) ==> g in v.first)
    && (pc.Busy? && pc.at.DetachWriteSecret? ==> Owned(v, g))
    && (pc.Busy? && pc.at.DetachCommit? ==> Owned(v, g) && !v.secrets[g].answer)
  }

  predicate SeenVm(m: Machine, seen: Vm) {
    seen.version < m.clock && (m.vm.Some? && m.vm.value.version == seen.version ==> m.vm.value == seen)
  }

  ghost predicate MachineInv(r: Record, m: Machine, pc: Pc) {
    && (m.vm.Some? ==> m.vm.value.version < m.clock && m.vm.value.uid < m.clock)
    && (r.ws.generation == "" ==> m.vm.None?)
    && (pc.Busy? ==>
          && (pc.at.ResetReadSecret? || pc.at.ResetDeleteSecret? || pc.at.ResetCommit? || pc.at.Resolve? ==> m.vm.None?)
          && (pc.at.ResetStop? || pc.at.GuardReadVmi? || pc.at.VmWrite? ==> SeenVm(m, pc.at.seen))
          && (pc.at.GuardReadVmi? ==> Halted(pc.at.seen.run))
          && (pc.at.GuardReadVmi? || pc.at.VmWrite? ==> !pc.at.seen.deleting)
          && (pc.at.VmWrite? && pc.at.seen.gpu != pc.copy.ws.gpu ==>
                && Halted(pc.at.seen.run)
                && (m.vm.Some? && m.vm.value.version == pc.at.seen.version ==> !m.vmi)))
  }

  ghost predicate Inv(s: System) {
    && RecordInv(s.record)
    && CopyInv(s.record, s.pc)
    && VaultInv(s.record, s.vault)
    && CustodyInv(s.record, s.vault, s.pc)
    && MachineInv(s.record, s.machine, s.pc)
  }

  lemma BeginKeepsInv(s: System, ch: Choice)
    requires Inv(s) && s.pc.Idle?
    ensures Inv(Act(s, ch))
  {
  }

  lemma ResetVmKeepsInv(s: System, ch: Choice)
    requires Inv(s) && s.pc.Busy? && (s.pc.at.ResetReadVm? || s.pc.at.ResetStop? || s.pc.at.ResetReadVmi? || s.pc.at.ResetDelete?)
    ensures Inv(ResetAct(s, s.pc.copy, s.pc.at, ch))
  {
  }

  lemma ResetSecretKeepsInv(s: System, ch: Choice)
    requires Inv(s) && s.pc.Busy? && (s.pc.at.ResetReadSecret? || s.pc.at.ResetDeleteSecret? || s.pc.at.ResetCommit?)
    ensures Inv(ResetAct(s, s.pc.copy, s.pc.at, ch))
  {
  }

  lemma DetachKeepsInv(s: System, ch: Choice)
    requires Inv(s) && s.pc.Busy? && (s.pc.at.DetachReadVmi? || s.pc.at.DetachReadSecret? || s.pc.at.DetachWriteSecret?)
    ensures Inv(LifecycleAct(s, s.pc.copy, s.pc.at, ch))
  {
  }

  lemma DetachCommitKeepsInv(s: System, ch: Choice)
    requires Inv(s) && s.pc.Busy? && s.pc.at.DetachCommit?
    ensures Inv(LifecycleAct(s, s.pc.copy, s.pc.at, ch))
  {
  }

  lemma ResolveKeepsInv(s: System, ch: Choice)
    requires Inv(s) && s.pc.Busy? && s.pc.at.Resolve?
    ensures Inv(LifecycleAct(s, s.pc.copy, s.pc.at, ch))
  {
  }

  lemma RebootKeepsInv(s: System, ch: Choice)
    requires Inv(s) && s.pc.Busy? && (s.pc.at.RebootReadVmi? || s.pc.at.RebootCommit?)
    ensures Inv(LifecycleAct(s, s.pc.copy, s.pc.at, ch))
  {
  }

  lemma BootstrapKeepsInv(s: System, ch: Choice)
    requires Inv(s) && s.pc.Busy? && BootstrapPoint(s.pc.at)
    ensures Inv(BootstrapAct(s, s.pc.copy, s.pc.at, ch))
  {
  }

  lemma VmReadKeepsInv(s: System, ch: Choice)
    requires Inv(s) && s.pc.Busy? && (s.pc.at.ReadVm? || s.pc.at.VmRefetch? || s.pc.at.GuardReadVmi?)
    ensures Inv(VmAct(s, s.pc.copy, s.pc.at, ch))
  {
  }

  lemma VmPutKeepsInv(s: System, ch: Choice)
    requires Inv(s) && s.pc.Busy? && (s.pc.at.VmCreate? || s.pc.at.VmWrite?)
    ensures Inv(VmAct(s, s.pc.copy, s.pc.at, ch))
  {
  }

  lemma ReadyCheckKeepsInv(s: System, ch: Choice)
    requires Inv(s) && s.pc.Busy? && s.pc.at.ReadyCheck?
    ensures Inv(ReadyAct(s, s.pc.copy, s.pc.at, ch))
  {
    var d := ReadyAct(s, s.pc.copy, s.pc.at, ch);
    assert d == s.(pc := Busy(s.pc.copy, d.pc.at));
    assert PointInv(s.pc.copy.ws, d.pc.at);
    assert CopyInv(d.record, d.pc);
    assert CustodyInv(d.record, d.vault, d.pc);
  }

  lemma ReportKeepsInv(s: System, ch: Choice)
    requires Inv(s) && s.pc.Busy? && (s.pc.at.ProvisionStage? || s.pc.at.Report?)
    ensures Inv(ReadyAct(s, s.pc.copy, s.pc.at, ch))
  {
  }

  lemma ProvisionKeepsInv(s: System, ch: Choice)
    requires Inv(s) && s.pc.Busy? && s.pc.at.ProvisionCommit?
    ensures Inv(ReadyAct(s, s.pc.copy, s.pc.at, ch))
  {
  }

  lemma EnvironmentKeepsInv(s: System, e: Event)
    requires Inv(s) && !e.Controller?
    ensures Inv(Next(s, e))
  {
  }

  lemma ControllerKeepsInv(s: System, ch: Choice)
    requires Inv(s) && s.pc.Busy?
    ensures Inv(Act(s, ch))
  {
    var at := s.pc.at;
    if at.ResetReadSecret? || at.ResetDeleteSecret? || at.ResetCommit? { ResetSecretKeepsInv(s, ch); }
    else if ResetPoint(at) { ResetVmKeepsInv(s, ch); }
    else if at.DetachCommit? { DetachCommitKeepsInv(s, ch); }
    else if at.DetachReadVmi? || at.DetachReadSecret? || at.DetachWriteSecret? { DetachKeepsInv(s, ch); }
    else if at.Resolve? { ResolveKeepsInv(s, ch); }
    else if LifecyclePoint(at) { RebootKeepsInv(s, ch); }
    else if BootstrapPoint(at) { BootstrapKeepsInv(s, ch); }
    else if at.VmCreate? || at.VmWrite? { VmPutKeepsInv(s, ch); }
    else if VmPoint(at) { VmReadKeepsInv(s, ch); }
    else if at.ProvisionCommit? { ProvisionKeepsInv(s, ch); }
    else if at.ReadyCheck? { ReadyCheckKeepsInv(s, ch); }
    else { ReportKeepsInv(s, ch); }
  }

  lemma StepKeepsInv(s: System, e: Event)
    requires Inv(s)
    ensures Inv(Next(s, e))
  {
    if !e.Controller? {
      EnvironmentKeepsInv(s, e);
    } else if s.pc.Idle? {
      BeginKeepsInv(s, e.choice);
    } else {
      ControllerKeepsInv(s, e.choice);
    }
  }

  lemma {:induction false} RunKeepsInv(gpu: Hardware, trace: seq<Event>)
    ensures Inv(Run(Initial(gpu), trace))
  {
    if trace != [] {
      RunKeepsInv(gpu, trace[..|trace| - 1]);
      StepKeepsInv(Run(Initial(gpu), trace[..|trace| - 1]), trace[|trace| - 1]);
    }
  }

  // ---------------------------------------------------------------- readiness

  /**
   Whenever a round is about to report the workspace ready: the stored marks say it is provisioned for its
   current generation and not detaching; its Secret exists, has no answer file and holds the password first
   stored for that generation; and it is neither stopped nor rebooting, unless a user has edited it since
   the round took its copy.
   */
  lemma ReadyMeansProvisioned(gpu: Hardware, trace: seq<Event>)
    requires var s := Run(Initial(gpu), trace); s.pc.Busy? && s.pc.at == Report(true)
    ensures var s := Run(Initial(gpu), trace);
            var ws, v := s.record.ws, s.vault;
            && ws.generation != "" && ws.provisioned == ws.generation && ws.detaching != ws.generation
            && Owned(v, ws.generation) && !v.secrets[ws.generation].answer
            && ws.generation in v.first && v.secrets[ws.generation].password == v.first[ws.generation]
            && Active(s.pc.copy.ws) && (s.record.version == s.pc.copy.version ==> Active(ws))
  {
    RunKeepsInv(gpu, trace);
  }

  lemma {:induction false} FirstIsKept(gpu: Hardware, trace: seq<Event>, k: nat, g: string)
    requires k <= |trace| && g in Run(Initial(gpu), trace[..k]).vault.first
    ensures var first, later := Run(Initial(gpu), trace[..k]).vault.first, Run(Initial(gpu), trace).vault.first;
            g in later && later[g] == first[g]
  {
    if k < |trace| {
      var n := |trace| - 1;
      assert trace[..n][..k] == trace[..k];
      FirstIsKept(gpu, trace[..n], k, g);
      StepKeepsFirst(Run(Initial(gpu), trace[..n]), trace[n], g);
    } else {
      assert trace[..k] == trace;
    }
  }

  lemma StepKeepsFirst(s: System, e: Event, g: string)
    requires g in s.vault.first
    ensures g in Next(s, e).vault.first && Next(s, e).vault.first[g] == s.vault.first[g]
  {
  }

  /**
   Credentials never rotate: at any two moments of a run, whatever was deleted, recreated or edited in between,
   the controller's Secrets for one generation hold the same password.
   */
  lemma PasswordNeverRotates(gpu: Hardware, trace: seq<Event>, k: nat, g: string)
    requires k <= |trace|
    requires Owned(Run(Initial(gpu), trace[..k]).vault, g) && Owned(Run(Initial(gpu), trace).vault, g)
    ensures Run(Initial(gpu), trace).vault.secrets[g].password == Run(Initial(gpu), trace[..k]).vault.secrets[g].password != ""
  {
    RunKeepsInv(gpu, trace[..k]);
    RunKeepsInv(gpu, trace);
    FirstIsKept(gpu, trace, k, g);
  }

  /**
   Before a round reports ready there was a moment, with the same copy in hand, at which the VMI was there with its
   agent connected and the pod ready.
   */
  lemma {:induction false} ReadySawGuest(gpu: Hardware, trace: seq<Event>) returns (k: nat)
    requires var s := Run(Initial(gpu), trace); s.pc.Busy? && s.pc.at == Report(true)
    ensures k < |trace| && trace[k].Controller? && trace[k].choice.guestUp && trace[k].choice.podReady
    ensures var s, q := Run(Initial(gpu), trace), Run(Initial(gpu), trace[..k]);
            q.pc.Busy? && q.pc.at.ReadyCheck? && q.pc.copy == s.pc.copy && q.machine.vmi
  {
    var n := |trace| - 1;
    var c := Run(Initial(gpu), trace[..n]);
    if trace[n].Controller? {
      OnlyReadyCheckReports(c, trace[n].choice);
      k := n;
    } else {
      k := ReadySawGuest(gpu, trace[..n]);
      assert trace[..n][..k] == trace[..k];
    }
  }

  lemma OnlyReadyCheckReports(s: System, ch: Choice)
    requires Act(s, ch).pc.Busy? && Act(s, ch).pc.at == Report(true)
    ensures s.pc.Busy? && s.pc.at.ReadyCheck? && s.pc.copy == Act(s, ch).pc.copy && s.machine.vmi && ch.guestUp && ch.podReady
  {
  }

  lemma StepKeepsCopy(s: System, e: Event)
    requires s.pc.Busy? && Next(s, e).pc.Busy? && !e.EditWorkspace? && s.record.ws == s.pc.copy.ws
    ensures Next(s, e).record.ws == Next(s, e).pc.copy.ws
  {
  }

  /** At moment `k` of the run the round under way read its Workspace; it has been under way ever since. */
  ghost predicate BeganAt(gpu: Hardware, trace: seq<Event>, k: nat) {
    && k < |trace| && Run(Initial(gpu), trace).pc.Busy?
    && var n := |trace| - 1;
       if k == n then trace[k].Controller? && Run(Initial(gpu), trace[..n]).pc.Idle? else BeganAt(gpu, trace[..n], k)
  }

  predicate NoEditSince(trace: seq<Event>, k: nat) {
    forall i | k <= i < |trace| :: !trace[i].EditWorkspace?
  }

  lemma BeginCopies(s: System, e: Event)
    requires s.pc.Idle? && Next(s, e).pc.Busy?
    ensures e.Controller? && Next(s, e).record.ws == Next(s, e).pc.copy.ws
  {
  }

  lemma NoEditBefore(trace: seq<Event>, k: nat)
    requires k < |trace| - 1 && NoEditSince(trace, k)
    ensures NoEditSince(trace[..|trace| - 1], k) && !trace[|trace| - 1].EditWorkspace?
  {
  }

  /** The round's copy is the stored Workspace, whatever else was written, unless a user edited it since the round's read. */
  lemma {:induction false} CopyIsStoredUnlessEdited(gpu: Hardware, trace: seq<Event>) returns (k: nat)
    requires Run(Initial(gpu), trace).pc.Busy?
    ensures BeganAt(gpu, trace, k)
    ensures NoEditSince(trace, k) ==> Run(Initial(gpu), trace).record.ws == Run(Initial(gpu), trace).pc.copy.ws
  {
    var n := |trace| - 1;
    var s := Run(Initial(gpu), trace[..n]);
    if s.pc.Idle? {
      k := n;
      BeginCopies(s, trace[n]);
    } else {
      k := CopyIsStoredUnlessEdited(gpu, trace[..n]);
      if NoEditSince(trace, k) {
        NoEditBefore(trace, k);
        StepKeepsCopy(s, trace[n]);
      }
    }
  }

  /** A workspace reported ready is not stopped, rebooting or detaching, unless a user edited it since the round's read. */
  lemma ReadyIsOnUnlessEdited(gpu: Hardware, trace: seq<Event>) returns (k: nat)
    requires var s := Run(Initial(gpu), trace); s.pc.Busy? && s.pc.at == Report(true)
    ensures BeganAt(gpu, trace, k)
    ensures var ws := Run(Initial(gpu), trace).record.ws;
            NoEditSince(trace, k) ==> !ws.stopped && ws.reboot == "" && ws.detaching != ws.generation
  {
    ReadyMeansProvisioned(gpu, trace);
    k := CopyIsStoredUnlessEdited(gpu, trace);
  }

  // ---------------------------------------------------------------- generations

  /** The generation moves only while there is no VM, to one never used before, and the same write clears the old marks and the reset. */
  lemma GenerationMovesCleanly(gpu: Hardware, trace: seq<Event>, e: Event)
    requires Next(Run(Initial(gpu), trace), e).record.ws.generation != Run(Initial(gpu), trace).record.ws.generation
    ensures var s := Run(Initial(gpu), trace);
            var d := Next(s, e);
            && s.machine.vm.None?
            && d.record.ws.provisioned == "" && d.record.ws.detaching == "" && !d.record.ws.reset
            && d.record.ws.generation !in s.record.generations && d.record.ws.generation !in s.vault.first
            && (s.record.ws.generation != "" ==> s.record.ws.reset)
  {
    RunKeepsInv(gpu, trace);
    OnlyCommitMoves(Run(Initial(gpu), trace), e);
  }

  lemma OnlyCommitMoves(s: System, e: Event)
    requires Next(s, e).record.ws.generation != s.record.ws.generation
    requires s.pc.Busy? ==> s.pc.copy.ws.generation == s.record.ws.generation
    ensures e.Controller? && s.pc.Busy? && s.record.version == s.pc.copy.version
    ensures var d, ws := Next(s, e).record.ws, s.pc.copy.ws;
            (s.pc.at.ResetCommit? && d == Fresh(ws, e.choice.generation)) || (s.pc.at.Resolve? && d == ws.(generation := e.choice.generation))
    ensures Next(s, e).record.ws.generation !in s.record.generations
  {
  }

  // ---------------------------------------------------------------- GPU

  /** The controller changes the hardware of an existing VM only at a moment when it is halted and has no VMI. */
  lemma GpuChangesOnlyWhenHalted(gpu: Hardware, trace: seq<Event>, ch: Choice)
    requires var s := Run(Initial(gpu), trace);
             s.machine.vm.Some? && Act(s, ch).machine.vm.Some? && s.machine.vm.value.gpu != Act(s, ch).machine.vm.value.gpu
    ensures var s := Run(Initial(gpu), trace);
            && (s.machine.vm.value.run == Running(false) || s.machine.vm.value.run == Strategy("Halted"))
            && !s.machine.vmi && s.machine.vm.value.uid == Act(s, ch).machine.vm.value.uid
  {
    RunKeepsInv(gpu, trace);
    OnlyWriteChangesHardware(Run(Initial(gpu), trace), ch);
  }

  lemma OnlyWriteChangesHardware(s: System, ch: Choice)
    requires s.machine.vm.Some? && Act(s, ch).machine.vm.Some? && s.machine.vm.value.gpu != Act(s, ch).machine.vm.value.gpu
    ensures s.pc.Busy? && s.pc.at.VmWrite? && s.machine.vm.value.version == s.pc.at.seen.version
    ensures Act(s, ch).machine.vm.value.uid == s.pc.at.seen.uid && Act(s, ch).machine.vm.value.gpu == s.pc.copy.ws.gpu
  {
  }
}
