/**
 The execution epoch of a VM workspace and its management bootstrap documents
 (internal/controller/vm_execution_epoch.go, vm_management_bootstrap.go and the two status
 writers of workspace_controller.go).

 Any number of reconcile rounds, for any Workspaces, interleave with spec editors, with
 Workspaces and VMs coming and going, with the clean-up of old documents and with time. Each
 event of a round is one API call plus the local decisions after it, and a round may stop
 between any two of them. Nothing here relies on schema validation of the stored epoch.
 */
module ManagementIdentity {
  import opened ApiServer
  import opened Text

  type Name = string

  datatype Execution = Execution(vmUid: Uid, epoch: int)

  /** A Windows workspace: its generation and the generation its provisioned mark names. */
  datatype Windows = Windows(generation: string, provisioned: string)

  /** `requested` is spec.executionRevocationEpoch, `pending` any reset/stop/reboot/detach mark. */
  datatype Workspace = Workspace(requested: int, pending: bool, windows: Option<Windows>, execution: Option<Execution>)

  datatype Vm = Vm(running: bool, deleting: bool, ownerName: Name, ownerUid: Uid, generation: string)

  datatype Document = Document(workspace: Name, workspaceUid: Uid, vmUid: Uid, epoch: int, created: nat, expires: nat, token: string)

  const LIFETIME := 15 * 60 * 1000000

  datatype Phase =
    | Working
    | EpochReadVm(ws: Object<Workspace>)
    | EpochWrite(ws: Object<Workspace>, next: Execution)
    | ReadyWrite(ws: Object<Workspace>)
    | BootReadVm(ws: Object<Workspace>)
    | BootReadSecret(ws: Object<Workspace>)
    | BootCreate(ws: Object<Workspace>)
    | Failed
    | Stopped

  /**
   A reconcile round. `version` and `execution` belong to its in-memory Workspace; `vmUid` is the VM it
   observed; `confirmed` is the request its epoch reconcile has satisfied.
   */
  datatype Round = Round(name: Name, uid: Uid, version: nat, execution: Option<Execution>, vmUid: Uid, phase: Phase, confirmed: Option<int>)

  /** The Workspaces with what is remembered about them: the name behind a UID and every epoch ever requested. */
  datatype Core = Core(workspaces: Store<Name, Workspace>, names: map<Uid, Name>, asked: set<(Uid, int)>)

  /** The protected namespace, with a count of creations and removals per document name. */
  datatype Registry = Registry(documents: map<string, Document>, creations: map<string, nat>, deletions: map<string, nat>, now: nat)

  datatype Cluster = Cluster(core: Core, vms: Store<Name, Vm>, registry: Registry, rounds: map<nat, Round>)

  datatype Action =
    | EpochGetWorkspace
    | EpochGetVm
    | EpochPut
    | FailurePut
    | MetadataPut(pending: bool)
    | ReadyGet
    | ReadyPut
    | BootGetWorkspace
    | BootGetVm
    | BootGetDocument
    | BootPut(token: string)

  datatype Event =
    | CreateWorkspace(name: Name, uid: Uid, requested: int, windows: Option<Windows>)
    | EditWorkspace(name: Name, requested: int, pending: bool, windows: Option<Windows>)
    | DeleteWorkspace(name: Name)
    | CreateVm(name: Name, uid: Uid, vm: Vm)
    | EditVm(name: Name, vm: Vm)
    | DeleteVm(name: Name)
    | DeleteDocument(identity: string)
    | Tick(elapsed: nat)
    | Begin(pid: nat, name: Name, vmUid: Uid)
    | Act(pid: nat, action: Action)
    | Crash(pid: nat)

  const EMPTY := Cluster(Core(Store(map[], 0, {}), map[], {}), Store(map[], 0, {}), Registry(map[], map[], map[], 0), map[])

  // ---------------------------------------------------------------- identity strings

  /** `strconv.FormatInt(n, 10)` for a non-negative number. */
  function Digits(n: nat): string {
    if n < 10 then [(48 + n) as char] else Digits(n / 10) + [(48 + n % 10) as char]
  }

  lemma {:induction false} DigitsInjective(a: nat, b: nat)
    requires Digits(a) == Digits(b)
    ensures a == b
  {
    var x, y := Digits(a), Digits(b);
    assert x[|x| - 1] == (48 + a % 10) as char && y[|y| - 1] == (48 + b % 10) as char;
    if a >= 10 && b >= 10 {
      assert x[..|x| - 1] == Digits(a / 10) && y[..|y| - 1] == Digits(b / 10);
      DigitsInjective(a / 10, b / 10);
    } else {
      DigitsNonEmpty(a / 10);
      DigitsNonEmpty(b / 10);
    }
  }

  lemma DigitsNonEmpty(n: nat)
    ensures |Digits(n)| > 0
  {
  }

  /** The string whose hash names the document: the epoch is left out when it is zero. */
  function Identity(workspaceUid: Uid, vmUid: Uid, epoch: nat): string {
    workspaceUid + "/" + vmUid + (if epoch == 0 then "" else "/" + Digits(epoch))
  }

  lemma IdentityParts(workspaceUid: Uid, vmUid: Uid, epoch: nat)
    requires '/' !in workspaceUid && '/' !in vmUid
    ensures var tail := vmUid + (if epoch == 0 then "" else "/" + Digits(epoch));
            && SplitAtSlash(Identity(workspaceUid, vmUid, epoch)) == Split(workspaceUid, Some(tail))
            && SplitAtSlash(tail) == Split(vmUid, if epoch == 0 then None else Some(Digits(epoch)))
  {
    var tail := vmUid + (if epoch == 0 then "" else "/" + Digits(epoch));
    assert Identity(workspaceUid, vmUid, epoch) == workspaceUid + "/" + tail;
    SplitJoined(workspaceUid, tail);
    if epoch == 0 {
      assert tail == vmUid;
      SplitSlashFree(vmUid);
    } else {
      assert tail == vmUid + "/" + Digits(epoch);
      SplitJoined(vmUid, Digits(epoch));
    }
  }

  /** One identity string, one (Workspace, VM, epoch). */
  lemma IdentityInjective(w1: Uid, v1: Uid, e1: nat, w2: Uid, v2: Uid, e2: nat)
    requires '/' !in w1 && '/' !in v1 && '/' !in w2 && '/' !in v2
    requires Identity(w1, v1, e1) == Identity(w2, v2, e2)
    ensures w1 == w2 && v1 == v2 && e1 == e2
  {
    IdentityParts(w1, v1, e1);
    IdentityParts(w2, v2, e2);
    if e1 != 0 && e2 != 0 {
      DigitsInjective(e1, e2);
    }
  }

  /** UIDs with slashes could collide, which is why the result above asks for slash-free ones. */
  lemma IdentityNeedsSlashFree()
    ensures Identity("a/b", "c", 0) == Identity("a", "b/c", 0)
  {
    assert "a/b" + "/" + "c" == "a/b/c" == "a" + "/" + "b/c";
    assert Identity("a/b", "c", 0) == "a/b/c" + "" && Identity("a", "b/c", 0) == "a/b/c" + "";
  }

  // ---------------------------------------------------------------- predicates of the source

  /** managementVMCurrent */
  predicate VmCurrent(name: Name, ws: Object<Workspace>, vm: Object<Vm>, observed: Uid) {
    && vm.body.running && vm.uid != "" && vm.uid == observed && !vm.body.deleting
    && vm.body.ownerUid == ws.uid && vm.body.ownerName == name
    && (ws.body.windows.Some? ==>
          var w := ws.body.windows.value;
          w.generation != "" && w.provisioned == w.generation && vm.body.generation == w.generation)
  }

  /** managementBootstrapMatches, for a document of the controller's own shape. */
  predicate Matches(doc: Document, name: Name, ws: Object<Workspace>, vmUid: Uid, now: nat) {
    var state := ws.body.execution;
    && state.Some? && state.value.vmUid == vmUid && state.value.epoch >= 0
    && doc.workspace == name && doc.workspaceUid == ws.uid && doc.vmUid == vmUid
    && doc.epoch == state.value.epoch
    && doc.expires != 0 && doc.expires <= now + LIFETIME
  }

  /** The epoch an epoch reconcile settles on: never below the stored one. */
  function Settle(ws: Object<Workspace>, vmUid: Uid): Execution {
    var previous := ws.body.execution;
    Execution(vmUid, if previous.Some? && previous.value.epoch > ws.body.requested then previous.value.epoch else ws.body.requested)
  }

  // ---------------------------------------------------------------- steps

  /** What one action of a round leaves behind. */
  datatype Effect = Effect(core: Core, registry: Registry, round: Round)

  function Count(counts: map<string, nat>, k: string): nat {
    if k in counts then counts[k] else 0
  }

  function Stored(k: Core, name: Name): Option<Object<Workspace>> {
    if name in k.workspaces.objects then Some(k.workspaces.objects[name]) else None
  }

  /** Write `body` over the version the writer holds; a refused write changes nothing. */
  function Put(k: Core, name: Name, version: nat, body: Workspace): Core {
    k.(workspaces := Update(k.workspaces, name, version, body).store)
  }

  predicate Accepted(k: Core, name: Name, version: nat) {
    name in k.workspaces.objects && k.workspaces.objects[name].version == version
  }

  /** reconcileExecutionEpoch after both reads. */
  function EpochDecides(c: Cluster, r: Round): Round
    requires r.phase.EpochReadVm?
  {
    var ws := r.phase.ws;
    if r.name !in c.vms.objects || ws.uid != r.uid || !VmCurrent(r.name, ws, c.vms.objects[r.name], r.vmUid)
       || ws.body.requested < 0 then r.(phase := Failed)
    else
      var next := Settle(ws, r.vmUid);
      if ws.body.execution == Some(next) then
        r.(version := ws.version, execution := ws.body.execution, phase := Working, confirmed := Some(ws.body.requested))
      else r.(phase := EpochWrite(ws, next))
  }

  function EpochAct(c: Cluster, r: Round, a: Action): Effect {
    var k, stored := c.core, Stored(c.core, r.name);
    match a
    case EpochGetWorkspace =>
      Effect(k, c.registry, if !r.phase.Working? then r else r.(phase := if stored.Some? then EpochReadVm(stored.value) else Failed))
    case EpochGetVm => Effect(k, c.registry, if r.phase.EpochReadVm? then EpochDecides(c, r) else r)
    case EpochPut =>
      if !r.phase.EpochWrite? then Effect(k, c.registry, r)
      else
        var ws, next := r.phase.ws, Some(r.phase.next);
        Effect(Put(k, r.name, ws.version, ws.body.(execution := next)), c.registry,
               if Accepted(k, r.name, ws.version) then
                 r.(version := k.workspaces.clock, execution := next, phase := Working, confirmed := Some(ws.body.requested))
               else r.(phase := Failed))
    case _ => Effect(k, c.registry, r)
  }

  /** The other writers of the Workspace in a round. */
  function StatusAct(c: Cluster, r: Round, a: Action): Effect {
    var k, stored := c.core, Stored(c.core, r.name);
    match a
    case FailurePut =>
      // setNotReadyCondition writes the whole in-memory status; the rest of the object is ignored.
      if r.phase.Stopped? || stored.None? then Effect(k, c.registry, r)
      else Effect(Put(k, r.name, r.version, stored.value.body.(execution := r.execution)), c.registry, r.(phase := Stopped))
    case MetadataPut(pending) =>
      // An Update of the in-memory object changes annotations; the stored status comes back with the reply.
      if !r.phase.Working? || stored.None? then Effect(k, c.registry, r)
      else
        Effect(Put(k, r.name, r.version, stored.value.body.(pending := pending)), c.registry,
               if Accepted(k, r.name, r.version) then r.(version := k.workspaces.clock, execution := stored.value.body.execution)
               else r.(phase := Failed))
    case ReadyGet =>
      Effect(k, c.registry, if !r.phase.Working? then r else r.(phase := if stored.Some? then ReadyWrite(stored.value) else Failed))
    case ReadyPut =>
      // updateWorkspaceStatus keeps the execution of the copy it just read, and reads again on conflict.
      if !r.phase.ReadyWrite? then Effect(k, c.registry, r)
      else
        var ws := r.phase.ws;
        Effect(Put(k, r.name, ws.version, ws.body), c.registry,
               r.(phase := if !Accepted(k, r.name, ws.version) && stored.Some? then Working else Stopped))
    case _ => Effect(k, c.registry, r)
  }

  predicate HasEpoch(ws: Object<Workspace>) {
    ws.body.execution.Some? && ws.body.execution.value.epoch >= 0
  }

  /** The settled epoch belongs to this VM and covers the request. */
  predicate EpochCurrent(ws: Object<Workspace>, vmUid: Uid) {
    && HasEpoch(ws) && ws.body.execution.value.vmUid == vmUid
    && 0 <= ws.body.requested <= ws.body.execution.value.epoch
  }

  predicate BootCurrent(c: Cluster, r: Round, ws: Object<Workspace>) {
    r.name in c.vms.objects && VmCurrent(r.name, ws, c.vms.objects[r.name], r.vmUid) && EpochCurrent(ws, r.vmUid)
  }

  /** The name of the document a round with this Workspace copy is after. */
  function IdentityOf(ws: Object<Workspace>, vmUid: Uid): string
    requires HasEpoch(ws)
  {
    Identity(ws.uid, vmUid, ws.body.execution.value.epoch)
  }

  function NewDocument(r: Round, ws: Object<Workspace>, now: nat, token: string): Document
    requires HasEpoch(ws)
  {
    Document(r.name, ws.uid, r.vmUid, ws.body.execution.value.epoch, now, now + LIFETIME, token)
  }

  function AddDocument(g: Registry, identity: string, doc: Document): Registry {
    g.(documents := g.documents[identity := doc], creations := g.creations[identity := Count(g.creations, identity) + 1])
  }

  function RemoveDocument(g: Registry, identity: string): Registry {
    if identity !in g.documents then g
    else g.(documents := g.documents - {identity}, deletions := g.deletions[identity := Count(g.deletions, identity) + 1])
  }

  /** reconcileManagementBootstrap. */
  function BootAct(c: Cluster, r: Round, a: Action): Effect {
    var k, g, stored := c.core, c.registry, Stored(c.core, r.name);
    match a
    case BootGetWorkspace =>
      Effect(k, g, if !r.phase.Working? then r
                   else if stored.None? || stored.value.uid != r.uid || stored.value.body.pending then r.(phase := Failed)
                   else r.(phase := BootReadVm(stored.value)))
    case BootGetVm =>
      Effect(k, g, if !r.phase.BootReadVm? then r
                   else r.(phase := if BootCurrent(c, r, r.phase.ws) then BootReadSecret(r.phase.ws) else Failed))
    case BootGetDocument =>
      if !r.phase.BootReadSecret? || !HasEpoch(r.phase.ws) then Effect(k, g, r)
      else
        var ws := r.phase.ws;
        var identity := IdentityOf(ws, r.vmUid);
        Effect(k, g, if identity !in g.documents then r.(phase := BootCreate(ws))
                     else r.(phase := if Matches(g.documents[identity], r.name, ws, r.vmUid, g.now) then Working else Failed))
    case BootPut(token) =>
      if !r.phase.BootCreate? || !HasEpoch(r.phase.ws) then Effect(k, g, r)
      else
        var ws := r.phase.ws;
        var identity := IdentityOf(ws, r.vmUid);
        if identity in g.documents then Effect(k, g, r.(phase := Failed))
        else Effect(k, AddDocument(g, identity, NewDocument(r, ws, g.now, token)), r.(phase := Working))
    case _ => Effect(k, g, r)
  }

  function Perform(c: Cluster, r: Round, a: Action): Effect {
    if a.EpochGetWorkspace? || a.EpochGetVm? || a.EpochPut? then EpochAct(c, r, a)
    else if a.FailurePut? || a.MetadataPut? || a.ReadyGet? || a.ReadyPut? then StatusAct(c, r, a)
    else BootAct(c, r, a)
  }

  function AddWorkspace(k: Core, name: Name, uid: Uid, requested: int, windows: Option<Windows>): Core {
    if uid in k.workspaces.issued || '/' in uid || name in k.workspaces.objects then k
    else
      Core(Create(k.workspaces, name, uid, Workspace(requested, false, windows, None)).store,
           k.names[uid := name], k.asked + {(uid, requested)})
  }

  function ChangeWorkspace(k: Core, name: Name, requested: int, pending: bool, windows: Option<Windows>): Core {
    if name !in k.workspaces.objects then k
    else
      var ws := k.workspaces.objects[name];
      Put(k, name, ws.version, Workspace(requested, pending, windows, ws.body.execution)).(asked := k.asked + {(ws.uid, requested)})
  }

  function RemoveWorkspace(k: Core, name: Name): Core {
    k.(workspaces := Delete(k.workspaces, name, None).store)
  }

  function Next(c: Cluster, e: Event): Cluster {
    match e
    case CreateWorkspace(name, uid, requested, windows) => c.(core := AddWorkspace(c.core, name, uid, requested, windows))
    case EditWorkspace(name, requested, pending, windows) => c.(core := ChangeWorkspace(c.core, name, requested, pending, windows))
    case DeleteWorkspace(name) => c.(core := RemoveWorkspace(c.core, name))
    case CreateVm(name, uid, vm) =>
      if uid in c.vms.issued || '/' in uid then c else c.(vms := Create(c.vms, name, uid, vm).store)
    case EditVm(name, vm) =>
      if name !in c.vms.objects then c else c.(vms := Update(c.vms, name, c.vms.objects[name].version, vm).store)
    case DeleteVm(name) => c.(vms := Delete(c.vms, name, None).store)
    case DeleteDocument(identity) => c.(registry := RemoveDocument(c.registry, identity))
    case Tick(elapsed) => c.(registry := c.registry.(now := c.registry.now + elapsed))
    case Begin(pid, name, vmUid) =>
      var stored := Stored(c.core, name);
      if pid in c.rounds || stored.None? || '/' in vmUid then c
      else c.(rounds := c.rounds[pid := Round(name, stored.value.uid, stored.value.version, stored.value.body.execution, vmUid, Working, None)])
    case Act(pid, action) =>
      if pid !in c.rounds then c
      else
        var effect := Perform(c, c.rounds[pid], action);
        c.(core := effect.core, registry := effect.registry, rounds := c.rounds[pid := effect.round])
    case Crash(pid) => c.(rounds := c.rounds - {pid})
  }

  function Run(c: Cluster, trace: seq<Event>): Cluster {
    if trace == [] then c else Next(Run(c, trace[..|trace| - 1]), trace[|trace| - 1])
  }

  // ---------------------------------------------------------------- invariant

  /** The stored epoch of this incarnation, if it still exists, is at least `epoch`. */
  ghost predicate Floor(k: Core, name: Name, uid: Uid, epoch: int) {
    Live(k.workspaces, name, uid) ==>
      var x := k.workspaces.objects[name].body.execution;
      x.Some? && x.value.epoch >= epoch
  }

  /** An epoch is a value somebody requested for this Workspace, and not negative. */
  ghost predicate BodyOk(k: Core, name: Name, uid: Uid, body: Workspace) {
    && '/' !in uid && uid in k.names && k.names[uid] == name
    && (uid, body.requested) in k.asked
    && (body.execution.Some? ==> body.execution.value.epoch >= 0 && (uid, body.execution.value.epoch) in k.asked)
  }

  ghost predicate SnapshotOk(k: Core, name: Name, ws: Object<Workspace>) {
    && Snapshot(k.workspaces, name, ws)
    && BodyOk(k, name, ws.uid, ws.body)
    && (ws.body.execution.Some? ==> Floor(k, name, ws.uid, ws.body.execution.value.epoch))
  }

  /** In-flight copies of the Workspace are held by every phase between a read and the write that follows it. */
  predicate HasSnapshot(phase: Phase) {
    !phase.Working? && !phase.Failed? && !phase.Stopped?
  }

  ghost predicate RoundInv(k: Core, r: Round) {
    && r.uid in k.workspaces.issued && '/' !in r.vmUid
    && r.version < k.workspaces.clock
    && (Accepted(k, r.name, r.version) ==> k.workspaces.objects[r.name].body.execution == r.execution)
    && (HasSnapshot(r.phase) ==> SnapshotOk(k, r.name, r.phase.ws))
    && (r.phase.BootReadVm? || r.phase.BootReadSecret? || r.phase.BootCreate? ==> r.phase.ws.uid == r.uid && !r.phase.ws.body.pending)
    && (r.phase.BootReadSecret? || r.phase.BootCreate? ==> EpochCurrent(r.phase.ws, r.vmUid))
    && (r.phase.EpochWrite? ==>
          && r.phase.ws.uid == r.uid && r.phase.ws.body.requested >= 0
          && r.phase.next == Settle(r.phase.ws, r.vmUid))
    && (r.confirmed.Some? ==> Floor(k, r.name, r.uid, r.confirmed.value))
  }

  ghost predicate CoreInv(k: Core) {
    && Valid(k.workspaces)
    && k.names.Keys == k.workspaces.issued
    && forall name <- k.workspaces.objects :: BodyOk(k, name, k.workspaces.objects[name].uid, k.workspaces.objects[name].body)
  }

  ghost predicate DocumentOk(names: map<Uid, Name>, now: nat, identity: string, doc: Document) {
    && '/' !in doc.workspaceUid && '/' !in doc.vmUid && doc.epoch >= 0
    && identity == Identity(doc.workspaceUid, doc.vmUid, doc.epoch)
    && doc.workspaceUid in names && names[doc.workspaceUid] == doc.workspace
    && doc.created <= now && doc.expires == doc.created + LIFETIME
  }

  ghost predicate Balanced(g: Registry, identity: string) {
    Count(g.creations, identity) == Count(g.deletions, identity) + (if identity in g.documents then 1 else 0)
  }

  ghost predicate RegistryInv(names: map<Uid, Name>, g: Registry) {
    && (forall identity <- g.documents :: DocumentOk(names, g.now, identity, g.documents[identity]))
    && (forall identity :: Balanced(g, identity))
  }

  ghost predicate Inv(c: Cluster) {
    && CoreInv(c.core)
    && RegistryInv(c.core.names, c.registry)
    && forall pid <- c.rounds :: RoundInv(c.core, c.rounds[pid])
  }

  /** Between two states the epoch of an incarnation that survives does not decrease, nor disappear. */
  ghost predicate Monotone(k: Core, l: Core) {
    forall name <- l.workspaces.objects :: Live(k.workspaces, name, l.workspaces.objects[name].uid) ==>
      var x, y := k.workspaces.objects[name].body.execution, l.workspaces.objects[name].body.execution;
      x.Some? ==> y.Some? && y.value.epoch >= x.value.epoch
  }

  ghost predicate Advances(k: Core, l: Core) {
    && Evolves(k.workspaces, l.workspaces)
    && Monotone(k, l)
    && k.asked <= l.asked
    && (forall uid <- k.names :: uid in l.names && l.names[uid] == k.names[uid])
  }

  lemma AdvancesReflexive(k: Core)
    requires CoreInv(k)
    ensures Advances(k, k)
  {
  }

  lemma AdvancesTransitive(k: Core, l: Core, m: Core)
    requires CoreInv(k) && Advances(k, l) && Advances(l, m)
    ensures Advances(k, m)
  {
    EvolvesTransitive(k.workspaces, l.workspaces, m.workspaces);
    forall name | name in m.workspaces.objects && Live(k.workspaces, name, m.workspaces.objects[name].uid)
      ensures Live(l.workspaces, name, m.workspaces.objects[name].uid)
    {
      var uid := m.workspaces.objects[name].uid;
      if Gone(l.workspaces, name, uid) {
        GoneEvolves(l.workspaces, m.workspaces, name, uid);
      }
    }
  }

  /** Whatever others do, what a round knows stays true. */
  lemma RoundInvStable(k: Core, l: Core, r: Round)
    requires CoreInv(k) && RoundInv(k, r) && Advances(k, l)
    ensures RoundInv(l, r)
  {
    if HasSnapshot(r.phase) {
      SnapshotEvolves(k.workspaces, l.workspaces, r.name, r.phase.ws);
      assert Live(l.workspaces, r.name, r.phase.ws.uid) ==> Live(k.workspaces, r.name, r.phase.ws.uid);
    }
    assert Live(l.workspaces, r.name, r.uid) ==> Live(k.workspaces, r.name, r.uid);
  }

  lemma RegistryInvStable(k: Core, l: Core, g: Registry)
    requires RegistryInv(k.names, g) && Advances(k, l)
    ensures RegistryInv(l.names, g)
  {
  }

  /** A versioned write that does not lower the epoch. */
  ghost predicate GoodWrite(k: Core, name: Name, version: nat, body: Workspace) {
    Accepted(k, name, version) ==>
      && BodyOk(k, name, k.workspaces.objects[name].uid, body)
      && var x := k.workspaces.objects[name].body.execution;
      x.Some? ==> body.execution.Some? && body.execution.value.epoch >= x.value.epoch
  }

  lemma PutAdvances(k: Core, name: Name, version: nat, body: Workspace)
    requires CoreInv(k) && GoodWrite(k, name, version, body)
    ensures var l := Put(k, name, version, body); CoreInv(l) && Advances(k, l)
  {
  }

  lemma StoredIsSnapshot(k: Core, name: Name)
    requires CoreInv(k) && name in k.workspaces.objects
    ensures SnapshotOk(k, name, k.workspaces.objects[name])
  {
  }

  // ---------------------------------------------------------------- every action keeps it

  ghost predicate GoodEffect(c: Cluster, effect: Effect) {
    && CoreInv(effect.core) && Advances(c.core, effect.core)
    && RegistryInv(effect.core.names, effect.registry)
    && RoundInv(effect.core, effect.round)
  }

  lemma ReadIsGood(c: Cluster, r: Round)
    requires Inv(c) && RoundInv(c.core, r)
    ensures GoodEffect(c, Effect(c.core, c.registry, r))
  {
    AdvancesReflexive(c.core);
  }

  /** A good write of a round, whatever the round becomes, as long as what it keeps is true of the new store. */
  lemma WriteIsGood(c: Cluster, r: Round, version: nat, body: Workspace)
    requires Inv(c) && RoundInv(c.core, r) && GoodWrite(c.core, r.name, version, body)
    ensures var l := Put(c.core, r.name, version, body);
            CoreInv(l) && Advances(c.core, l) && RegistryInv(l.names, c.registry) && RoundInv(l, r)
  {
    var l := Put(c.core, r.name, version, body);
    PutAdvances(c.core, r.name, version, body);
    RoundInvStable(c.core, l, r);
    RegistryInvStable(c.core, l, c.registry);
  }

  lemma EpochPutGood(c: Cluster, r: Round)
    requires Inv(c) && RoundInv(c.core, r) && r.phase.EpochWrite?
    ensures GoodEffect(c, EpochAct(c, r, EpochPut))
  {
    WriteIsGood(c, r, r.phase.ws.version, r.phase.ws.body.(execution := Some(r.phase.next)));
  }

  lemma EpochActGood(c: Cluster, r: Round, a: Action)
    requires Inv(c) && RoundInv(c.core, r)
    ensures GoodEffect(c, EpochAct(c, r, a))
  {
    if a.EpochPut? && r.phase.EpochWrite? {
      EpochPutGood(c, r);
    } else {
      if r.name in c.core.workspaces.objects {
        StoredIsSnapshot(c.core, r.name);
      }
      ReadIsGood(c, EpochAct(c, r, a).round);
    }
  }

  lemma StatusPutGood(c: Cluster, r: Round, a: Action)
    requires Inv(c) && RoundInv(c.core, r) && (a.FailurePut? || a.MetadataPut?) && r.name in c.core.workspaces.objects
    ensures GoodEffect(c, StatusAct(c, r, a))
  {
    var stored := c.core.workspaces.objects[r.name];
    ReadIsGood(c, r);
    WriteIsGood(c, r, r.version, if a.FailurePut? then stored.body.(execution := r.execution) else stored.body.(pending := a.pending));
  }

  lemma ReadyPutGood(c: Cluster, r: Round)
    requires Inv(c) && RoundInv(c.core, r) && r.phase.ReadyWrite?
    ensures GoodEffect(c, StatusAct(c, r, ReadyPut))
  {
    WriteIsGood(c, r, r.phase.ws.version, r.phase.ws.body);
  }

  lemma StatusActGood(c: Cluster, r: Round, a: Action)
    requires Inv(c) && RoundInv(c.core, r)
    ensures GoodEffect(c, StatusAct(c, r, a))
  {
    if (a.FailurePut? || a.MetadataPut?) && r.name in c.core.workspaces.objects {
      StatusPutGood(c, r, a);
    } else if a.ReadyPut? && r.phase.ReadyWrite? {
      ReadyPutGood(c, r);
    } else {
      if r.name in c.core.workspaces.objects {
        StoredIsSnapshot(c.core, r.name);
      }
      ReadIsGood(c, StatusAct(c, r, a).round);
    }
  }

  lemma AddDocumentKeepsInv(names: map<Uid, Name>, g: Registry, identity: string, doc: Document)
    requires RegistryInv(names, g) && identity !in g.documents && DocumentOk(names, g.now, identity, doc)
    ensures RegistryInv(names, AddDocument(g, identity, doc))
  {
    forall k
      ensures Balanced(AddDocument(g, identity, doc), k)
    {
      assert Balanced(g, k);
    }
  }

  lemma RemoveDocumentKeepsInv(names: map<Uid, Name>, g: Registry, identity: string)
    requires RegistryInv(names, g)
    ensures RegistryInv(names, RemoveDocument(g, identity))
  {
    forall k
      ensures Balanced(RemoveDocument(g, identity), k)
    {
      assert Balanced(g, k);
    }
  }

  lemma BootPutGood(c: Cluster, r: Round, token: string)
    requires Inv(c) && RoundInv(c.core, r) && r.phase.BootCreate? && HasEpoch(r.phase.ws)
    requires IdentityOf(r.phase.ws, r.vmUid) !in c.registry.documents
    ensures GoodEffect(c, BootAct(c, r, BootPut(token)))
  {
    ReadIsGood(c, r.(phase := Working));
    AddDocumentKeepsInv(c.core.names, c.registry, IdentityOf(r.phase.ws, r.vmUid), NewDocument(r, r.phase.ws, c.registry.now, token));
  }

  lemma BootReadKeepsRound(c: Cluster, r: Round, a: Action)
    requires CoreInv(c.core) && RoundInv(c.core, r)
    requires !(a.BootPut? && r.phase.BootCreate? && HasEpoch(r.phase.ws) && IdentityOf(r.phase.ws, r.vmUid) !in c.registry.documents)
    ensures var effect := BootAct(c, r, a);
            effect.core == c.core && effect.registry == c.registry && RoundInv(c.core, effect.round)
  {
    if r.name in c.core.workspaces.objects {
      StoredIsSnapshot(c.core, r.name);
    }
  }

  lemma BootActGood(c: Cluster, r: Round, a: Action)
    requires Inv(c) && RoundInv(c.core, r)
    ensures GoodEffect(c, BootAct(c, r, a))
  {
    if a.BootPut? && r.phase.BootCreate? && HasEpoch(r.phase.ws) && IdentityOf(r.phase.ws, r.vmUid) !in c.registry.documents {
      BootPutGood(c, r, a.token);
    } else {
      BootReadKeepsRound(c, r, a);
      ReadIsGood(c, BootAct(c, r, a).round);
    }
  }

  lemma PerformGood(c: Cluster, r: Round, a: Action)
    requires Inv(c) && RoundInv(c.core, r)
    ensures GoodEffect(c, Perform(c, r, a))
  {
    EpochActGood(c, r, a);
    StatusActGood(c, r, a);
    BootActGood(c, r, a);
  }

  // ---------------------------------------------------------------- every event keeps it

  lemma RoundsStable(k: Core, l: Core, before: map<nat, Round>, after: map<nat, Round>)
    requires CoreInv(k) && Advances(k, l)
    requires forall pid <- before :: RoundInv(k, before[pid])
    requires forall pid <- after :: RoundInv(l, after[pid]) || (pid in before && after[pid] == before[pid])
    ensures forall pid <- after :: RoundInv(l, after[pid])
  {
    forall pid | pid in after
      ensures RoundInv(l, after[pid])
    {
      if pid in before && after[pid] == before[pid] {
        RoundInvStable(k, l, before[pid]);
      }
    }
  }

  lemma WorkspaceEvents(k: Core, name: Name, uid: Uid, requested: int, pending: bool, windows: Option<Windows>)
    requires CoreInv(k)
    ensures var l := AddWorkspace(k, name, uid, requested, windows); CoreInv(l) && Advances(k, l)
    ensures var l := ChangeWorkspace(k, name, requested, pending, windows); CoreInv(l) && Advances(k, l)
    ensures var l := RemoveWorkspace(k, name); CoreInv(l) && Advances(k, l)
  {
    AddWorkspaceGood(k, name, uid, requested, windows);
    ChangeWorkspaceGood(k, name, requested, pending, windows);
  }

  lemma AddWorkspaceGood(k: Core, name: Name, uid: Uid, requested: int, windows: Option<Windows>)
    requires CoreInv(k)
    ensures var l := AddWorkspace(k, name, uid, requested, windows); CoreInv(l) && Advances(k, l)
  {
    var l := AddWorkspace(k, name, uid, requested, windows);
    forall n | n in l.workspaces.objects
      ensures BodyOk(l, n, l.workspaces.objects[n].uid, l.workspaces.objects[n].body)
    {
      assert n in k.workspaces.objects ==> BodyOk(k, n, k.workspaces.objects[n].uid, k.workspaces.objects[n].body);
    }
  }

  lemma ChangeWorkspaceGood(k: Core, name: Name, requested: int, pending: bool, windows: Option<Windows>)
    requires CoreInv(k)
    ensures var l := ChangeWorkspace(k, name, requested, pending, windows); CoreInv(l) && Advances(k, l)
  {
    var l := ChangeWorkspace(k, name, requested, pending, windows);
    forall n | n in l.workspaces.objects
      ensures BodyOk(l, n, l.workspaces.objects[n].uid, l.workspaces.objects[n].body)
    {
      assert BodyOk(k, n, k.workspaces.objects[n].uid, k.workspaces.objects[n].body);
    }
  }

  lemma CoreMoves(c: Cluster, l: Core)
    requires Inv(c) && CoreInv(l) && Advances(c.core, l)
    ensures Inv(c.(core := l))
  {
    RegistryInvStable(c.core, l, c.registry);
    RoundsStable(c.core, l, c.rounds, c.rounds);
  }

  lemma ActKeepsInv(c: Cluster, pid: nat, a: Action)
    requires Inv(c) && pid in c.rounds
    ensures Inv(Next(c, Act(pid, a))) && Advances(c.core, Next(c, Act(pid, a)).core)
  {
    var effect := Perform(c, c.rounds[pid], a);
    PerformGood(c, c.rounds[pid], a);
    RoundsStable(c.core, effect.core, c.rounds, c.rounds[pid := effect.round]);
  }

  lemma StepKeepsInv(c: Cluster, e: Event)
    requires Inv(c)
    ensures Inv(Next(c, e)) && Advances(c.core, Next(c, e).core)
  {
    AdvancesReflexive(c.core);
    match e
    case CreateWorkspace(name, uid, requested, windows) =>
      WorkspaceEvents(c.core, name, uid, requested, false, windows);
      CoreMoves(c, AddWorkspace(c.core, name, uid, requested, windows));
    case EditWorkspace(name, requested, pending, windows) =>
      WorkspaceEvents(c.core, name, "", requested, pending, windows);
      CoreMoves(c, ChangeWorkspace(c.core, name, requested, pending, windows));
    case DeleteWorkspace(name) =>
      WorkspaceEvents(c.core, name, "", 0, false, None);
      CoreMoves(c, RemoveWorkspace(c.core, name));
    case DeleteDocument(identity) => RemoveDocumentKeepsInv(c.core.names, c.registry, identity);
    case Tick(elapsed) => assert forall k :: Balanced(c.registry, k) ==> Balanced(Next(c, e).registry, k);
    case Act(pid, a) => if pid in c.rounds { ActKeepsInv(c, pid, a); }
    case _ =>
  }

  lemma {:induction false} RunKeepsInv(trace: seq<Event>)
    ensures Inv(Run(EMPTY, trace))
  {
    if trace == [] {
      assert forall k :: Balanced(EMPTY.registry, k);
    } else {
      RunKeepsInv(trace[..|trace| - 1]);
      StepKeepsInv(Run(EMPTY, trace[..|trace| - 1]), trace[|trace| - 1]);
    }
  }

  lemma {:induction false} RunAdvances(trace: seq<Event>, k: nat)
    requires k <= |trace|
    ensures Advances(Run(EMPTY, trace[..k]).core, Run(EMPTY, trace).core)
  {
    RunKeepsInv(trace[..k]);
    if k == |trace| {
      assert trace[..k] == trace;
      AdvancesReflexive(Run(EMPTY, trace).core);
    } else {
      var n := |trace| - 1;
      assert trace[..n][..k] == trace[..k];
      RunAdvances(trace[..n], k);
      RunKeepsInv(trace[..n]);
      StepKeepsInv(Run(EMPTY, trace[..n]), trace[n]);
      AdvancesTransitive(Run(EMPTY, trace[..k]).core, Run(EMPTY, trace[..n]).core, Run(EMPTY, trace).core);
    }
  }

  // ---------------------------------------------------------------- main results

  /** Between any two moments of a run, the epoch stored for one Workspace incarnation never falls or disappears. */
  lemma EpochNeverDecreases(trace: seq<Event>, k: nat, name: Name, uid: Uid)
    requires k <= |trace|
    requires Live(Run(EMPTY, trace[..k]).core.workspaces, name, uid) && Live(Run(EMPTY, trace).core.workspaces, name, uid)
    ensures var before := Run(EMPTY, trace[..k]).core.workspaces.objects[name].body.execution;
            var after := Run(EMPTY, trace).core.workspaces.objects[name].body.execution;
            before.Some? ==> after.Some? && after.value.epoch >= before.value.epoch
  {
    RunAdvances(trace, k);
  }

  /** A stored epoch is a non-negative value that somebody requested for this very Workspace. */
  lemma EpochWasRequested(trace: seq<Event>, name: Name)
    requires var k := Run(EMPTY, trace).core; name in k.workspaces.objects && k.workspaces.objects[name].body.execution.Some?
    ensures var k := Run(EMPTY, trace).core;
            var ws := k.workspaces.objects[name];
            ws.body.execution.value.epoch >= 0 && (ws.uid, ws.body.execution.value.epoch) in k.asked
  {
    RunKeepsInv(trace);
  }

  /** Once an epoch reconcile succeeded, the stored epoch is, for ever after, at least the request it read. */
  lemma ConfirmedEpochHolds(trace: seq<Event>, pid: nat)
    requires pid in Run(EMPTY, trace).rounds && Run(EMPTY, trace).rounds[pid].confirmed.Some?
    ensures var c := Run(EMPTY, trace); var r := c.rounds[pid];
            Floor(c.core, r.name, r.uid, r.confirmed.value)
  {
    RunKeepsInv(trace);
    assert RoundInv(Run(EMPTY, trace).core, Run(EMPTY, trace).rounds[pid]);
  }

  /** What success of an epoch write means at the moment it happens. */
  lemma EpochSuccess(trace: seq<Event>, pid: nat)
    requires var c := Run(EMPTY, trace);
             && pid in c.rounds && c.rounds[pid].phase.EpochWrite?
             && Accepted(c.core, c.rounds[pid].name, c.rounds[pid].phase.ws.version)
    ensures var c := Run(EMPTY, trace);
            var r := c.rounds[pid];
            var effect := Perform(c, r, EpochPut);
            && c.core.workspaces.objects[r.name] == r.phase.ws
            && effect.round.phase.Working? && effect.round.confirmed == Some(r.phase.ws.body.requested)
            && effect.round.execution == effect.core.workspaces.objects[r.name].body.execution
            && effect.round.version == effect.core.workspaces.objects[r.name].version
            && effect.round.execution.Some? && effect.round.execution.value.epoch >= r.phase.ws.body.requested
            && effect.round.execution.value.vmUid == r.vmUid
  {
    RunKeepsInv(trace);
    assert RoundInv(Run(EMPTY, trace).core, Run(EMPTY, trace).rounds[pid]);
  }

  /** A document is never rewritten: from one step to the next it stays as it is unless it is removed. */
  lemma DocumentNeverRewritten(c: Cluster, e: Event, identity: string)
    requires identity in c.registry.documents && e != DeleteDocument(identity)
    ensures var g := Next(c, e).registry; identity in g.documents && g.documents[identity] == c.registry.documents[identity]
  {
  }

  /** Creations and removals balance, so without a clean-up at most one document is ever created per identity. */
  lemma AtMostOneDocument(trace: seq<Event>, identity: string)
    ensures Balanced(Run(EMPTY, trace).registry, identity)
    ensures DeleteDocument(identity) !in trace ==> Count(Run(EMPTY, trace).registry.creations, identity) <= 1
  {
    RunKeepsInv(trace);
    NoRemovals(trace, identity);
  }

  lemma {:induction false} NoRemovals(trace: seq<Event>, identity: string)
    ensures DeleteDocument(identity) !in trace ==> Count(Run(EMPTY, trace).registry.deletions, identity) == 0
  {
    if trace != [] && DeleteDocument(identity) !in trace {
      var n := |trace| - 1;
      NoRemovals(trace[..n], identity);
      assert trace[n] in trace;
      OnlyCleanupRemoves(Run(EMPTY, trace[..n]), trace[n], identity);
    }
  }

  lemma OnlyCleanupRemoves(c: Cluster, e: Event, identity: string)
    requires e != DeleteDocument(identity)
    ensures Count(Next(c, e).registry.deletions, identity) == Count(c.registry.deletions, identity)
  {
  }

  /**
   At any later time, whichever Workspace copy a round holds, a document under its identity passes the
   match check: the round succeeds without writing.
   */
  lemma DocumentKeepsMatching(trace: seq<Event>, pid: nat)
    requires var c := Run(EMPTY, trace);
             && pid in c.rounds && c.rounds[pid].phase.BootReadSecret? && HasEpoch(c.rounds[pid].phase.ws)
             && IdentityOf(c.rounds[pid].phase.ws, c.rounds[pid].vmUid) in c.registry.documents
    ensures var c := Run(EMPTY, trace); var r := c.rounds[pid];
            && Matches(c.registry.documents[IdentityOf(r.phase.ws, r.vmUid)], r.name, r.phase.ws, r.vmUid, c.registry.now)
            && Perform(c, r, BootGetDocument) == Effect(c.core, c.registry, r.(phase := Working))
  {
    var c := Run(EMPTY, trace);
    RunKeepsInv(trace);
    var r := c.rounds[pid];
    assert RoundInv(c.core, r);
    var doc := c.registry.documents[IdentityOf(r.phase.ws, r.vmUid)];
    IdentityInjective(doc.workspaceUid, doc.vmUid, doc.epoch, r.phase.ws.uid, r.vmUid, r.phase.ws.body.execution.value.epoch);
  }

  /**
   A new document belongs to a Workspace copy that is not stopping or resetting, whose settled epoch is for this
   VM and covers the request, and it names exactly that Workspace, VM and epoch.
   */
  lemma NewDocumentIsCurrent(trace: seq<Event>, pid: nat, token: string, identity: string)
    requires var c := Run(EMPTY, trace);
             && pid in c.rounds && identity !in c.registry.documents
             && identity in Next(c, Act(pid, BootPut(token))).registry.documents
    ensures var c := Run(EMPTY, trace);
            var r, doc := c.rounds[pid], Next(c, Act(pid, BootPut(token))).registry.documents[identity];
            && r.phase.BootCreate? && !r.phase.ws.body.pending && r.phase.ws.uid == r.uid && EpochCurrent(r.phase.ws, r.vmUid)
            && doc.workspace == r.name && doc.workspaceUid == r.uid && doc.vmUid == r.vmUid
            && doc.epoch == r.phase.ws.body.execution.value.epoch >= r.phase.ws.body.requested
            && identity == Identity(doc.workspaceUid, doc.vmUid, doc.epoch) && doc.token == token
  {
    RunKeepsInv(trace);
    assert RoundInv(Run(EMPTY, trace).core, Run(EMPTY, trace).rounds[pid]);
  }

  predicate PastVmCheck(phase: Phase) {
    phase.EpochWrite? || phase.BootReadSecret? || phase.BootCreate?
  }

  /**
   Before a round writes an epoch or a document there was a moment, with the same Workspace copy in hand, at which the
   VM was the one observed, running, not being deleted, owned by this Workspace and, for Windows, provisioned.
   */
  lemma {:induction false} WriterSawCurrentVm(trace: seq<Event>, pid: nat) returns (k: nat)
    requires pid in Run(EMPTY, trace).rounds && PastVmCheck(Run(EMPTY, trace).rounds[pid].phase)
    ensures k < |trace|
    ensures var r, q := Run(EMPTY, trace).rounds[pid], Run(EMPTY, trace[..k]);
            && pid in q.rounds && (q.rounds[pid].phase.EpochReadVm? || q.rounds[pid].phase.BootReadVm?)
            && q.rounds[pid].phase.ws == r.phase.ws && r.name in q.vms.objects
            && var vm, ws := q.vms.objects[r.name], r.phase.ws;
            && vm.uid == r.vmUid && vm.body.running && !vm.body.deleting
            && vm.body.ownerUid == ws.uid && vm.body.ownerName == r.name
            && (ws.body.windows.Some? ==> vm.body.generation == ws.body.windows.value.provisioned != "")
  {
    var n := |trace| - 1;
    var c := Run(EMPTY, trace[..n]);
    if pid in c.rounds && PastVmCheck(c.rounds[pid].phase) {
      k := WriterSawCurrentVm(trace[..n], pid);
      assert trace[..n][..k] == trace[..k];
      SameWriter(c, trace[n], pid);
    } else {
      OnlyVmCheckLeadsOn(c, trace[n], pid);
      k := n;
    }
  }

  lemma SameWriter(c: Cluster, e: Event, pid: nat)
    requires pid in c.rounds && PastVmCheck(c.rounds[pid].phase)
    requires pid in Next(c, e).rounds && PastVmCheck(Next(c, e).rounds[pid].phase)
    ensures var r, q := Next(c, e).rounds[pid], c.rounds[pid]; r.phase.ws == q.phase.ws && r.name == q.name && r.vmUid == q.vmUid
  {
  }

  lemma OnlyVmCheckLeadsOn(c: Cluster, e: Event, pid: nat)
    requires !(pid in c.rounds && PastVmCheck(c.rounds[pid].phase))
    requires pid in Next(c, e).rounds && PastVmCheck(Next(c, e).rounds[pid].phase)
    ensures pid in c.rounds
    ensures var r, q := Next(c, e).rounds[pid], c.rounds[pid];
            && (q.phase.EpochReadVm? || q.phase.BootReadVm?) && q.phase.ws == r.phase.ws && q.name == r.name && q.vmUid == r.vmUid
            && r.name in c.vms.objects && VmCurrent(r.name, r.phase.ws, c.vms.objects[r.name], r.vmUid)
  {
  }
}
