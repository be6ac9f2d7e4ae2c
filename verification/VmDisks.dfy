/**
 Ownership of VM data disks (internal/controller/vm_disks.go).

 Any number of claimers, each running the claim loop for one Workspace, interleave with the
 creation, editing and deletion of Workspaces, VMIs and disks. One `Call` event is one API
 call of a claimer together with the local decisions that follow it; a claimer may stop for
 good between any two calls (`Crash`: a crash, an API error or exhausted retries).
 */
module VmDisks {
  import opened ApiServer
  import opened Text

  type Name = string

  datatype Workspace = Workspace(mounts: seq<Name>)

  /** `platform`: labelled vm-disk with a blank source. `owner` is the claim annotation, "" if absent. */
  datatype Disk = Disk(platform: bool, terminating: bool, owner: string)

  datatype Phase =
    | ReadDisk
    | ReadOwner(disk: Object<Disk>)
    | ReadVmi(disk: Object<Disk>)
    | WriteDisk(disk: Object<Disk>)
    | Finished(claimed: bool)

  /** A run of the claim loop: `order` is the sorted mount list, `next` the disk being claimed. */
  datatype Claimer = Claimer(workspace: Name, uid: Uid, order: seq<Name>, next: nat, phase: Phase)

  /** History: the claim loop of this Workspace returned success for this disk object. */
  datatype Claim = Claim(disk: Name, diskUid: Uid, workspace: Name, uid: Uid)

  datatype Cluster = Cluster(
    workspaces: Store<Name, Workspace>,
    vmis: set<Name>,
    disks: Store<Name, Disk>,
    claimers: map<nat, Claimer>,
    claims: set<Claim>)

  datatype Event =
    | CreateWorkspace(name: Name, uid: Uid, mounts: seq<Name>)
    | EditWorkspace(name: Name, mounts: seq<Name>)
    | DeleteWorkspace(name: Name)
    | StartVmi(name: Name)
    | StopVmi(name: Name)
    | CreateDisk(name: Name, uid: Uid, disk: Disk)
    | EditDisk(name: Name, platform: bool, terminating: bool)
    | DeleteDisk(name: Name)
    | Begin(pid: nat, name: Name, order: seq<Name>)
    | Call(pid: nat)
    | Crash(pid: nat)

  const EMPTY := Cluster(Store(map[], 0, {}), {}, Store(map[], 0, {}), map[], {})

  function Owner(workspace: Name, uid: Uid): string {
    workspace + "/" + uid
  }

  lemma OwnerInjective(n1: Name, u1: Uid, n2: Name, u2: Uid)
    requires '/' !in n1 && '/' !in n2
    ensures Owner(n1, u1) == Owner(n2, u2) ==> n1 == n2 && u1 == u2
    ensures SplitAtSlash(Owner(n1, u1)) == Split(n1, Some(u1))
    ensures Owner(n1, u1) != ""
  {
    SplitJoined(n1, u1);
    SplitJoined(n2, u2);
  }

  /** `sort.Strings` of the mount names, by what it promises. */
  predicate SortedMounts(mounts: seq<Name>, order: seq<Name>) {
    && multiset(order) == multiset(mounts)
    && forall i, j :: 0 <= i < j < |order| ==> order[i] == order[j] || Before(order[i], order[j])
  }

  // ---------------------------------------------------------------- steps

  /** The claimer finished with `order[next]`. */
  function Advance(p: Claimer): Claimer
    requires p.next < |p.order|
  {
    p.(next := p.next + 1, phase := if p.next + 1 == |p.order| then Finished(true) else ReadDisk)
  }

  function Fail(p: Claimer): Claimer {
    p.(phase := Finished(false))
  }

  /** The disk was read: reject it, accept an existing claim, write, or look at its owner. */
  function AfterReadDisk(p: Claimer, disk: Object<Disk>): Claimer
    requires p.next < |p.order|
  {
    if !disk.body.platform || disk.body.terminating then Fail(p)
    else if disk.body.owner == Owner(p.workspace, p.uid) then Advance(p)
    else if disk.body.owner == "" then p.(phase := WriteDisk(disk))
    else p.(phase := ReadOwner(disk))
  }

  /** An owner blocks while its Workspace exists with the recorded UID (or with any, if none is recorded). */
  predicate OwnerBlocks(workspaces: Store<Name, Workspace>, owner: string) {
    var parts := SplitAtSlash(owner);
    parts.head in workspaces.objects
    && (parts.tail.None? || workspaces.objects[parts.head].uid == parts.tail.value)
  }

  function Step(c: Cluster, p: Claimer): (Cluster, Claimer) {
    if p.phase.Finished? || p.next >= |p.order| then
      (c, p)
    else
      var name := p.order[p.next];
      match p.phase
      case ReadDisk =>
        if name !in c.disks.objects then (c, Fail(p))
        else
          var disk := c.disks.objects[name];
          var p' := AfterReadDisk(p, disk);
          (if p'.next > p.next then c.(claims := c.claims + {Claim(name, disk.uid, p.workspace, p.uid)}) else c, p')
      case ReadOwner(disk) =>
        (c, if OwnerBlocks(c.workspaces, disk.body.owner) then Fail(p) else p.(phase := ReadVmi(disk)))
      case ReadVmi(disk) =>
        (c, if SplitAtSlash(disk.body.owner).head in c.vmis then Fail(p) else p.(phase := WriteDisk(disk)))
      case WriteDisk(disk) =>
        var reply := Update(c.disks, name, disk.version, disk.body.(owner := Owner(p.workspace, p.uid)));
        match reply.outcome {
          case Done =>
            (c.(disks := reply.store, claims := c.claims + {Claim(name, disk.uid, p.workspace, p.uid)}), Advance(p))
          case Conflict => (c, p.(phase := ReadDisk))
          case _ => (c, Fail(p))
        }
      case Finished(_) => (c, p)
  }

  /** The owner annotation of a new disk can only name a Workspace that has existed. */
  predicate OwnerIssued(workspaces: Store<Name, Workspace>, owner: string) {
    var tail := SplitAtSlash(owner).tail;
    tail.Some? ==> tail.value in workspaces.issued
  }

  /** Events whose guard does not hold leave the cluster as it is. */
  function Next(c: Cluster, e: Event): Cluster {
    match e
    case CreateWorkspace(name, uid, mounts) =>
      if uid in c.workspaces.issued || '/' in name then c
      else c.(workspaces := Create(c.workspaces, name, uid, Workspace(mounts)).store)
    case EditWorkspace(name, mounts) =>
      if name !in c.workspaces.objects then c
      else c.(workspaces := Update(c.workspaces, name, c.workspaces.objects[name].version, Workspace(mounts)).store)
    case DeleteWorkspace(name) => c.(workspaces := Delete(c.workspaces, name, None).store)
    case StartVmi(name) => c.(vmis := c.vmis + {name})
    case StopVmi(name) => c.(vmis := c.vmis - {name})
    case CreateDisk(name, uid, disk) =>
      if uid in c.disks.issued || !OwnerIssued(c.workspaces, disk.owner) then c
      else c.(disks := Create(c.disks, name, uid, disk).store)
    case EditDisk(name, platform, terminating) =>
      if name !in c.disks.objects then c
      else
        var disk := c.disks.objects[name];
        c.(disks := Update(c.disks, name, disk.version, Disk(platform, terminating, disk.body.owner)).store)
    case DeleteDisk(name) => c.(disks := Delete(c.disks, name, None).store)
    case Begin(pid, name, order) =>
      if pid in c.claimers || name !in c.workspaces.objects
         || !SortedMounts(c.workspaces.objects[name].body.mounts, order) then c
      else
        var phase := if order == [] then Finished(true) else ReadDisk;
        c.(claimers := c.claimers[pid := Claimer(name, c.workspaces.objects[name].uid, order, 0, phase)])
    case Call(pid) =>
      if pid !in c.claimers then c
      else
        var (c', p') := Step(c, c.claimers[pid]);
        c'.(claimers := c'.claimers[pid := p'])
    case Crash(pid) => c.(claimers := c.claimers - {pid})
  }

  function Run(c: Cluster, trace: seq<Event>): Cluster {
    if trace == [] then c else Next(Run(c, trace[..|trace| - 1]), trace[|trace| - 1])
  }

  // ---------------------------------------------------------------- invariant

  /** The recorded owner does not name a Workspace incarnation that still exists. */
  ghost predicate OwnerGone(workspaces: Store<Name, Workspace>, owner: string) {
    var parts := SplitAtSlash(owner);
    parts.tail.Some? ==> Gone(workspaces, parts.head, parts.tail.value)
  }

  ghost predicate ClaimerInv(c: Cluster, p: Claimer) {
    && '/' !in p.workspace
    && p.uid in c.workspaces.issued
    && (p.phase.Finished? || p.next < |p.order|)
    && (p.phase.ReadOwner? || p.phase.ReadVmi? || p.phase.WriteDisk? ==>
          && Snapshot(c.disks, p.order[p.next], p.phase.disk)
          && p.phase.disk.body.platform && !p.phase.disk.body.terminating
          && OwnerIssued(c.workspaces, p.phase.disk.body.owner))
    && (p.phase.ReadVmi? || p.phase.WriteDisk? ==> OwnerGone(c.workspaces, p.phase.disk.body.owner))
  }

  ghost predicate ClaimLive(c: Cluster, k: Claim) {
    k in c.claims && Live(c.workspaces, k.workspace, k.uid)
  }

  ghost predicate ClaimInv(c: Cluster, k: Claim) {
    && '/' !in k.workspace
    && k.uid in c.workspaces.issued
    && k.diskUid in c.disks.issued
    && (ClaimLive(c, k) && Live(c.disks, k.disk, k.diskUid) ==>
          c.disks.objects[k.disk].body.owner == Owner(k.workspace, k.uid))
  }

  ghost predicate StoresInv(c: Cluster) {
    && Valid(c.workspaces)
    && Valid(c.disks)
    && (forall n <- c.workspaces.objects :: '/' !in n)
    && (forall n <- c.disks.objects :: OwnerIssued(c.workspaces, c.disks.objects[n].body.owner))
  }

  /** At most one live Workspace has completed a claim on a disk object. */
  ghost predicate Exclusive(c: Cluster) {
    forall a, b :: ClaimLive(c, a) && ClaimLive(c, b) && a.disk == b.disk && a.diskUid == b.diskUid ==> a == b
  }

  ghost predicate Inv(c: Cluster) {
    && StoresInv(c)
    && (forall pid <- c.claimers :: ClaimerInv(c, c.claimers[pid]))
    && (forall k <- c.claims :: ClaimInv(c, k))
    && Exclusive(c)
  }

  /** A step that lets both stores evolve, keeps the claims and never rewrites an owner keeps the invariant. */
  lemma EnvironmentKeepsInv(c: Cluster, d: Cluster)
    requires Inv(c) && StoresInv(d)
    requires Evolves(c.workspaces, d.workspaces) && Evolves(c.disks, d.disks)
    requires d.claims == c.claims
    requires forall pid <- d.claimers :: pid in c.claimers && d.claimers[pid] == c.claimers[pid]
    requires forall n <- d.disks.objects :: n in c.disks.objects && d.disks.objects[n].uid in c.disks.issued ==>
               d.disks.objects[n].body.owner == c.disks.objects[n].body.owner
    ensures Inv(d)
  {
    forall pid | pid in d.claimers
      ensures ClaimerInv(d, d.claimers[pid])
    {
      var p := d.claimers[pid];
      assert ClaimerInv(c, p);
      if p.phase.ReadOwner? || p.phase.ReadVmi? || p.phase.WriteDisk? {
        SnapshotEvolves(c.disks, d.disks, p.order[p.next], p.phase.disk);
        if OwnerGone(c.workspaces, p.phase.disk.body.owner) && SplitAtSlash(p.phase.disk.body.owner).tail.Some? {
          var parts := SplitAtSlash(p.phase.disk.body.owner);
          GoneEvolves(c.workspaces, d.workspaces, parts.head, parts.tail.value);
        }
      }
    }
    LivenessShrinks(c, d);
  }

  /** Claims name issued UIDs, so no evolution brings a dead claim back. */
  lemma LivenessShrinks(c: Cluster, d: Cluster)
    requires Inv(c) && Evolves(c.workspaces, d.workspaces) && Evolves(c.disks, d.disks) && d.claims == c.claims
    ensures forall k :: ClaimLive(d, k) ==> ClaimLive(c, k)
    ensures forall k <- d.claims :: Live(d.disks, k.disk, k.diskUid) ==> Live(c.disks, k.disk, k.diskUid)
  {
    forall k | k in d.claims
      ensures ClaimLive(d, k) ==> ClaimLive(c, k)
      ensures Live(d.disks, k.disk, k.diskUid) ==> Live(c.disks, k.disk, k.diskUid)
    {
      assert ClaimInv(c, k);
    }
  }

  /** Recording a claim by the owner written on the disk keeps claims exclusive. */
  lemma RecordClaim(c: Cluster, k: Claim)
    requires Inv(c)
    requires '/' !in k.workspace && k.uid in c.workspaces.issued
    requires Live(c.disks, k.disk, k.diskUid)
    requires c.disks.objects[k.disk].body.owner == Owner(k.workspace, k.uid)
    ensures Inv(c.(claims := c.claims + {k}))
  {
    var d := c.(claims := c.claims + {k});
    forall a | a in d.claims
      ensures ClaimInv(d, a)
      ensures ClaimLive(d, a) && a.disk == k.disk && a.diskUid == k.diskUid ==> a == k
    {
      if a in c.claims {
        assert ClaimInv(c, a);
        OwnerInjective(a.workspace, a.uid, k.workspace, k.uid);
      }
    }
    forall pid | pid in d.claimers
      ensures ClaimerInv(d, d.claimers[pid])
    {
      assert ClaimerInv(c, c.claimers[pid]);
    }
    assert forall a :: ClaimLive(d, a) && a != k ==> ClaimLive(c, a);
  }

  lemma ReplaceClaimer(c: Cluster, pid: nat, p: Claimer)
    requires Inv(c) && ClaimerInv(c, p)
    ensures Inv(c.(claimers := c.claimers[pid := p]))
  {
    var d := c.(claimers := c.claimers[pid := p]);
    forall q | q in d.claimers
      ensures ClaimerInv(d, d.claimers[q])
    {
      assert q != pid ==> ClaimerInv(c, c.claimers[q]);
    }
    assert forall k <- d.claims :: ClaimInv(c, k) ==> ClaimInv(d, k);
    assert forall k :: ClaimLive(d, k) <==> ClaimLive(c, k);
  }

  /** The one write of the protocol: it may only displace an owner that is gone. */
  lemma WriteKeepsInv(c: Cluster, p: Claimer)
    requires Inv(c) && ClaimerInv(c, p) && p.phase.WriteDisk?
    requires p.order[p.next] in c.disks.objects
    requires c.disks.objects[p.order[p.next]].version == p.phase.disk.version
    ensures Inv(Step(c, p).0)
    ensures ClaimerInv(Step(c, p).0, Step(c, p).1)
  {
    var name, disk := p.order[p.next], p.phase.disk;
    assert c.disks.objects[name] == disk;
    var body := disk.body.(owner := Owner(p.workspace, p.uid));
    var d := c.(disks := Update(c.disks, name, disk.version, body).store);
    assert Evolves(c.disks, d.disks);
    OwnerInjective(p.workspace, p.uid, p.workspace, p.uid);
    forall pid | pid in d.claimers
      ensures ClaimerInv(d, d.claimers[pid])
    {
      var q := d.claimers[pid];
      assert ClaimerInv(c, q);
      if q.phase.ReadOwner? || q.phase.ReadVmi? || q.phase.WriteDisk? {
        SnapshotEvolves(c.disks, d.disks, q.order[q.next], q.phase.disk);
      }
    }
    forall k | k in d.claims
      ensures ClaimInv(d, k)
    {
      assert ClaimInv(c, k);
      OwnerInjective(k.workspace, k.uid, k.workspace, k.uid);
    }
    assert forall k :: ClaimLive(d, k) <==> ClaimLive(c, k);
    assert Inv(d);
    RecordClaim(d, Claim(name, disk.uid, p.workspace, p.uid));
  }

  lemma ReadDiskKeepsInv(c: Cluster, p: Claimer)
    requires Inv(c) && ClaimerInv(c, p) && p.phase.ReadDisk?
    ensures Inv(Step(c, p).0) && ClaimerInv(Step(c, p).0, Step(c, p).1)
  {
    var name := p.order[p.next];
    if name in c.disks.objects && Step(c, p).1.next > p.next {
      RecordClaim(c, Claim(name, c.disks.objects[name].uid, p.workspace, p.uid));
    }
  }

  /** Every other call leaves the cluster as it is. */
  lemma ReadKeepsInv(c: Cluster, p: Claimer)
    requires Inv(c) && ClaimerInv(c, p) && !p.phase.ReadDisk?
    requires p.phase.WriteDisk? && p.order[p.next] in c.disks.objects ==>
               c.disks.objects[p.order[p.next]].version != p.phase.disk.version
    ensures Step(c, p).0 == c && ClaimerInv(c, Step(c, p).1)
  {
  }

  lemma CallKeepsInv(c: Cluster, pid: nat)
    requires Inv(c) && pid in c.claimers
    ensures Inv(Next(c, Call(pid)))
  {
    var p := c.claimers[pid];
    assert ClaimerInv(c, p);
    var (c', p') := Step(c, p);
    if p.phase.ReadDisk? {
      ReadDiskKeepsInv(c, p);
    } else if p.phase.WriteDisk? && p.order[p.next] in c.disks.objects
              && c.disks.objects[p.order[p.next]].version == p.phase.disk.version {
      WriteKeepsInv(c, p);
    } else {
      ReadKeepsInv(c, p);
    }
    ReplaceClaimer(c', pid, p');
  }

  lemma WorkspaceEventKeepsInv(c: Cluster, e: Event)
    requires Inv(c) && (e.CreateWorkspace? || e.EditWorkspace? || e.DeleteWorkspace?)
    ensures Inv(Next(c, e))
  {
    EvolvesReflexive(c.workspaces);
    EvolvesReflexive(c.disks);
    var d := Next(c, e);
    assert Evolves(c.workspaces, d.workspaces) && d.disks == c.disks && d.claims == c.claims && d.claimers == c.claimers;
    EnvironmentKeepsInv(c, d);
  }

  /** What others do to the disks: an owner annotation stays, and names only UIDs that were issued. */
  lemma DisksEvolve(c: Cluster, e: Event)
    requires StoresInv(c) && (e.CreateDisk? || e.EditDisk? || e.DeleteDisk?)
    ensures var d := Next(c, e);
            && StoresInv(d) && Evolves(c.disks, d.disks)
            && forall n <- d.disks.objects :: n in c.disks.objects && d.disks.objects[n].uid in c.disks.issued ==>
                 d.disks.objects[n].body.owner == c.disks.objects[n].body.owner
  {
    EvolvesReflexive(c.disks);
  }

  lemma DiskEventKeepsInv(c: Cluster, e: Event)
    requires Inv(c) && (e.CreateDisk? || e.EditDisk? || e.DeleteDisk?)
    ensures Inv(Next(c, e))
  {
    EvolvesReflexive(c.workspaces);
    EvolvesReflexive(c.disks);
    var d := Next(c, e);
    assert d == c.(disks := d.disks);
    DisksEvolve(c, e);
    EnvironmentKeepsInv(c, d);
  }

  lemma OtherEventKeepsInv(c: Cluster, e: Event)
    requires Inv(c) && (e.StartVmi? || e.StopVmi? || e.Crash?)
    ensures Inv(Next(c, e))
  {
    EvolvesReflexive(c.workspaces);
    EvolvesReflexive(c.disks);
    EnvironmentKeepsInv(c, Next(c, e));
  }

  lemma StepKeepsInv(c: Cluster, e: Event)
    requires Inv(c)
    ensures Inv(Next(c, e))
  {
    match e
    case Call(pid) => if pid in c.claimers { CallKeepsInv(c, pid); }
    case Begin(pid, _, _) => if Next(c, e) != c { ReplaceClaimer(c, pid, Next(c, e).claimers[pid]); }
    case CreateWorkspace(_, _, _) => WorkspaceEventKeepsInv(c, e);
    case EditWorkspace(_, _) => WorkspaceEventKeepsInv(c, e);
    case DeleteWorkspace(_) => WorkspaceEventKeepsInv(c, e);
    case CreateDisk(_, _, _) => DiskEventKeepsInv(c, e);
    case EditDisk(_, _, _) => DiskEventKeepsInv(c, e);
    case DeleteDisk(_) => DiskEventKeepsInv(c, e);
    case _ => OtherEventKeepsInv(c, e);
  }

  lemma {:induction false} RunKeepsInv(trace: seq<Event>)
    ensures Inv(Run(EMPTY, trace))
  {
    if trace != [] {
      RunKeepsInv(trace[..|trace| - 1]);
      StepKeepsInv(Run(EMPTY, trace[..|trace| - 1]), trace[|trace| - 1]);
    }
  }

  // ---------------------------------------------------------------- main results

  /** Mutual exclusion in every interleaving. */
  lemma DiskMutualExclusion(trace: seq<Event>, a: Claim, b: Claim)
    requires ClaimLive(Run(EMPTY, trace), a) && ClaimLive(Run(EMPTY, trace), b)
    requires a.disk == b.disk && a.diskUid == b.diskUid
    ensures a == b
    ensures Live(Run(EMPTY, trace).disks, a.disk, a.diskUid) ==>
              Run(EMPTY, trace).disks.objects[a.disk].body.owner == Owner(a.workspace, a.uid)
  {
    RunKeepsInv(trace);
    assert ClaimInv(Run(EMPTY, trace), a);
  }

  /** An owner annotation changes only by a claimer's write, and only when the old owner no longer exists. */
  lemma OwnershipMovesOnlyFromTheDead(trace: seq<Event>, e: Event, name: Name)
    requires var c, d := Run(EMPTY, trace), Next(Run(EMPTY, trace), e);
             && name in c.disks.objects && name in d.disks.objects
             && c.disks.objects[name].uid == d.disks.objects[name].uid
             && c.disks.objects[name].body.owner != d.disks.objects[name].body.owner
    ensures var c, d := Run(EMPTY, trace), Next(Run(EMPTY, trace), e);
            var former := SplitAtSlash(c.disks.objects[name].body.owner);
            && e.Call? && e.pid in c.claimers && c.claimers[e.pid].phase.WriteDisk?
            && c.claimers[e.pid].phase.disk == c.disks.objects[name]
            && c.disks.objects[name].body.platform && !c.disks.objects[name].body.terminating
            && d.disks.objects[name].body.owner == Owner(c.claimers[e.pid].workspace, c.claimers[e.pid].uid)
            && (former.tail.Some? ==> !Live(c.workspaces, former.head, former.tail.value))
  {
    var c := Run(EMPTY, trace);
    RunKeepsInv(trace);
    if e.Call? && e.pid in c.claimers {
      assert ClaimerInv(c, c.claimers[e.pid]);
    }
  }

  /** Before a claimer displaces an owner it has seen, at some earlier moment, that the owner's VMI was absent. */
  lemma {:induction false} TakeoverSawNoVmi(trace: seq<Event>, pid: nat) returns (k: nat)
    requires var c := Run(EMPTY, trace);
             pid in c.claimers && c.claimers[pid].phase.WriteDisk? && c.claimers[pid].phase.disk.body.owner != ""
    ensures k < |trace|
    ensures var p, q := Run(EMPTY, trace).claimers[pid], Run(EMPTY, trace[..k]);
            && SplitAtSlash(p.phase.disk.body.owner).head !in q.vmis
            && pid in q.claimers && q.claimers[pid].phase == ReadVmi(p.phase.disk)
            && OwnerGone(q.workspaces, p.phase.disk.body.owner)
  {
    var n := |trace| - 1;
    var c := Run(EMPTY, trace[..n]);
    if trace[n] == Call(pid) && c.claimers[pid].phase.ReadVmi? {
      k := n;
      RunKeepsInv(trace[..n]);
      assert ClaimerInv(c, c.claimers[pid]);
    } else {
      k := TakeoverSawNoVmi(trace[..n], pid);
      assert trace[..n][..k] == trace[..k];
    }
  }

  /** Earlier still, it has seen that no Workspace fits the recorded owner: none of that name, or one with another recorded UID. */
  lemma {:induction false} TakeoverSawNoOwner(trace: seq<Event>, pid: nat) returns (k: nat)
    requires var c := Run(EMPTY, trace);
             && pid in c.claimers && (c.claimers[pid].phase.ReadVmi? || c.claimers[pid].phase.WriteDisk?)
             && c.claimers[pid].phase.disk.body.owner != ""
    ensures k < |trace|
    ensures var p, q := Run(EMPTY, trace).claimers[pid], Run(EMPTY, trace[..k]);
            var parts := SplitAtSlash(p.phase.disk.body.owner);
            && pid in q.claimers && q.claimers[pid].phase == ReadOwner(p.phase.disk)
            && (parts.head in q.workspaces.objects ==> parts.tail.Some? && q.workspaces.objects[parts.head].uid != parts.tail.value)
  {
    var n := |trace| - 1;
    var c := Run(EMPTY, trace[..n]);
    if trace[n] == Call(pid) && c.claimers[pid].phase.ReadOwner? {
      k := n;
    } else {
      k := TakeoverSawNoOwner(trace[..n], pid);
      assert trace[..n][..k] == trace[..k];
    }
  }
}
