/**
 Waiting in the claim protocol of `VmDisks`: claiming in sorted order leaves no gaps below a disk that is held, and
 without gaps nobody waits in a circle.
 */
module VmDiskOrder {
  import opened ApiServer
  import opened Text
  import opened VmDisks

  ghost predicate Held(c: Cluster, w: Name, disk: Name) {
    && w in c.workspaces.objects && disk in c.disks.objects
    && c.disks.objects[disk].body.owner == Owner(w, c.workspaces.objects[w].uid)
  }

  /** The claim loop of `w` stops at `disk`: everything sorted before it is held, `disk` is not. */
  ghost predicate Blocked(c: Cluster, w: Name, disk: Name) {
    && w in c.workspaces.objects
    && disk in c.workspaces.objects[w].body.mounts
    && !Held(c, w, disk)
    && forall m <- c.workspaces.objects[w].body.mounts :: Before(m, disk) ==> Held(c, w, m)
  }

  /** Each of `ws` is blocked on a disk its successor holds. */
  ghost predicate WaitChain(c: Cluster, ws: seq<Name>, disks: seq<Name>) {
    && |ws| == |disks| + 1 && |disks| > 0
    && forall i :: 0 <= i < |disks| ==> Blocked(c, ws[i], disks[i]) && Held(c, ws[i + 1], disks[i])
  }

  ghost predicate WaitCycle(c: Cluster, ws: seq<Name>, disks: seq<Name>) {
    WaitChain(c, ws, disks) && ws[0] == ws[|disks|]
  }

  /**
   Mount lists do not change, no disk that a live Workspace holds is deleted, and no new disk names a live Workspace
   as its owner.
   */
  ghost predicate Steady(c: Cluster, e: Event) {
    && (e.EditWorkspace? && e.name in c.workspaces.objects ==> e.mounts == c.workspaces.objects[e.name].body.mounts)
    && (e.DeleteDisk? ==> forall w :: !Held(c, w, e.name))
    && (e.CreateDisk? ==> forall w <- c.workspaces.objects :: e.disk.owner != Owner(w, c.workspaces.objects[w].uid))
  }

  ghost predicate SteadyRun(c: Cluster, trace: seq<Event>) {
    trace == [] || (SteadyRun(c, trace[..|trace| - 1]) && Steady(Run(c, trace[..|trace| - 1]), trace[|trace| - 1]))
  }

  /** The Workspace holds a disk while a mount of its own that sorts before it is not held. */
  ghost predicate Gap(c: Cluster, w: Name, missing: Name, held: Name) {
    && w in c.workspaces.objects && missing in c.workspaces.objects[w].body.mounts
    && Before(missing, held) && Held(c, w, held) && !Held(c, w, missing)
  }

  ghost predicate NoGap(c: Cluster, w: Name) {
    forall missing, held :: !Gap(c, w, missing, held)
  }

  ghost predicate SortedNames(order: seq<Name>) {
    forall i, j :: 0 <= i < j < |order| ==> order[i] == order[j] || Before(order[i], order[j])
  }

  /** The owner it is about to look for is its own Workspace, recorded without a UID: that read ends the claimer. */
  predicate Doomed(p: Claimer) {
    p.phase.ReadOwner?
    && var parts := SplitAtSlash(p.phase.disk.body.owner);
       parts.head == p.workspace && (parts.tail.None? || parts.tail.value == p.uid)
  }

  /** The claim loop of a live Workspace is under way. */
  predicate UnderWay(c: Cluster, p: Claimer) {
    Live(c.workspaces, p.workspace, p.uid) && !p.phase.Finished? && !Doomed(p) && p.next <= |p.order|
  }

  /** It is going to claim `held`, has `missing`, which sorts before it, no longer ahead of it, and does not hold it: a gap to come. */
  ghost predicate Threat(c: Cluster, p: Claimer, missing: Name, held: Name) {
    && UnderWay(c, p) && missing in c.workspaces.objects[p.workspace].body.mounts
    && !Held(c, p.workspace, missing) && missing !in p.order[p.next..]
    && held in p.order[p.next..] && Before(missing, held)
  }

  ghost predicate ClaimerOrdered(c: Cluster, p: Claimer) {
    SortedNames(p.order) && forall missing, held :: !Threat(c, p, missing, held)
  }

  ghost predicate OrderInv(c: Cluster) {
    && (forall w <- c.workspaces.objects :: NoGap(c, w))
    && (forall pid <- c.claimers :: ClaimerOrdered(c, c.claimers[pid]))
  }

  /** In sorted order nothing at or after `next` sorts before `order[next]`. */
  lemma NothingEarlierAhead(order: seq<Name>, next: nat, m: Name)
    requires SortedNames(order) && next < |order| && Before(m, order[next])
    ensures m !in order[next..]
  {
    if m in order[next..] {
      var i :| next <= i < |order| && order[i] == m;
      BeforeIrreflexive(m);
      if i > next && order[next] != m {
        BeforeTransitive(m, order[next], m);
      }
    }
  }

  /** The Workspaces of `d` are those of `c`, with the same UID and mounts, or have a new UID. */
  ghost predicate SameOrNew(c: Cluster, d: Cluster) {
    forall w <- d.workspaces.objects ::
      || (w in c.workspaces.objects && d.workspaces.objects[w].uid == c.workspaces.objects[w].uid
          && d.workspaces.objects[w].body == c.workspaces.objects[w].body)
      || d.workspaces.objects[w].uid !in c.workspaces.issued
  }

  /** A step without claimers takes no disk from a surviving Workspace and gives it none. */
  ghost predicate SameHolds(c: Cluster, d: Cluster) {
    forall w, x :: w in d.workspaces.objects ==>
      if w in c.workspaces.objects && d.workspaces.objects[w].uid == c.workspaces.objects[w].uid then Held(d, w, x) == Held(c, w, x)
      else !Held(d, w, x)
  }

  lemma SameHoldsKeepOrder(c: Cluster, d: Cluster)
    requires Inv(c) && OrderInv(c) && SameOrNew(c, d) && SameHolds(c, d)
    requires forall pid <- d.claimers :: pid in c.claimers && d.claimers[pid] == c.claimers[pid]
    ensures OrderInv(d)
  {
    forall w | w in d.workspaces.objects
      ensures NoGap(d, w)
    {
      forall missing, held
        ensures !Gap(d, w, missing, held)
      {
        if w in c.workspaces.objects {
          assert !Gap(c, w, missing, held);
        }
      }
    }
    forall pid | pid in d.claimers
      ensures ClaimerOrdered(d, d.claimers[pid])
    {
      var p := c.claimers[pid];
      assert ClaimerInv(c, p) && ClaimerOrdered(c, p);
      forall missing, held
        ensures !Threat(d, p, missing, held)
      {
        assert !Threat(c, p, missing, held);
      }
    }
  }

  /** A disk never names the UID of a Workspace that does not exist yet. */
  lemma NewWorkspaceHoldsNothing(c: Cluster, d: Cluster, w: Name, x: Name)
    requires Inv(c) && Inv(d) && d.disks == c.disks
    requires w in d.workspaces.objects && d.workspaces.objects[w].uid !in c.workspaces.issued
    ensures !Held(d, w, x)
  {
    OwnerInjective(w, d.workspaces.objects[w].uid, w, d.workspaces.objects[w].uid);
    if x in c.disks.objects {
      assert OwnerIssued(c.workspaces, c.disks.objects[x].body.owner);
    }
  }

  lemma WorkspaceEventKeepsOrder(c: Cluster, e: Event)
    requires Inv(c) && OrderInv(c) && Steady(c, e) && (e.CreateWorkspace? || e.EditWorkspace? || e.DeleteWorkspace?)
    ensures OrderInv(Next(c, e))
  {
    var d := Next(c, e);
    WorkspaceEventKeepsInv(c, e);
    assert SameOrNew(c, d);
    forall w, x | w in d.workspaces.objects && d.workspaces.objects[w].uid !in c.workspaces.issued
      ensures !Held(d, w, x)
    {
      NewWorkspaceHoldsNothing(c, d, w, x);
    }
    SameHoldsKeepOrder(c, d);
  }

  lemma DiskEventKeepsOrder(c: Cluster, e: Event)
    requires Inv(c) && OrderInv(c) && Steady(c, e) && (e.CreateDisk? || e.EditDisk? || e.DeleteDisk?)
    ensures OrderInv(Next(c, e))
  {
    var d := Next(c, e);
    forall w, x | w in c.workspaces.objects
      ensures Held(d, w, x) == Held(c, w, x)
    {
      if e.DeleteDisk? && x == e.name {
        assert !Held(c, w, e.name);
      }
    }
    SameHoldsKeepOrder(c, d);
  }

  /** A claimer's write adds one disk to what its own Workspace holds and takes nothing from another live one. */
  lemma WriteMovesOneHold(c: Cluster, p: Claimer, w: Name, x: Name)
    requires Inv(c) && ClaimerInv(c, p) && p.phase.WriteDisk? && w in c.workspaces.objects
    requires p.order[p.next] in c.disks.objects && c.disks.objects[p.order[p.next]] == p.phase.disk
    ensures Held(Step(c, p).0, w, x) <==>
              Held(c, w, x) || (w == p.workspace && c.workspaces.objects[w].uid == p.uid && x == p.order[p.next])
  {
    OwnerInjective(w, c.workspaces.objects[w].uid, p.workspace, p.uid);
  }

  lemma WriteKeepsNoGap(c: Cluster, d: Cluster, p: Claimer, w: Name)
    requires NoGap(c, w) && w in c.workspaces.objects && d.workspaces == c.workspaces
    requires ClaimerOrdered(c, p) && p.phase.WriteDisk? && p.next < |p.order|
    requires forall x :: Held(d, w, x) <==>
               Held(c, w, x) || (w == p.workspace && c.workspaces.objects[w].uid == p.uid && x == p.order[p.next])
    ensures NoGap(d, w)
  {
    forall missing, held
      ensures !Gap(d, w, missing, held)
    {
      if Gap(d, w, missing, held) {
        assert !Gap(c, w, missing, held) && !Threat(c, p, missing, held);
        assert held == p.order[p.next] == p.order[p.next..][0];
        NothingEarlierAhead(p.order, p.next, missing);
      }
    }
  }

  lemma WriteKeepsOrder(c: Cluster, p: Claimer)
    requires Inv(c) && OrderInv(c) && ClaimerInv(c, p) && ClaimerOrdered(c, p) && p.phase.WriteDisk?
    requires p.order[p.next] in c.disks.objects
    requires c.disks.objects[p.order[p.next]].version == p.phase.disk.version
    ensures OrderInv(Step(c, p).0)
    ensures ClaimerOrdered(Step(c, p).0, Step(c, p).1)
  {
    var d := Step(c, p).0;
    forall w, x | w in c.workspaces.objects
      ensures Held(d, w, x) <==>
                Held(c, w, x) || (w == p.workspace && c.workspaces.objects[w].uid == p.uid && x == p.order[p.next])
    {
      WriteMovesOneHold(c, p, w, x);
    }
    forall w | w in d.workspaces.objects
      ensures NoGap(d, w)
    {
      WriteKeepsNoGap(c, d, p, w);
    }
    forall pid | pid in d.claimers
      ensures ClaimerOrdered(d, d.claimers[pid])
    {
      HoldsGrow(c, d, c.claimers[pid]);
    }
    HoldsGrow(c, d, p);
    PassedIsHeld(d, p);
  }

  lemma HoldsGrow(c: Cluster, d: Cluster, p: Claimer)
    requires ClaimerOrdered(c, p) && d.workspaces == c.workspaces
    requires forall w, x :: w in c.workspaces.objects && Held(c, w, x) ==> Held(d, w, x)
    ensures ClaimerOrdered(d, p)
  {
    forall missing, held
      ensures !Threat(d, p, missing, held)
    {
      assert !Threat(c, p, missing, held);
    }
  }

  /** Going on from a disk that is held leaves no threat behind. */
  lemma PassedIsHeld(c: Cluster, p: Claimer)
    requires ClaimerOrdered(c, p) && !p.phase.Finished? && !Doomed(p) && p.next < |p.order|
    requires Live(c.workspaces, p.workspace, p.uid) ==> Held(c, p.workspace, p.order[p.next])
    ensures ClaimerOrdered(c, Advance(p))
  {
    assert p.order[p.next..] == [p.order[p.next]] + p.order[p.next + 1..];
    forall missing, held
      ensures !Threat(c, Advance(p), missing, held)
    {
      assert !Threat(c, p, missing, held);
    }
  }

  /** Another phase of the same claim is no new threat. */
  lemma SamePlace(c: Cluster, p: Claimer, q: Claimer)
    requires ClaimerOrdered(c, p) && q == p.(phase := q.phase)
    requires UnderWay(c, q) ==> UnderWay(c, p)
    ensures ClaimerOrdered(c, q)
  {
    forall missing, held
      ensures !Threat(c, q, missing, held)
    {
      assert !Threat(c, p, missing, held);
    }
  }

  /** Every call but an accepted write leaves the stores alone, and what the claimer has passed is held. */
  lemma ReadKeepsOrder(c: Cluster, p: Claimer)
    requires ClaimerInv(c, p) && ClaimerOrdered(c, p)
    requires p.phase.WriteDisk? && p.order[p.next] in c.disks.objects ==>
               c.disks.objects[p.order[p.next]].version != p.phase.disk.version
    ensures var (c', p') := Step(c, p);
            && c'.disks == c.disks && c'.workspaces == c.workspaces && c'.claimers == c.claimers
            && ClaimerOrdered(c, p')
  {
    var (_, p') := Step(c, p);
    if p'.next > p.next {
      PassedIsHeld(c, p);
    } else {
      assert Doomed(p) && Live(c.workspaces, p.workspace, p.uid) ==> p'.phase.Finished?;
      SamePlace(c, p, p');
    }
  }

  lemma CallKeepsOrder(c: Cluster, pid: nat)
    requires Inv(c) && OrderInv(c) && pid in c.claimers
    ensures OrderInv(Next(c, Call(pid)))
  {
    var p := c.claimers[pid];
    assert ClaimerInv(c, p) && ClaimerOrdered(c, p);
    var (c', p') := Step(c, p);
    if p.phase.WriteDisk? && p.order[p.next] in c.disks.objects
       && c.disks.objects[p.order[p.next]].version == p.phase.disk.version {
      WriteKeepsOrder(c, p);
    } else {
      ReadKeepsOrder(c, p);
      SameStoresSameOrder(c, c');
    }
    ReplaceOrdered(c', pid, p');
  }

  lemma SameStoresSameOrder(c: Cluster, d: Cluster)
    requires d.disks == c.disks && d.workspaces == c.workspaces
    ensures forall w :: w in c.workspaces.objects && NoGap(c, w) ==> NoGap(d, w)
    ensures forall p :: ClaimerOrdered(c, p) ==> ClaimerOrdered(d, p)
  {
    assert forall w, x :: Held(d, w, x) <==> Held(c, w, x);
    assert forall w, x, y :: Gap(d, w, x, y) <==> Gap(c, w, x, y);
    assert forall p, x, y :: Threat(d, p, x, y) <==> Threat(c, p, x, y);
  }

  /** A new claim loop has all mounts ahead of it. */
  lemma BeginIsOrdered(c: Cluster, pid: nat, name: Name, order: seq<Name>)
    requires Next(c, Begin(pid, name, order)) != c
    ensures ClaimerOrdered(c, Next(c, Begin(pid, name, order)).claimers[pid])
  {
    var p := Next(c, Begin(pid, name, order)).claimers[pid];
    var mounts := c.workspaces.objects[name].body.mounts;
    assert p.order[0..] == order;
    forall missing | missing in mounts
      ensures missing in order
    {
      assert missing in multiset(mounts) && missing in multiset(order);
    }
  }

  lemma StepKeepsOrder(c: Cluster, e: Event)
    requires Inv(c) && OrderInv(c) && Steady(c, e)
    ensures OrderInv(Next(c, e))
  {
    match e
    case Call(pid) => if pid in c.claimers { CallKeepsOrder(c, pid); }
    case Begin(pid, name, order) =>
      if Next(c, e) != c {
        BeginIsOrdered(c, pid, name, order);
        ReplaceOrdered(c, pid, Next(c, e).claimers[pid]);
      }
    case CreateWorkspace(_, _, _) => WorkspaceEventKeepsOrder(c, e);
    case EditWorkspace(_, _) => WorkspaceEventKeepsOrder(c, e);
    case DeleteWorkspace(_) => WorkspaceEventKeepsOrder(c, e);
    case CreateDisk(_, _, _) => DiskEventKeepsOrder(c, e);
    case EditDisk(_, _, _) => DiskEventKeepsOrder(c, e);
    case DeleteDisk(_) => DiskEventKeepsOrder(c, e);
    case _ =>
      assert SameHolds(c, Next(c, e));
      SameHoldsKeepOrder(c, Next(c, e));
  }

  lemma ReplaceOrdered(c: Cluster, pid: nat, p: Claimer)
    requires ClaimerOrdered(c, p)
    requires forall w <- c.workspaces.objects :: NoGap(c, w)
    requires forall q <- c.claimers :: q != pid ==> ClaimerOrdered(c, c.claimers[q])
    ensures OrderInv(c.(claimers := c.claimers[pid := p]))
  {
    var d := c.(claimers := c.claimers[pid := p]);
    assert forall w, x :: Held(d, w, x) <==> Held(c, w, x);
    assert forall w, x, y :: Gap(d, w, x, y) <==> Gap(c, w, x, y);
    assert forall q, x, y :: Threat(d, q, x, y) <==> Threat(c, q, x, y);
    assert forall q <- d.claimers :: ClaimerOrdered(c, d.claimers[q]) ==> ClaimerOrdered(d, d.claimers[q]);
  }

  lemma {:induction false} SteadyRunKeepsOrder(c: Cluster, trace: seq<Event>)
    requires Inv(c) && OrderInv(c) && SteadyRun(c, trace)
    ensures Inv(Run(c, trace)) && OrderInv(Run(c, trace))
  {
    if trace != [] {
      var n := |trace| - 1;
      SteadyRunKeepsOrder(c, trace[..n]);
      StepKeepsInv(Run(c, trace[..n]), trace[n]);
      StepKeepsOrder(Run(c, trace[..n]), trace[n]);
    }
  }

  /** Along gap-free waiting the disks never decrease. */
  lemma {:induction false} WaitingAscends(c: Cluster, ws: seq<Name>, disks: seq<Name>, i: nat)
    requires WaitChain(c, ws, disks) && i < |disks|
    requires forall w <- c.workspaces.objects :: NoGap(c, w)
    ensures disks[0] == disks[i] || Before(disks[0], disks[i])
  {
    if i > 0 {
      WaitingAscends(c, ws, disks, i - 1);
      BeforeTotal(disks[i - 1], disks[i]);
      assert NoGap(c, ws[i]) && !Gap(c, ws[i], disks[i], disks[i - 1]);
      if disks[0] != disks[i - 1] {
        BeforeTransitive(disks[0], disks[i - 1], disks[i]);
      }
    }
  }

  /** The Workspace a chain ends in is not waiting for the disk the chain started with. */
  lemma ChainDoesNotClose(c: Cluster, ws: seq<Name>, disks: seq<Name>)
    requires WaitChain(c, ws, disks)
    requires forall w <- c.workspaces.objects :: NoGap(c, w)
    ensures !Blocked(c, ws[|disks|], disks[0])
  {
    var n := |disks| - 1;
    WaitingAscends(c, ws, disks, n);
    assert NoGap(c, ws[n + 1]) && !Gap(c, ws[n + 1], disks[0], disks[n]);
  }

  /** Sorted claiming never leads to circular waiting. */
  lemma NoWaitCycle(trace: seq<Event>, ws: seq<Name>, disks: seq<Name>)
    requires SteadyRun(EMPTY, trace)
    ensures !WaitCycle(Run(EMPTY, trace), ws, disks)
  {
    SteadyRunKeepsOrder(EMPTY, trace);
    if WaitChain(Run(EMPTY, trace), ws, disks) {
      ChainDoesNotClose(Run(EMPTY, trace), ws, disks);
    }
  }

  lemma ClaimerStopsBlocked(c: Cluster, p: Claimer)
    requires ClaimerOrdered(c, p) && UnderWay(c, p)
    requires p.next < |p.order| && !Held(c, p.workspace, p.order[p.next]) && p.order[p.next] in c.workspaces.objects[p.workspace].body.mounts
    ensures Blocked(c, p.workspace, p.order[p.next])
  {
    forall m | m in c.workspaces.objects[p.workspace].body.mounts && Before(m, p.order[p.next])
      ensures Held(c, p.workspace, m)
    {
      NothingEarlierAhead(p.order, p.next, m);
      assert p.order[p.next..][0] == p.order[p.next] && !Threat(c, p, m, p.order[p.next]);
    }
  }

  /** The mounts of a live Workspace are those its claimers are working through. */
  ghost predicate OrderIsMounts(c: Cluster) {
    forall pid <- c.claimers :: Live(c.workspaces, c.claimers[pid].workspace, c.claimers[pid].uid) ==>
      multiset(c.claimers[pid].order) == multiset(c.workspaces.objects[c.claimers[pid].workspace].body.mounts)
  }

  lemma SteadyWorkspaces(c: Cluster, e: Event)
    requires Steady(c, e)
    ensures SameOrNew(c, Next(c, e))
  {
  }

  lemma ClaimersGoOn(c: Cluster, e: Event, pid: nat)
    requires pid in Next(c, e).claimers
    ensures var q := Next(c, e).claimers[pid];
            if pid in c.claimers then
              var p := c.claimers[pid];
              q.workspace == p.workspace && q.uid == p.uid && q.order == p.order
            else
              && Next(c, e).workspaces == c.workspaces && Live(c.workspaces, q.workspace, q.uid)
              && multiset(q.order) == multiset(c.workspaces.objects[q.workspace].body.mounts)
  {
  }

  lemma StepKeepsMounts(c: Cluster, e: Event)
    requires Inv(c) && OrderIsMounts(c) && Steady(c, e)
    ensures OrderIsMounts(Next(c, e))
  {
    SteadyWorkspaces(c, e);
    forall pid | pid in Next(c, e).claimers
      ensures var d := Next(c, e); var q := d.claimers[pid];
              Live(d.workspaces, q.workspace, q.uid) ==> multiset(q.order) == multiset(d.workspaces.objects[q.workspace].body.mounts)
    {
      ClaimersGoOn(c, e, pid);
      if pid in c.claimers {
        assert ClaimerInv(c, c.claimers[pid]);
      }
    }
  }

  lemma {:induction false} SteadyRunKeepsMounts(trace: seq<Event>)
    requires SteadyRun(EMPTY, trace)
    ensures OrderIsMounts(Run(EMPTY, trace))
  {
    if trace != [] {
      var n := |trace| - 1;
      SteadyRunKeepsMounts(trace[..n]);
      RunKeepsInv(trace[..n]);
      StepKeepsMounts(Run(EMPTY, trace[..n]), trace[n]);
    }
  }

  lemma LiveOwnerRefuses(c: Cluster, p: Claimer, owner: Name)
    requires Inv(c) && ClaimerInv(c, p) && p.phase.ReadOwner? && Live(c.workspaces, p.workspace, p.uid)
    requires Held(c, owner, p.order[p.next]) && owner != p.workspace && c.disks.objects[p.order[p.next]] == p.phase.disk
    ensures !Doomed(p) && !Held(c, p.workspace, p.order[p.next]) && Step(c, p) == (c, Fail(p))
  {
    OwnerInjective(owner, c.workspaces.objects[owner].uid, p.workspace, p.uid);
  }

  /** The claimer is about to look at the owner of a disk that another live Workspace holds. */
  ghost predicate MeetsOwner(c: Cluster, pid: nat, owner: Name) {
    && pid in c.claimers && c.claimers[pid].phase.ReadOwner?
    && var p := c.claimers[pid];
       && p.next < |p.order| && Live(c.workspaces, p.workspace, p.uid)
       && Held(c, owner, p.order[p.next]) && owner != p.workspace
       && c.disks.objects[p.order[p.next]] == p.phase.disk
  }

  /** Its next call ends it, with its Workspace blocked on that disk. */
  ghost predicate StopsBlocked(c: Cluster, pid: nat) {
    && pid in c.claimers
    && var p := c.claimers[pid];
       p.next < |p.order| && Step(c, p) == (c, Fail(p)) && Blocked(c, p.workspace, p.order[p.next])
  }

  lemma RefusedIn(c: Cluster, pid: nat, owner: Name)
    requires Inv(c) && OrderInv(c) && OrderIsMounts(c) && MeetsOwner(c, pid, owner)
    ensures StopsBlocked(c, pid)
  {
    var p := c.claimers[pid];
    assert ClaimerInv(c, p) && ClaimerOrdered(c, p);
    assert p.order[p.next] in multiset(p.order);
    LiveOwnerRefuses(c, p, owner);
    ClaimerStopsBlocked(c, p);
  }

  /** A claimer that gives up on an owned disk really is blocked in the sense of `Blocked`, by a live holder. */
  lemma RefusedClaimerIsBlocked(trace: seq<Event>, pid: nat, owner: Name)
    requires SteadyRun(EMPTY, trace) && MeetsOwner(Run(EMPTY, trace), pid, owner)
    ensures StopsBlocked(Run(EMPTY, trace), pid)
  {
    SteadyRunKeepsOrder(EMPTY, trace);
    SteadyRunKeepsMounts(trace);
    RefusedIn(Run(EMPTY, trace), pid, owner);
  }
}
