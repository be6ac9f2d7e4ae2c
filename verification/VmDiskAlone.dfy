/**
 What one claimer of `VmDisks` achieves while nobody else acts: exactly when each disk, and the whole list, is claimed.
 The conditions are on the stored objects themselves.
 */
module VmDiskAlone {
  import opened ApiServer
  import opened Text
  import opened VmDisks

  function Alone(c: Cluster, pid: nat, calls: nat): Cluster
    decreases calls
  {
    if calls == 0 then c else Alone(Next(c, Call(pid)), pid, calls - 1)
  }

  lemma {:induction false} AloneAdds(c: Cluster, pid: nat, a: nat, b: nat)
    ensures Alone(c, pid, a + b) == Alone(Alone(c, pid, a), pid, b)
    decreases a
  {
    if a > 0 {
      AloneAdds(Next(c, Call(pid)), pid, a - 1, b);
    }
  }

  /** The annotation names a Workspace that exists: with its UID, or, recorded without one, by its name. */
  ghost predicate OwnedByLive(c: Cluster, owner: string) {
    exists n <- c.workspaces.objects :: owner == n || owner == n + "/" + c.workspaces.objects[n].uid
  }

  /** The Workspace the annotation names, existing or not, has a VMI. */
  ghost predicate UsedByVmi(c: Cluster, owner: string) {
    exists n <- c.vmis :: '/' !in n && (owner == n || n + "/" <= owner)
  }

  lemma BlocksExactly(c: Cluster, owner: string)
    requires Inv(c)
    ensures OwnerBlocks(c.workspaces, owner) <==> OwnedByLive(c, owner)
  {
    SplitIsJoined(owner);
    forall n | n in c.workspaces.objects
      ensures owner == n ==> SplitAtSlash(owner) == Split(n, None)
      ensures owner == n + "/" + c.workspaces.objects[n].uid ==> SplitAtSlash(owner) == Split(n, Some(c.workspaces.objects[n].uid))
    {
      SplitSlashFree(n);
      SplitJoined(n, c.workspaces.objects[n].uid);
    }
  }

  lemma VmiExactly(c: Cluster, owner: string)
    ensures SplitAtSlash(owner).head in c.vmis <==> UsedByVmi(c, owner)
  {
    SplitIsJoined(owner);
    HeadIs(owner, SplitAtSlash(owner).head);
    forall n | n in c.vmis && '/' !in n
      ensures SplitAtSlash(owner).head == n <==> owner == n || n + "/" <= owner
    {
      HeadIs(owner, n);
    }
  }

  /** A claim loop starts with the Workspace that is stored, at its first mount in sorted order; without mounts it is done. */
  lemma BeginExactly(c: Cluster, pid: nat, name: Name, order: seq<Name>)
    requires pid !in c.claimers && name in c.workspaces.objects
    requires multiset(order) == multiset(c.workspaces.objects[name].body.mounts)
    requires forall i, j :: 0 <= i < j < |order| ==> order[i] == order[j] || Before(order[i], order[j])
    ensures var p := Claimer(name, c.workspaces.objects[name].uid, order, 0, if |order| == 0 then Finished(true) else ReadDisk);
            Next(c, Begin(pid, name, order)) == c.(claimers := c.claimers[pid := p])
  {
  }

  // ---------------------------------------------------------------- single calls, in any reachable state

  /** Looking for the owner refuses the disk if and only if the annotation names a Workspace that exists. */
  lemma OwnerReadExactly(trace: seq<Event>, pid: nat)
    requires pid in Run(EMPTY, trace).claimers && Run(EMPTY, trace).claimers[pid].phase.ReadOwner?
    ensures var c := Run(EMPTY, trace);
            var p, q := c.claimers[pid], Next(c, Call(pid)).claimers[pid];
            q == p.(phase := if OwnedByLive(c, p.phase.disk.body.owner) then Finished(false) else ReadVmi(p.phase.disk))
  {
    RunKeepsInv(trace);
    var c := Run(EMPTY, trace);
    assert ClaimerInv(c, c.claimers[pid]);
    BlocksExactly(c, c.claimers[pid].phase.disk.body.owner);
  }

  /** Looking for the VMI refuses the disk if and only if there is one. */
  lemma VmiReadExactly(trace: seq<Event>, pid: nat)
    requires pid in Run(EMPTY, trace).claimers && Run(EMPTY, trace).claimers[pid].phase.ReadVmi?
    ensures var c := Run(EMPTY, trace);
            var p, q := c.claimers[pid], Next(c, Call(pid)).claimers[pid];
            q == p.(phase := if UsedByVmi(c, p.phase.disk.body.owner) then Finished(false) else WriteDisk(p.phase.disk))
  {
    RunKeepsInv(trace);
    var c := Run(EMPTY, trace);
    assert ClaimerInv(c, c.claimers[pid]);
    VmiExactly(c, c.claimers[pid].phase.disk.body.owner);
  }

  /** The claimer is done with its disk and goes on to the next, or is done. */
  ghost predicate WentOn(p: Claimer, q: Claimer) {
    q == p.(next := p.next + 1, phase := if p.next + 1 == |p.order| then Finished(true) else ReadDisk)
  }

  /** Only the owner annotation of one disk changed, to this claimer's Workspace, under a new version. */
  ghost predicate OnlyOwnerWritten(c: Cluster, d: Cluster, name: Name, p: Claimer)
    requires name in c.disks.objects
  {
    var before := c.disks.objects[name];
    d.disks.objects == c.disks.objects[name := Object(before.uid, c.disks.clock, before.body.(owner := p.workspace + "/" + p.uid))]
  }

  /** The write is made exactly over the version that was read; a newer one sends the claimer back to read it, a missing disk ends it. */
  lemma WriteExactly(trace: seq<Event>, pid: nat)
    requires pid in Run(EMPTY, trace).claimers && Run(EMPTY, trace).claimers[pid].phase.WriteDisk?
    ensures var c, d := Run(EMPTY, trace), Next(Run(EMPTY, trace), Call(pid));
            var p, q := c.claimers[pid], d.claimers[pid];
            && p.next < |p.order|
            && var name := p.order[p.next];
            if name !in c.disks.objects then q == p.(phase := Finished(false)) && d.disks == c.disks
            else if c.disks.objects[name].version != p.phase.disk.version then q == p.(phase := ReadDisk) && d.disks == c.disks
            else WentOn(p, q) && OnlyOwnerWritten(c, d, name, p)
  {
    RunKeepsInv(trace);
    assert ClaimerInv(Run(EMPTY, trace), Run(EMPTY, trace).claimers[pid]);
  }

  // ---------------------------------------------------------------- one disk

  /** A usable platform disk that is this Workspace's, nobody's, or of an owner that is gone and has no VMI. */
  ghost predicate Claimable(c: Cluster, w: Name, uid: Uid, name: Name) {
    && name in c.disks.objects
    && var body := c.disks.objects[name].body;
       && body.platform && !body.terminating
       && (body.owner == w + "/" + uid || body.owner == "" || (!OwnedByLive(c, body.owner) && !UsedByVmi(c, body.owner)))
  }

  /** What the claimer leaves behind for this disk. */
  ghost predicate Settled(c: Cluster, d: Cluster, pid: nat)
    requires pid in c.claimers && c.claimers[pid].next < |c.claimers[pid].order|
  {
    var p := c.claimers[pid];
    var name := p.order[p.next];
    && d.workspaces == c.workspaces && d.vmis == c.vmis && pid in d.claimers
    && if Claimable(c, p.workspace, p.uid, name) then
         && WentOn(p, d.claimers[pid])
         && (if c.disks.objects[name].body.owner == p.workspace + "/" + p.uid then d.disks == c.disks else OnlyOwnerWritten(c, d, name, p))
         && Claim(name, c.disks.objects[name].uid, p.workspace, p.uid) in d.claims
       else d.claimers[pid] == p.(phase := Finished(false)) && d.disks == c.disks
  }

  /** The part of a claim after the disk was found to have another owner. */
  lemma OrphanAlone(c: Cluster, pid: nat) returns (calls: nat)
    requires Inv(c) && pid in c.claimers && c.claimers[pid].phase.ReadDisk?
    requires var p := c.claimers[pid];
             p.next < |p.order| && p.order[p.next] in c.disks.objects
             && var body := c.disks.objects[p.order[p.next]].body;
             body.platform && !body.terminating && body.owner != Owner(p.workspace, p.uid) && body.owner != ""
    ensures 1 <= calls <= 4 && Settled(c, Alone(c, pid, calls), pid)
  {
    var p := c.claimers[pid];
    var disk := c.disks.objects[p.order[p.next]];
    BlocksExactly(c, disk.body.owner);
    VmiExactly(c, disk.body.owner);
    var c1 := c.(claimers := c.claimers[pid := p.(phase := ReadOwner(disk))]);
    assert Next(c, Call(pid)) == c1;
    var c2 := Next(c1, Call(pid));
    AloneAdds(c, pid, 1, 1);
    if OwnedByLive(c, disk.body.owner) {
      calls := 2;
    } else {
      assert c2 == c.(claimers := c.claimers[pid := p.(phase := ReadVmi(disk))]);
      var c3 := Next(c2, Call(pid));
      AloneAdds(c, pid, 2, 1);
      calls := 3;
      if !UsedByVmi(c, disk.body.owner) {
        assert c3 == c.(claimers := c.claimers[pid := p.(phase := WriteDisk(disk))]);
        AloneAdds(c, pid, 3, 1);
        calls := 4;
      }
    }
  }

  lemma ClaimInState(c: Cluster, pid: nat) returns (calls: nat)
    requires Inv(c) && pid in c.claimers && c.claimers[pid].phase.ReadDisk? && c.claimers[pid].next < |c.claimers[pid].order|
    ensures 1 <= calls <= 4 && Settled(c, Alone(c, pid, calls), pid)
  {
    var p := c.claimers[pid];
    var name := p.order[p.next];
    calls := 1;
    assert Alone(c, pid, 1) == Next(c, Call(pid));
    if name in c.disks.objects {
      var body := c.disks.objects[name].body;
      if body.platform && !body.terminating && body.owner != Owner(p.workspace, p.uid) {
        if body.owner == "" {
          var c1 := c.(claimers := c.claimers[pid := p.(phase := WriteDisk(c.disks.objects[name]))]);
          assert Next(c, Call(pid)) == c1;
          AloneAdds(c, pid, 1, 1);
          calls := 2;
        } else {
          calls := OrphanAlone(c, pid);
        }
      }
    }
  }

  /**
   Exactly when a disk is claimed: from every reachable state, a claimer left alone goes on past its disk, with its
   Workspace written as the owner, if and only if the disk is claimable; otherwise it gives up and nothing is written.
   */
  lemma ClaimExactly(trace: seq<Event>, pid: nat) returns (calls: nat)
    requires var c := Run(EMPTY, trace);
             pid in c.claimers && c.claimers[pid].phase.ReadDisk? && c.claimers[pid].next < |c.claimers[pid].order|
    ensures 1 <= calls <= 4 && Settled(Run(EMPTY, trace), Alone(Run(EMPTY, trace), pid, calls), pid)
  {
    RunKeepsInv(trace);
    calls := ClaimInState(Run(EMPTY, trace), pid);
  }

  // ---------------------------------------------------------------- the whole list

  lemma {:induction false} AloneKeepsInv(c: Cluster, pid: nat, calls: nat)
    requires Inv(c)
    ensures Inv(Alone(c, pid, calls))
    decreases calls
  {
    if calls > 0 {
      StepKeepsInv(c, Call(pid));
      AloneKeepsInv(Next(c, Call(pid)), pid, calls - 1);
    }
  }

  /** Claiming one disk does not change which of the others can be claimed. */
  lemma SettledKeepsClaimable(c: Cluster, d: Cluster, pid: nat, name: Name)
    requires Inv(c) && pid in c.claimers && c.claimers[pid].next < |c.claimers[pid].order|
    requires var p := c.claimers[pid]; Settled(c, d, pid) && Claimable(c, p.workspace, p.uid, p.order[p.next])
    ensures var p := c.claimers[pid]; Claimable(d, p.workspace, p.uid, name) <==> Claimable(c, p.workspace, p.uid, name)
  {
    assert forall owner :: OwnedByLive(d, owner) == OwnedByLive(c, owner);
    assert forall owner :: UsedByVmi(d, owner) == UsedByVmi(c, owner);
  }

  /** Every mount the claimer still has ahead of it can be claimed. */
  ghost predicate AllClaimable(c: Cluster, p: Claimer)
    requires p.next <= |p.order|
  {
    forall name <- p.order[p.next..] :: Claimable(c, p.workspace, p.uid, name)
  }

  lemma AllAfterNext(c: Cluster, d: Cluster, pid: nat)
    requires Inv(c) && pid in c.claimers && c.claimers[pid].next < |c.claimers[pid].order| && Settled(c, d, pid)
    ensures var p := c.claimers[pid];
            AllClaimable(c, p) <==> Claimable(c, p.workspace, p.uid, p.order[p.next]) && AllClaimable(d, p.(next := p.next + 1))
  {
    var p := c.claimers[pid];
    assert p.order[p.next..] == [p.order[p.next]] + p.order[p.next + 1..];
    if Claimable(c, p.workspace, p.uid, p.order[p.next]) {
      forall x
        ensures Claimable(d, p.workspace, p.uid, x) <==> Claimable(c, p.workspace, p.uid, x)
      {
        SettledKeepsClaimable(c, d, pid, x);
      }
    }
  }

  /** The claimer, left alone, comes to this state. */
  ghost predicate Reaches(c: Cluster, pid: nat, d: Cluster) {
    exists calls: nat :: Alone(c, pid, calls) == d
  }

  lemma ReachesOn(c: Cluster, pid: nat, d: Cluster, e: Cluster)
    requires Reaches(c, pid, d) && Reaches(d, pid, e)
    ensures Reaches(c, pid, e)
  {
    var a: nat :| Alone(c, pid, a) == d;
    var b: nat :| Alone(d, pid, b) == e;
    AloneAdds(c, pid, a, b);
  }

  lemma NextDisk(c: Cluster, pid: nat) returns (d: Cluster)
    requires Inv(c) && pid in c.claimers && c.claimers[pid].phase.ReadDisk? && c.claimers[pid].next < |c.claimers[pid].order|
    ensures Reaches(c, pid, d) && Inv(d) && Settled(c, d, pid)
  {
    var calls := ClaimInState(c, pid);
    d := Alone(c, pid, calls);
    AloneKeepsInv(c, pid, calls);
  }

  lemma AllInState(c: Cluster, pid: nat) returns (d: Cluster)
    requires Inv(c) && pid in c.claimers && c.claimers[pid].phase.ReadDisk? && c.claimers[pid].next < |c.claimers[pid].order|
    ensures Reaches(c, pid, d) && pid in d.claimers && d.claimers[pid].phase.Finished?
    ensures d.claimers[pid].phase.claimed <==> AllClaimable(c, c.claimers[pid])
    decreases |c.claimers[pid].order| - c.claimers[pid].next
  {
    var p := c.claimers[pid];
    d := NextDisk(c, pid);
    AllAfterNext(c, d, pid);
    if Claimable(c, p.workspace, p.uid, p.order[p.next]) {
      if p.next + 1 < |p.order| {
        var mid := d;
        d := AllInState(mid, pid);
        ReachesOn(c, pid, mid, d);
      } else {
        assert p.order[p.next + 1..] == [];
      }
    }
  }

  /** Exactly when the whole claim loop succeeds, left alone: when every mount still ahead of it is claimable. */
  lemma ClaimAllExactly(trace: seq<Event>, pid: nat) returns (d: Cluster)
    requires var c := Run(EMPTY, trace);
             pid in c.claimers && c.claimers[pid].phase.ReadDisk? && c.claimers[pid].next < |c.claimers[pid].order|
    ensures Reaches(Run(EMPTY, trace), pid, d) && pid in d.claimers && d.claimers[pid].phase.Finished?
    ensures d.claimers[pid].phase.claimed <==> AllClaimable(Run(EMPTY, trace), Run(EMPTY, trace).claimers[pid])
  {
    RunKeepsInv(trace);
    d := AllInState(Run(EMPTY, trace), pid);
  }
}
