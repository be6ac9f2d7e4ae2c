/**
 The claim loops themselves (claimVMDisks and claimVMDataVolume of internal/controller/vm_disks.go),
 written as the controller runs them, against a cluster that other actors change before every one of
 their API calls. The methods read and write the stores themselves; after each call `Note` demands that the
 stores are exactly as the machine of `VmDisks` says and advances only the claimers and the history. So every
 execution is a run of that machine, and everything proved there about all runs holds for it.
 */
module VmDiskClaims {
  import opened ApiServer
  import opened Text
  import opened VmDisks

  const RETRIES := 5

  // ---------------------------------------------------------------- sort.Strings

  ghost predicate Sorted(xs: seq<Name>) {
    forall i, j :: 0 <= i < j < |xs| ==> xs[i] == xs[j] || Before(xs[i], xs[j])
  }

  function Insert(xs: seq<Name>, x: Name): seq<Name> {
    if xs == [] then [x]
    else if x == xs[0] || Before(x, xs[0]) then [x] + xs
    else [xs[0]] + Insert(xs[1..], x)
  }

  lemma {:induction false} InsertSorts(xs: seq<Name>, x: Name)
    requires Sorted(xs)
    ensures Sorted(Insert(xs, x)) && multiset(Insert(xs, x)) == multiset(xs) + multiset{x}
  {
    if xs == [] {
    } else if x == xs[0] || Before(x, xs[0]) {
      forall j | 0 <= j < |xs|
        ensures x == xs[j] || Before(x, xs[j])
      {
        if x != xs[0] && j > 0 && xs[0] != xs[j] {
          BeforeTransitive(x, xs[0], xs[j]);
        }
      }
    } else {
      BeforeTotal(x, xs[0]);
      InsertSorts(xs[1..], x);
      var rest := Insert(xs[1..], x);
      assert xs == [xs[0]] + xs[1..];
      forall j | 0 <= j < |rest|
        ensures xs[0] == rest[j] || Before(xs[0], rest[j])
      {
        assert rest[j] in multiset(rest);
        assert rest[j] == x || rest[j] in xs[1..];
      }
    }
  }

  method SortNames(names: seq<Name>) returns (order: seq<Name>)
    ensures SortedMounts(names, order)
  {
    order := [];
    for i := 0 to |names|
      invariant Sorted(order) && multiset(order) == multiset(names[..i])
    {
      InsertSorts(order, names[i]);
      assert names[..i + 1] == names[..i] + [names[i]];
      order := Insert(order, names[i]);
    }
    assert names[..|names|] == names;
  }

  // ---------------------------------------------------------------- the controller among others

  /** Events that are this claimer's own. */
  predicate OwnEvent(e: Event, pid: nat) {
    (e.Begin? || e.Call? || e.Crash?) && e.pid == pid
  }

  /** The claim loop has succeeded for this disk and this Workspace incarnation. */
  ghost predicate HasClaim(claims: set<Claim>, disk: Name, workspace: Name, uid: Uid) {
    exists k <- claims :: k.disk == disk && k.workspace == workspace && k.uid == uid
  }

  class ControlPlane {
    var cluster: Cluster
    /** What the other actors do before each of the controller's calls. */
    var schedule: seq<seq<Event>>
    ghost var trace: seq<Event>

    ghost predicate Valid()
      reads this
    {
      cluster == Run(EMPTY, trace)
    }

    /** The claim machine, too, has ended this claim. */
    ghost predicate Refused(pid: nat, before: Claimer)
      reads this
    {
      pid in cluster.claimers && cluster.claimers[pid] == before.(phase := Finished(false))
    }

    /** Something another actor does. */
    method Happen(e: Event)
      requires Valid()
      modifies `cluster, `trace
      ensures Valid() && trace == old(trace) + [e] && cluster == Next(old(cluster), e)
    {
      assert (trace + [e])[..|trace|] == trace;
      cluster := Next(cluster, e);
      trace := trace + [e];
    }

    /** A call of this claimer has been made: its effect on the stores is the machine's. */
    method Note(before: Cluster, e: Event)
      requires before == Run(EMPTY, trace)
      requires cluster.workspaces == Next(before, e).workspaces && cluster.vmis == Next(before, e).vmis && cluster.disks == Next(before, e).disks
      modifies `cluster, `trace
      ensures Valid() && trace == old(trace) + [e] && cluster == Next(before, e)
    {
      assert (trace + [e])[..|trace|] == trace;
      var next := Next(before, e);
      cluster := cluster.(claimers := next.claimers, claims := next.claims);
      trace := trace + [e];
    }

    /** The others' turn: anything but this claimer's own events. */
    method Others(pid: nat)
      requires Valid()
      modifies this
      ensures Valid() && old(trace) <= trace && old(cluster.claims) <= cluster.claims
      ensures pid in cluster.claimers <==> pid in old(cluster.claimers)
      ensures pid in cluster.claimers ==> cluster.claimers[pid] == old(cluster.claimers[pid])
    {
      if schedule == [] {
        return;
      }
      var batch := schedule[0];
      schedule := schedule[1..];
      for i := 0 to |batch|
        invariant Valid() && old(trace) <= trace && old(cluster.claims) <= cluster.claims
        invariant pid in cluster.claimers <==> pid in old(cluster.claimers)
        invariant pid in cluster.claimers ==> cluster.claimers[pid] == old(cluster.claimers[pid])
      {
        if !OwnEvent(batch[i], pid) {
          Happen(batch[i]);
        }
      }
    }

    /** claimVMDataVolume: read the disk, look for its owner, write, and start over when somebody else wrote first. */
    method ClaimVMDataVolume(pid: nat, workspace: Name, uid: Uid, name: Name) returns (ok: bool)
      requires Valid() && pid in cluster.claimers
      requires var p := cluster.claimers[pid];
               && p.workspace == workspace && p.uid == uid && p.phase.ReadDisk?
               && p.next < |p.order| && p.order[p.next] == name
      modifies this
      ensures Valid() && old(trace) <= trace && old(cluster.claims) <= cluster.claims
      ensures ok ==> pid in cluster.claimers && cluster.claimers[pid] == Advance(old(cluster.claimers[pid]))
      ensures ok ==> HasClaim(cluster.claims, name, workspace, uid)
      ensures !ok ==> Refused(pid, old(cluster.claimers[pid])) || (pid in cluster.claimers && cluster.claimers[pid] == old(cluster.claimers[pid]))
    {
      ghost var start := cluster.claimers[pid];
      for attempt := 0 to RETRIES
        invariant Valid() && old(trace) <= trace && old(cluster.claims) <= cluster.claims
        invariant pid in cluster.claimers && cluster.claimers[pid] == start
      {
        var outcome := TryClaim(pid, workspace, uid, name);
        if outcome != Conflict {
          return outcome == Done;
        }
      }
      return false;
    }

    /** The function that is retried; every failure that is not a conflict ends the claim. */
    method TryClaim(pid: nat, workspace: Name, uid: Uid, name: Name) returns (outcome: Outcome)
      requires Valid() && pid in cluster.claimers
      requires var p := cluster.claimers[pid];
               && p.workspace == workspace && p.uid == uid && p.phase.ReadDisk?
               && p.next < |p.order| && p.order[p.next] == name
      modifies this
      ensures Valid() && old(trace) <= trace && old(cluster.claims) <= cluster.claims
      ensures outcome == Done ==> pid in cluster.claimers && cluster.claimers[pid] == Advance(old(cluster.claimers[pid]))
                                  && HasClaim(cluster.claims, name, workspace, uid)
      ensures outcome == Conflict ==> pid in cluster.claimers && cluster.claimers[pid] == old(cluster.claimers[pid])
      ensures outcome != Done && outcome != Conflict ==> Refused(pid, old(cluster.claimers[pid]))
    {
      Others(pid);
      if name !in cluster.disks.objects {
        Note(cluster, Call(pid));
        return NotFound;
      }
      var disk := cluster.disks.objects[name];
      Note(cluster, Call(pid));
      if !disk.body.platform || disk.body.terminating {
        return NotFound;
      }
      var owner := workspace + "/" + uid;
      if disk.body.owner == owner {
        assert Claim(name, disk.uid, workspace, uid) in cluster.claims;
        return Done;
      }
      if disk.body.owner != "" {
        var gone := OwnerIsGone(pid, disk);
        if !gone {
          return NotFound;
        }
      }
      outcome := WriteOwner(pid, name, disk, owner);
    }

    /** The write itself, over the version that was read. */
    method WriteOwner(pid: nat, name: Name, disk: Object<Disk>, owner: string) returns (outcome: Outcome)
      requires Valid() && pid in cluster.claimers
      requires var p := cluster.claimers[pid];
               && p.phase == WriteDisk(disk) && p.next < |p.order| && p.order[p.next] == name && owner == Owner(p.workspace, p.uid)
      modifies this
      ensures Valid() && old(trace) <= trace && old(cluster.claims) <= cluster.claims && pid in cluster.claimers
      ensures outcome == Done ==> cluster.claimers[pid] == Advance(old(cluster.claimers[pid]))
                                  && HasClaim(cluster.claims, name, cluster.claimers[pid].workspace, cluster.claimers[pid].uid)
      ensures outcome == Conflict ==> cluster.claimers[pid] == old(cluster.claimers[pid]).(phase := ReadDisk)
      ensures outcome != Done && outcome != Conflict ==> Refused(pid, old(cluster.claimers[pid]))
    {
      Others(pid);
      var before := cluster;
      var reply := Update(cluster.disks, name, disk.version, disk.body.(owner := owner));
      cluster := cluster.(disks := reply.store);
      outcome := reply.outcome;
      ghost var p := before.claimers[pid];
      Note(before, Call(pid));
      assert outcome == Done ==> Claim(name, disk.uid, p.workspace, p.uid) in cluster.claims;
    }

    /** The two reads that may release a disk owned by somebody else. */
    method OwnerIsGone(pid: nat, disk: Object<Disk>) returns (gone: bool)
      requires Valid() && pid in cluster.claimers
      requires cluster.claimers[pid].phase == ReadOwner(disk) && cluster.claimers[pid].next < |cluster.claimers[pid].order|
      modifies this
      ensures Valid() && old(trace) <= trace && old(cluster.claims) <= cluster.claims
      ensures gone ==> pid in cluster.claimers && cluster.claimers[pid] == old(cluster.claimers[pid]).(phase := WriteDisk(disk))
      ensures !gone ==> Refused(pid, old(cluster.claimers[pid]))
    {
      var parts := SplitAtSlash(disk.body.owner);
      Others(pid);
      var found := parts.head in cluster.workspaces.objects;
      var blocked := found && (parts.tail.None? || cluster.workspaces.objects[parts.head].uid == parts.tail.value);
      Note(cluster, Call(pid));
      if blocked {
        return false;
      }
      Others(pid);
      var used := parts.head in cluster.vmis;
      Note(cluster, Call(pid));
      return !used;
    }

    /** claimVMDisks: every mount of the Workspace, in sorted order. */
    method ClaimVMDisks(pid: nat, workspace: Name) returns (ok: bool, uid: Uid, mounts: seq<Name>)
      requires Valid() && pid !in cluster.claimers
      modifies this
      ensures Valid() && old(trace) <= trace
      ensures ok ==> forall name <- mounts :: HasClaim(cluster.claims, name, workspace, uid)
      ensures !ok && workspace in old(cluster.workspaces.objects) ==>
                pid in cluster.claimers && (cluster.claimers[pid].phase == Finished(false) || cluster.claimers[pid].phase.ReadDisk?)
      ensures ok ==> workspace in old(cluster.workspaces.objects) && old(cluster.workspaces.objects)[workspace].uid == uid
                     && old(cluster.workspaces.objects)[workspace].body.mounts == mounts
    {
      ok, uid, mounts := false, "", [];
      if workspace !in cluster.workspaces.objects {
        return;
      }
      uid, mounts := cluster.workspaces.objects[workspace].uid, cluster.workspaces.objects[workspace].body.mounts;
      var order := SortNames(mounts);
      Note(cluster, Begin(pid, workspace, order));
      for i := 0 to |order|
        invariant Valid() && old(trace) <= trace && pid in cluster.claimers
        invariant cluster.claimers[pid] == Claimer(workspace, uid, order, i, if i == |order| then Finished(true) else ReadDisk)
        invariant forall k :: 0 <= k < i ==> HasClaim(cluster.claims, order[k], workspace, uid)
      {
        ghost var before := cluster.claims;
        var claimed := ClaimVMDataVolume(pid, workspace, uid, order[i]);
        if !claimed {
          return;
        }
        forall k | 0 <= k < i
          ensures HasClaim(cluster.claims, order[k], workspace, uid)
        {
          assert HasClaim(before, order[k], workspace, uid);
        }
      }
      forall name | name in mounts
        ensures HasClaim(cluster.claims, name, workspace, uid)
      {
        assert name in multiset(mounts) && name in multiset(order);
        var k :| 0 <= k < |order| && order[k] == name;
      }
      ok := true;
    }
  }
}
