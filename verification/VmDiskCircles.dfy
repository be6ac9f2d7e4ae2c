/**
 When waiting in a circle can come about in the claim protocol of `VmDisks`: exactly from a gap, or from a claim loop
 under way that is going to leave one.
 */
module VmDiskCircles {
  import opened ApiServer
  import opened Text
  import opened VmDisks
  import opened VmDiskOrder

  // ---------------------------------------------------------------- a gap lets somebody wait in a circle

  lemma LongerThanAll(names: set<string>) returns (n: nat)
    ensures forall x <- names :: |x| < n
    decreases |names|
  {
    n := 0;
    if names != {} {
      var x :| x in names;
      n := LongerThanAll(names - {x});
      n := if n > |x| then n else |x| + 1;
    }
  }

  /** There is always another name. */
  lemma FreshName(taken: set<string>) returns (name: string)
    ensures name !in taken && '/' !in name
  {
    var n := LongerThanAll(taken);
    name := seq(n, _ => 'v');
  }

  lemma FreshPid(taken: set<nat>) returns (pid: nat)
    ensures pid !in taken
  {
    pid := Above(taken);
  }

  lemma Above(taken: set<nat>) returns (n: nat)
    ensures forall x <- taken :: x < n
    decreases |taken|
  {
    n := 0;
    if taken != {} {
      var x :| x in taken;
      var rest := taken - {x};
      n := Above(rest);
      assert forall y <- taken :: y == x || y in rest;
      n := if n > x then n else x + 1;
    }
  }

  /** One more steady event. */
  lemma Extend(c: Cluster, trace: seq<Event>, e: Event) returns (longer: seq<Event>)
    requires SteadyRun(c, trace) && Steady(Run(c, trace), e)
    ensures longer == trace + [e] && SteadyRun(c, longer) && Run(c, longer) == Next(Run(c, trace), e)
  {
    longer := trace + [e];
    assert longer[..|trace|] == trace;
  }

  /** The first mount the Workspace does not hold. */
  lemma FirstMissing(c: Cluster, w: Name, mounts: seq<Name>, missing: Name) returns (first: Name)
    requires missing in mounts && !Held(c, w, missing)
    ensures first in mounts && !Held(c, w, first) && (first == missing || Before(first, missing))
    ensures forall m <- mounts :: Before(m, first) ==> Held(c, w, m)
    decreases |mounts|
  {
    if earlier :| earlier in mounts && Before(earlier, missing) && !Held(c, w, earlier) {
      var i :| 0 <= i < |mounts| && mounts[i] == missing;
      BeforeIrreflexive(missing);
      var others := WithoutAll(mounts, missing);
      first := FirstMissing(c, w, others, earlier);
      if first != earlier {
        BeforeTransitive(first, earlier, missing);
      }
      forall m | m in mounts && Before(m, first)
        ensures Held(c, w, m)
      {
        if m == missing {
          BeforeTransitive(missing, first, missing);
        }
      }
    } else {
      first := missing;
    }
  }

  lemma WithoutAll(mounts: seq<Name>, gone: Name) returns (others: seq<Name>)
    requires gone in mounts
    ensures |others| < |mounts| && forall m :: m in others <==> m in mounts && m != gone
  {
    others := Without(mounts, gone);
    WithoutShrinks(mounts, gone);
  }

  function Without(mounts: seq<Name>, gone: Name): seq<Name> {
    if mounts == [] then [] else (if mounts[0] == gone then [] else [mounts[0]]) + Without(mounts[1..], gone)
  }

  lemma {:induction false} WithoutShrinks(mounts: seq<Name>, gone: Name)
    ensures |Without(mounts, gone)| <= |mounts| && (gone in mounts ==> |Without(mounts, gone)| < |mounts|)
    ensures forall m :: m in Without(mounts, gone) <==> m in mounts && m != gone
  {
    if mounts != [] {
      WithoutShrinks(mounts[1..], gone);
      assert mounts == [mounts[0]] + mounts[1..];
    }
  }

  /** The situation to close: `w` holds `held`, and `missing` is the first mount it does not hold. */
  ghost predicate Stalled(c: Cluster, w: Name, missing: Name, held: Name) {
    && Inv(c) && Gap(c, w, missing, held)
    && forall m <- c.workspaces.objects[w].body.mounts :: Before(m, missing) ==> Held(c, w, m)
  }

  /** Nothing changed for the Workspace: the same object, holding the same disks. */
  ghost predicate Untouched(c: Cluster, d: Cluster, w: Name) {
    && w in c.workspaces.objects && w in d.workspaces.objects && d.workspaces.objects[w] == c.workspaces.objects[w]
    && forall x :: Held(d, w, x) == Held(c, w, x)
  }

  lemma StalledStays(c: Cluster, d: Cluster, w: Name, missing: Name, held: Name)
    requires Stalled(c, w, missing, held) && Inv(d) && Untouched(c, d, w)
    ensures Stalled(d, w, missing, held)
  {
  }

  /** Steady events that leave a disk without a live holder: its holder, if any, is deleted. */
  lemma Release(c: Cluster, w: Name, name: Name) returns (trace: seq<Event>)
    requires Inv(c) && w in c.workspaces.objects && !Held(c, w, name)
    ensures SteadyRun(c, trace)
    ensures var d := Run(c, trace); Inv(d) && Untouched(c, d, w) && d.claimers == c.claimers && forall u :: !Held(d, u, name)
  {
    trace := [];
    if u :| Held(c, u, name) {
      trace := Extend(c, [], DeleteWorkspace(u));
      var d := Next(c, DeleteWorkspace(u));
      StepKeepsInv(c, DeleteWorkspace(u));
      assert forall x :: Held(d, w, x) == Held(c, w, x);
      forall v
        ensures !Held(d, v, name)
      {
        if Held(d, v, name) {
          OwnerInjective(u, c.workspaces.objects[u].uid, v, c.workspaces.objects[v].uid);
        }
      }
    }
  }

  lemma NobodyIsUnnamed(c: Cluster)
    requires Inv(c)
    ensures forall v <- c.workspaces.objects :: Owner(v, c.workspaces.objects[v].uid) != ""
  {
    forall v | v in c.workspaces.objects
      ensures Owner(v, c.workspaces.objects[v].uid) != ""
    {
      OwnerInjective(v, c.workspaces.objects[v].uid, v, c.workspaces.objects[v].uid);
    }
  }

  const BLANK := Disk(true, false, "")

  /** A new blank disk is nobody's. */
  lemma NewBlankDisk(c: Cluster, w: Name, name: Name) returns (trace: seq<Event>)
    requires Inv(c) && w in c.workspaces.objects && name !in c.disks.objects
    ensures SteadyRun(c, trace)
    ensures var d := Run(c, trace);
            && Inv(d) && Untouched(c, d, w) && d.claimers == c.claimers && d.workspaces == c.workspaces
            && name in d.disks.objects && d.disks.objects[name].body == BLANK && d.disks.objects[name].version == c.disks.clock
  {
    var uid := FreshName(c.disks.issued);
    var e := CreateDisk(name, uid, BLANK);
    NobodyIsUnnamed(c);
    trace := Extend(c, [], e);
    StepKeepsInv(c, e);
    assert SplitAtSlash("").tail == None;
    var d := Next(c, e);
    assert d.disks.objects == c.disks.objects[name := Object(uid, c.disks.clock, BLANK)];
    assert forall x :: Held(d, w, x) == Held(c, w, x);
  }

  lemma DropUnheld(c: Cluster, w: Name, name: Name) returns (trace: seq<Event>)
    requires Inv(c) && w in c.workspaces.objects && forall u :: !Held(c, u, name)
    ensures SteadyRun(c, trace)
    ensures var d := Run(c, trace); Inv(d) && Untouched(c, d, w) && d.claimers == c.claimers && name !in d.disks.objects
  {
    trace := Extend(c, [], DeleteDisk(name));
    StepKeepsInv(c, DeleteDisk(name));
    var d := Next(c, DeleteDisk(name));
    assert forall x :: Held(d, w, x) == Held(c, w, x);
  }

  /** Steady events that put a blank disk where there is one the Workspace does not hold. */
  lemma FreeDisk(c: Cluster, w: Name, name: Name) returns (trace: seq<Event>)
    requires Inv(c) && w in c.workspaces.objects && !Held(c, w, name)
    ensures SteadyRun(c, trace)
    ensures var d := Run(c, trace);
            && Inv(d) && Untouched(c, d, w) && d.claimers == c.claimers
            && name in d.disks.objects && d.disks.objects[name].body == BLANK
  {
    trace := Release(c, w, name);
    var more := DropUnheld(Run(c, trace), w, name);
    trace := Then(c, trace, more);
    more := NewBlankDisk(Run(c, trace), w, name);
    trace := Then(c, trace, more);
  }

  /** A new Workspace with the two mounts in question starts to claim. */
  lemma StartRival(c: Cluster, w: Name, missing: Name, held: Name) returns (trace: seq<Event>, rival: Name, pid: nat)
    requires Stalled(c, w, missing, held)
    ensures SteadyRun(c, trace) && rival != w
    ensures var d := Run(c, trace);
            && Stalled(d, w, missing, held) && d.disks == c.disks
            && rival in d.workspaces.objects && d.workspaces.objects[rival].body.mounts == [missing, held]
            && pid in d.claimers && d.claimers[pid] == Claimer(rival, d.workspaces.objects[rival].uid, [missing, held], 0, ReadDisk)
  {
    var uid := FreshName(c.workspaces.issued);
    rival := FreshName(c.workspaces.objects.Keys);
    pid := FreshPid(c.claimers.Keys);
    var order := [missing, held];
    trace := Extend(c, [], CreateWorkspace(rival, uid, order));
    var mid := Next(c, CreateWorkspace(rival, uid, order));
    StepKeepsInv(c, CreateWorkspace(rival, uid, order));
    assert Untouched(c, mid, w);
    StalledStays(c, mid, w, missing, held);
    assert SortedMounts(order, order);
    trace := Extend(c, trace, Begin(pid, rival, order));
    var d := Next(mid, Begin(pid, rival, order));
    StepKeepsInv(mid, Begin(pid, rival, order));
    assert Untouched(mid, d, w);
    StalledStays(mid, d, w, missing, held);
  }

  /** Two calls give it the free disk. */
  lemma ClaimFreeDisk(c: Cluster, pid: nat) returns (trace: seq<Event>)
    requires pid in c.claimers && c.claimers[pid].phase.ReadDisk? && c.claimers[pid].next < |c.claimers[pid].order|
    requires var name := c.claimers[pid].order[c.claimers[pid].next];
             name in c.disks.objects && c.disks.objects[name].body == Disk(true, false, "")
    requires '/' !in c.claimers[pid].workspace
    ensures SteadyRun(c, trace)
    ensures var p := c.claimers[pid];
            var name := p.order[p.next];
            var claimed := Object(c.disks.objects[name].uid, c.disks.clock, Disk(true, false, Owner(p.workspace, p.uid)));
            && Run(c, trace).workspaces == c.workspaces
            && Run(c, trace).disks == Store(c.disks.objects[name := claimed], c.disks.clock + 1, c.disks.issued)
            && Run(c, trace).claimers == c.claimers[pid := Advance(p)]
  {
    var p := c.claimers[pid];
    OwnerInjective(p.workspace, p.uid, p.workspace, p.uid);
    trace := Extend(c, [], Call(pid));
    assert Run(c, trace).claimers[pid].phase == WriteDisk(c.disks.objects[p.order[p.next]]);
    trace := Extend(c, trace, Call(pid));
  }

  /** Now the Workspace waits for the rival's disk and the rival for the Workspace's. */
  lemma RivalsWait(c: Cluster, d: Cluster, w: Name, rival: Name, missing: Name, held: Name)
    requires Stalled(c, w, missing, held) && rival != w && d.workspaces == c.workspaces
    requires rival in c.workspaces.objects && c.workspaces.objects[rival].body.mounts == [missing, held]
    requires missing in d.disks.objects && d.disks.objects[missing].body.owner == Owner(rival, c.workspaces.objects[rival].uid)
    requires forall x :: x != missing ==> (x in d.disks.objects <==> x in c.disks.objects)
    requires forall x :: x != missing && x in c.disks.objects ==> d.disks.objects[x] == c.disks.objects[x]
    ensures WaitCycle(d, [w, rival, w], [missing, held])
  {
    OwnerInjective(w, c.workspaces.objects[w].uid, rival, c.workspaces.objects[rival].uid);
    BeforeIrreflexive(held);
    BeforeIrreflexive(missing);
    assert held != missing;
    assert Blocked(d, w, missing);
    assert Blocked(d, rival, held);
  }

  lemma {:induction false} RunConcat(c: Cluster, a: seq<Event>, b: seq<Event>)
    requires SteadyRun(c, a) && SteadyRun(Run(c, a), b)
    ensures SteadyRun(c, a + b) && Run(c, a + b) == Run(Run(c, a), b)
  {
    if b == [] {
      assert a + b == a;
    } else {
      var n := |b| - 1;
      assert (a + b)[..|a + b| - 1] == a + b[..n];
      RunConcat(c, a, b[..n]);
    }
  }

  /** Join two steady runs. */
  lemma Then(c: Cluster, a: seq<Event>, b: seq<Event>) returns (both: seq<Event>)
    requires SteadyRun(c, a) && SteadyRun(Run(c, a), b)
    ensures SteadyRun(c, both) && Run(c, both) == Run(Run(c, a), b)
  {
    RunConcat(c, a, b);
    both := a + b;
  }

  lemma StalledClosesCycle(c: Cluster, w: Name, missing: Name, held: Name) returns (trace: seq<Event>, rival: Name)
    requires Stalled(c, w, missing, held)
    ensures SteadyRun(c, trace) && WaitCycle(Run(c, trace), [w, rival, w], [missing, held])
  {
    var more, pid;
    trace := FreeDisk(c, w, missing);
    StalledStays(c, Run(c, trace), w, missing, held);
    more, rival, pid := StartRival(Run(c, trace), w, missing, held);
    trace := Then(c, trace, more);
    var ready := Run(c, trace);
    more := ClaimFreeDisk(ready, pid);
    trace := Then(c, trace, more);
    RivalsWait(ready, Run(c, trace), w, rival, missing, held);
  }

  /** From any reachable state with a gap, a steady continuation ends in circular waiting. */
  lemma GapClosesCycle(c: Cluster, w: Name, missing: Name, held: Name) returns (trace: seq<Event>, ws: seq<Name>, disks: seq<Name>)
    requires Inv(c) && Gap(c, w, missing, held)
    ensures SteadyRun(c, trace) && WaitCycle(Run(c, trace), ws, disks)
  {
    var first := FirstMissing(c, w, c.workspaces.objects[w].body.mounts, missing);
    if first != missing {
      BeforeTransitive(first, missing, held);
    }
    var rival;
    trace, rival := StalledClosesCycle(c, w, first, held);
    ws, disks := [w, rival, w], [first, held];
  }

  // ---------------------------------------------------------------- a claim loop under way that leads to a gap

  /** The claimer `pid` of `w` threatens to leave `missing` behind below `held`. */
  ghost predicate Racing(c: Cluster, pid: nat, w: Name, missing: Name, held: Name) {
    Inv(c) && pid in c.claimers && c.claimers[pid].workspace == w && Threat(c, c.claimers[pid], missing, held)
  }

  lemma RacingStays(c: Cluster, d: Cluster, pid: nat, w: Name, missing: Name, held: Name)
    requires Racing(c, pid, w, missing, held) && Inv(d) && Untouched(c, d, w) && pid in d.claimers
    requires var p, q := c.claimers[pid], d.claimers[pid]; q == p.(phase := q.phase) && !q.phase.Finished? && !Doomed(q)
    ensures Racing(d, pid, w, missing, held)
  {
  }

  /** A call that moves the claimer and nothing else. */
  lemma CallMoves(c: Cluster, pid: nat, w: Name, missing: Name, held: Name, phase: Phase)
    requires Racing(c, pid, w, missing, held) && Step(c, c.claimers[pid]) == (c, c.claimers[pid].(phase := phase))
    requires !phase.Finished? && !phase.ReadOwner?
    ensures var d := Next(c, Call(pid));
            d == c.(claimers := c.claimers[pid := c.claimers[pid].(phase := phase)]) && Racing(d, pid, w, missing, held)
  {
    var d := Next(c, Call(pid));
    StepKeepsInv(c, Call(pid));
    assert Untouched(c, d, w);
    RacingStays(c, d, pid, w, missing, held);
  }

  /** The state of the race that each of the following steps keeps, apart from the phase. */
  ghost predicate SameRace(c: Cluster, d: Cluster, pid: nat) {
    pid in c.claimers && pid in d.claimers && d.claimers[pid] == c.claimers[pid].(phase := d.claimers[pid].phase)
  }

  /** A write over a disk that somebody touches in between starts over. */
  lemma FromWrite(c: Cluster, pid: nat, w: Name, missing: Name, held: Name) returns (trace: seq<Event>)
    requires Racing(c, pid, w, missing, held) && c.claimers[pid].phase.WriteDisk?
    ensures SteadyRun(c, trace)
    ensures var d := Run(c, trace); Racing(d, pid, w, missing, held) && SameRace(c, d, pid) && d.claimers[pid].phase.ReadDisk?
  {
    var p := c.claimers[pid];
    assert ClaimerInv(c, p);
    var name := p.order[p.next];
    if name in c.disks.objects {
      trace := TouchDisk(c, w, name);
    } else {
      trace := NewBlankDisk(c, w, name);
    }
    var mid := Run(c, trace);
    RacingStays(c, mid, pid, w, missing, held);
    CallMoves(mid, pid, w, missing, held, ReadDisk);
    trace := Extend(c, trace, Call(pid));
  }

  /** An edit that makes a disk usable and gives it a new version. */
  lemma TouchDisk(c: Cluster, w: Name, name: Name) returns (trace: seq<Event>)
    requires Inv(c) && w in c.workspaces.objects && name in c.disks.objects
    ensures SteadyRun(c, trace)
    ensures var d := Run(c, trace);
            && Inv(d) && Untouched(c, d, w) && d.claimers == c.claimers && name in d.disks.objects
            && d.disks.objects[name].version == c.disks.clock
            && d.disks.objects[name].body == Disk(true, false, c.disks.objects[name].body.owner)
  {
    trace := Extend(c, [], EditDisk(name, true, false));
    StepKeepsInv(c, EditDisk(name, true, false));
    var d := Next(c, EditDisk(name, true, false));
    assert forall x :: Held(d, w, x) == Held(c, w, x);
  }

  lemma FromReadVmi(c: Cluster, pid: nat, w: Name, missing: Name, held: Name) returns (trace: seq<Event>)
    requires Racing(c, pid, w, missing, held) && c.claimers[pid].phase.ReadVmi?
    ensures SteadyRun(c, trace)
    ensures var d := Run(c, trace); Racing(d, pid, w, missing, held) && SameRace(c, d, pid) && d.claimers[pid].phase.ReadDisk?
  {
    var p := c.claimers[pid];
    assert ClaimerInv(c, p);
    var e := StopVmi(SplitAtSlash(p.phase.disk.body.owner).head);
    trace := Extend(c, [], e);
    var mid := Next(c, e);
    StepKeepsInv(c, e);
    assert Untouched(c, mid, w);
    RacingStays(c, mid, pid, w, missing, held);
    CallMoves(mid, pid, w, missing, held, WriteDisk(p.phase.disk));
    trace := Extend(c, trace, Call(pid));
    var more := FromWrite(Run(c, trace), pid, w, missing, held);
    trace := Then(c, trace, more);
  }

  lemma FromReadOwner(c: Cluster, pid: nat, w: Name, missing: Name, held: Name) returns (trace: seq<Event>)
    requires Racing(c, pid, w, missing, held) && c.claimers[pid].phase.ReadOwner?
    ensures SteadyRun(c, trace)
    ensures var d := Run(c, trace); Racing(d, pid, w, missing, held) && SameRace(c, d, pid) && d.claimers[pid].phase.ReadDisk?
  {
    var p := c.claimers[pid];
    assert ClaimerInv(c, p);
    var owner := p.phase.disk.body.owner;
    trace := [];
    var mid := c;
    if OwnerBlocks(c.workspaces, owner) {
      var e := DeleteWorkspace(SplitAtSlash(owner).head);
      trace := Extend(c, [], e);
      mid := Next(c, e);
      StepKeepsInv(c, e);
      assert Untouched(c, mid, w);
      RacingStays(c, mid, pid, w, missing, held);
    }
    CallMoves(mid, pid, w, missing, held, ReadVmi(p.phase.disk));
    trace := Extend(c, trace, Call(pid));
    var more := FromReadVmi(Run(c, trace), pid, w, missing, held);
    trace := Then(c, trace, more);
  }

  /** Wherever the claimer is, it can be brought back to reading its disk. */
  lemma BackToRead(c: Cluster, pid: nat, w: Name, missing: Name, held: Name) returns (trace: seq<Event>)
    requires Racing(c, pid, w, missing, held)
    ensures SteadyRun(c, trace)
    ensures var d := Run(c, trace); Racing(d, pid, w, missing, held) && SameRace(c, d, pid) && d.claimers[pid].phase.ReadDisk?
  {
    match c.claimers[pid].phase
    case ReadDisk => trace := [];
    case ReadOwner(_) => trace := FromReadOwner(c, pid, w, missing, held);
    case ReadVmi(_) => trace := FromReadVmi(c, pid, w, missing, held);
    case WriteDisk(_) => trace := FromWrite(c, pid, w, missing, held);
  }

  /** And then made to hold that disk and go on. */
  lemma TakeNext(c: Cluster, pid: nat, w: Name, missing: Name, held: Name) returns (trace: seq<Event>)
    requires Racing(c, pid, w, missing, held) && c.claimers[pid].phase.ReadDisk? && c.claimers[pid].next < |c.claimers[pid].order|
    ensures SteadyRun(c, trace)
    ensures var d, p := Run(c, trace), c.claimers[pid];
            && Inv(d) && pid in d.claimers && d.claimers[pid] == Advance(p)
            && w in d.workspaces.objects && d.workspaces.objects[w] == c.workspaces.objects[w]
            && forall x :: Held(d, w, x) <==> Held(c, w, x) || x == p.order[p.next]
  {
    var p := c.claimers[pid];
    var name := p.order[p.next];
    assert ClaimerInv(c, p);
    if Held(c, w, name) {
      trace := TouchDisk(c, w, name);
      var mid := Run(c, trace);
      StepKeepsInv(mid, Call(pid));
      trace := Extend(c, trace, Call(pid));
      assert forall x :: Held(Run(c, trace), w, x) == Held(mid, w, x);
    } else {
      trace := FreeDisk(c, w, name);
      var mid := Run(c, trace);
      var more := ClaimFreeDisk(mid, pid);
      ClaimedHolds(mid, Run(mid, more), w, name);
      RunSteadyInv(mid, more);
      trace := Then(c, trace, more);
    }
  }

  lemma ClaimedHolds(c: Cluster, d: Cluster, w: Name, name: Name)
    requires w in c.workspaces.objects && d.workspaces == c.workspaces && name in c.disks.objects
    requires d.disks.objects.Keys == c.disks.objects.Keys
    requires forall x <- c.disks.objects :: x != name ==> d.disks.objects[x] == c.disks.objects[x]
    requires d.disks.objects[name].body.owner == Owner(w, c.workspaces.objects[w].uid)
    ensures forall x :: Held(d, w, x) <==> Held(c, w, x) || x == name
  {
  }

  lemma {:induction false} RunSteadyInv(c: Cluster, trace: seq<Event>)
    requires Inv(c)
    ensures Inv(Run(c, trace))
  {
    if trace != [] {
      RunSteadyInv(c, trace[..|trace| - 1]);
      StepKeepsInv(Run(c, trace[..|trace| - 1]), trace[|trace| - 1]);
    }
  }

  /** So the claimer comes to hold the later disk without the earlier one. */
  lemma ThreatMakesGap(c: Cluster, pid: nat, w: Name, missing: Name, held: Name) returns (trace: seq<Event>)
    requires Racing(c, pid, w, missing, held)
    ensures SteadyRun(c, trace) && Inv(Run(c, trace)) && Gap(Run(c, trace), w, missing, held)
    decreases |c.claimers[pid].order| - c.claimers[pid].next
  {
    trace := BackToRead(c, pid, w, missing, held);
    var ready := Run(c, trace);
    var p := ready.claimers[pid];
    assert p.order[p.next..] == [p.order[p.next]] + p.order[p.next + 1..];
    var more := TakeNext(ready, pid, w, missing, held);
    trace := Then(c, trace, more);
    var d := Run(c, trace);
    if p.order[p.next] != held {
      assert Threat(d, d.claimers[pid], missing, held);
      more := ThreatMakesGap(d, pid, w, missing, held);
      trace := Then(c, trace, more);
    }
  }

  // ---------------------------------------------------------------- exactly when circular waiting can come about

  ghost predicate CanWaitInCircle(c: Cluster) {
    exists trace, ws, disks :: SteadyRun(c, trace) && WaitCycle(Run(c, trace), ws, disks)
  }

  lemma {:induction false} OrdersAreSorted(trace: seq<Event>)
    ensures forall pid <- Run(EMPTY, trace).claimers :: SortedNames(Run(EMPTY, trace).claimers[pid].order)
  {
    if trace != [] {
      var n := |trace| - 1;
      OrdersAreSorted(trace[..n]);
      StepKeepsOrders(Run(EMPTY, trace[..n]), trace[n]);
    }
  }

  lemma StepKeepsOrders(c: Cluster, e: Event)
    requires forall pid <- c.claimers :: SortedNames(c.claimers[pid].order)
    ensures forall pid <- Next(c, e).claimers :: SortedNames(Next(c, e).claimers[pid].order)
  {
  }

  ghost predicate SomeGap(c: Cluster) {
    exists w, missing, held :: Gap(c, w, missing, held)
  }

  ghost predicate SomeThreat(c: Cluster) {
    exists pid, missing, held :: pid in c.claimers && Threat(c, c.claimers[pid], missing, held)
  }

  /**
   In every reachable state: a steady continuation can end in circular waiting if and only if some Workspace has a gap
   or some claim loop under way threatens to make one.
   */
  lemma CircleExactlyFromGap(trace: seq<Event>)
    ensures var c := Run(EMPTY, trace); CanWaitInCircle(c) <==> SomeGap(c) || SomeThreat(c)
  {
    var c := Run(EMPTY, trace);
    RunKeepsInv(trace);
    OrdersAreSorted(trace);
    if SomeGap(c) {
      var w, missing, held :| Gap(c, w, missing, held);
      var more, ws, disks := GapClosesCycle(c, w, missing, held);
    } else if SomeThreat(c) {
      var pid, missing, held :| pid in c.claimers && Threat(c, c.claimers[pid], missing, held);
      var first := ThreatMakesGap(c, pid, c.claimers[pid].workspace, missing, held);
      var more, ws, disks := GapClosesCycle(Run(c, first), c.claimers[pid].workspace, missing, held);
      more := Then(c, first, more);
    } else {
      assert OrderInv(c);
      forall more, ws, disks | SteadyRun(c, more)
        ensures !WaitCycle(Run(c, more), ws, disks)
      {
        SteadyRunKeepsOrder(c, more);
        if WaitChain(Run(c, more), ws, disks) {
          ChainDoesNotClose(Run(c, more), ws, disks);
        }
      }
    }
  }

  // ---------------------------------------------------------------- each condition of `Steady` is needed

  /** A Workspace "a" that has claimed both its disks. */
  lemma BothClaimed() returns (trace: seq<Event>)
    ensures SteadyRun(EMPTY, trace)
    ensures var c := Run(EMPTY, trace);
            && c.workspaces.objects == map["a" := Object("1", 0, Workspace(["x", "y"]))]
            && Held(c, "a", "x") && Held(c, "a", "y") && c.disks.objects.Keys == {"x", "y"}
  {
    trace := ReadyToClaim();
    var more := ClaimFreeDisk(Run(EMPTY, trace), 0);
    trace := Then(EMPTY, trace, more);
    more := ClaimFreeDisk(Run(EMPTY, trace), 0);
    trace := Then(EMPTY, trace, more);
  }

  lemma OneWorkspace() returns (trace: seq<Event>)
    ensures SteadyRun(EMPTY, trace)
    ensures Run(EMPTY, trace) == EMPTY.(workspaces := Store(map["a" := Object("1", 0, Workspace(["x", "y"]))], 1, {"1"}))
  {
    trace := Extend(EMPTY, [], CreateWorkspace("a", "1", ["x", "y"]));
  }

  lemma TwoDisks() returns (trace: seq<Event>)
    ensures SteadyRun(EMPTY, trace)
    ensures var c, blank := Run(EMPTY, trace), Disk(true, false, "");
            && c.workspaces == Store(map["a" := Object("1", 0, Workspace(["x", "y"]))], 1, {"1"})
            && c.disks == Store(map["x" := Object("2", 0, blank), "y" := Object("3", 1, blank)], 2, {"2", "3"})
            && c.claimers == map[]
  {
    var blank := Disk(true, false, "");
    trace := OneWorkspace();
    OwnerInjective("a", "1", "a", "1");
    trace := Extend(EMPTY, trace, CreateDisk("x", "2", blank));
    assert Run(EMPTY, trace).disks == Store(map["x" := Object("2", 0, blank)], 1, {"2"});
    trace := Extend(EMPTY, trace, CreateDisk("y", "3", blank));
  }

  lemma ReadyToClaim() returns (trace: seq<Event>)
    ensures SteadyRun(EMPTY, trace)
    ensures var c, blank := Run(EMPTY, trace), Disk(true, false, "");
            && c.workspaces.objects == map["a" := Object("1", 0, Workspace(["x", "y"]))]
            && c.disks.objects == map["x" := Object("2", 0, blank), "y" := Object("3", 1, blank)]
            && c.claimers == map[0 := Claimer("a", "1", ["x", "y"], 0, ReadDisk)]
  {
    var mounts := ["x", "y"];
    trace := TwoDisks();
    assert SortedMounts(mounts, mounts) by {
      assert Before("x", "y");
    }
    trace := Extend(EMPTY, trace, Begin(0, "a", mounts));
  }

  /** A steady run, one event that is not steady, and a steady continuation into circular waiting. */
  ghost predicate ClosesCycle(before: seq<Event>, e: Event, after: seq<Event>, ws: seq<Name>, disks: seq<Name>) {
    && SteadyRun(EMPTY, before)
    && var c := Next(Run(EMPTY, before), e);
       SteadyRun(c, after) && WaitCycle(Run(c, after), ws, disks)
  }

  lemma GapAfter(before: seq<Event>, e: Event, w: Name, missing: Name, held: Name)
    returns (after: seq<Event>, ws: seq<Name>, disks: seq<Name>)
    requires SteadyRun(EMPTY, before) && Gap(Next(Run(EMPTY, before), e), w, missing, held)
    ensures ClosesCycle(before, e, after, ws, disks)
  {
    RunKeepsInv(before);
    StepKeepsInv(Run(EMPTY, before), e);
    after, ws, disks := GapClosesCycle(Next(Run(EMPTY, before), e), w, missing, held);
  }

  /** Deleting a disk that is held, whose name may then be used again, leads to circular waiting. */
  lemma DeletedDiskClosesCycle() returns (before: seq<Event>, after: seq<Event>, ws: seq<Name>, disks: seq<Name>)
    ensures ClosesCycle(before, DeleteDisk("x"), after, ws, disks)
  {
    before := BothClaimed();
    assert Before("x", "y");
    assert Gap(Next(Run(EMPTY, before), DeleteDisk("x")), "a", "x", "y");
    after, ws, disks := GapAfter(before, DeleteDisk("x"), "a", "x", "y");
  }

  /** So does a new mount that sorts before a disk that is held. */
  lemma EditedMountsCloseCycle() returns (before: seq<Event>, after: seq<Event>, ws: seq<Name>, disks: seq<Name>)
    ensures ClosesCycle(before, EditWorkspace("a", ["w", "x", "y"]), after, ws, disks)
  {
    before := BothClaimed();
    var e := EditWorkspace("a", ["w", "x", "y"]);
    assert Before("w", "y");
    assert Gap(Next(Run(EMPTY, before), e), "a", "w", "y");
    after, ws, disks := GapAfter(before, e, "a", "w", "y");
  }

  /** And so does a new disk that names a live Workspace as its owner. */
  lemma PreOwnedDiskClosesCycle() returns (before: seq<Event>, e: Event, after: seq<Event>, ws: seq<Name>, disks: seq<Name>)
    ensures e.CreateDisk? && e.disk.owner == Owner("a", "1") && ClosesCycle(before, e, after, ws, disks)
  {
    before := OneWorkspace();
    e := CreateDisk("y", "2", Disk(true, false, Owner("a", "1")));
    OwnerInjective("a", "1", "a", "1");
    assert Before("x", "y");
    var c := Next(Run(EMPTY, before), e);
    assert c.disks.objects == map["y" := Object("2", 0, Disk(true, false, Owner("a", "1")))];
    after, ws, disks := GapAfter(before, e, "a", "x", "y");
  }
}
