/**
 What a round of `ManagementIdentity` achieves while nobody else acts: exactly when an epoch is settled and when a
 bootstrap document exists afterwards. The conditions are on the stored objects themselves.
 */
module ManagementAlone {
  import opened ApiServer
  import opened Text
  import opened ManagementIdentity

  // ---------------------------------------------------------------- conditions on the stored objects

  /** The VM of that name is the one observed, runs, stays, belongs to this Workspace and, only for Windows, is the provisioned guest. */
  ghost predicate GoodVm(c: Cluster, r: Round, ws: Object<Workspace>) {
    && r.name in c.vms.objects
    && var vm := c.vms.objects[r.name];
       && vm.uid == r.vmUid && vm.uid != "" && vm.body.running && !vm.body.deleting
       && vm.body.ownerUid == ws.uid && vm.body.ownerName == r.name
       && match ws.body.windows
          case None => true
          case Some(w) => w.generation != "" && w.generation == w.provisioned && w.generation == vm.body.generation
  }

  ghost predicate CanSettle(c: Cluster, r: Round) {
    && r.name in c.core.workspaces.objects
    && var ws := c.core.workspaces.objects[r.name];
       ws.uid == r.uid && ws.body.requested >= 0 && GoodVm(c, r, ws)
  }

  ghost predicate CanIssue(c: Cluster, r: Round) {
    && r.name in c.core.workspaces.objects
    && var ws := c.core.workspaces.objects[r.name];
       && ws.uid == r.uid && !ws.body.pending && GoodVm(c, r, ws)
       && match ws.body.execution
          case None => false
          case Some(x) => x.vmUid == r.vmUid && x.epoch >= 0 && 0 <= ws.body.requested <= x.epoch
  }

  // ---------------------------------------------------------------- the epoch

  function EpochAlone(c: Cluster, pid: nat): Cluster {
    Next(Next(Next(c, Act(pid, EpochGetWorkspace)), Act(pid, EpochGetVm)), Act(pid, EpochPut))
  }

  function Max(a: int, b: int): int {
    if a > b then a else b
  }

  /** The epoch that should be stored: the request, or an older epoch that is higher. */
  function Due(ws: Workspace): int {
    if ws.execution.None? then ws.requested else Max(ws.requested, ws.execution.value.epoch)
  }

  /** Only the execution of one Workspace changed, if it had to, under a new version. */
  ghost predicate OnlyExecutionWritten(c: Cluster, d: Cluster, name: Name, x: Execution)
    requires name in c.core.workspaces.objects
  {
    var before := c.core.workspaces.objects[name];
    if before.body.execution == Some(x) then d.core == c.core
    else
      d.core == c.core.(workspaces := c.core.workspaces.(
        objects := c.core.workspaces.objects[name := Object(before.uid, c.core.workspaces.clock, before.body.(execution := Some(x)))],
        clock := c.core.workspaces.clock + 1))
  }

  ghost predicate EpochOutcome(c: Cluster, d: Cluster, pid: nat)
    requires pid in c.rounds
  {
    var r := c.rounds[pid];
    && d.vms == c.vms && d.registry == c.registry && pid in d.rounds
    && if CanSettle(c, r) then
         var ws := c.core.workspaces.objects[r.name];
         var x := Execution(r.vmUid, Due(ws.body));
         && OnlyExecutionWritten(c, d, r.name, x)
         && d.core.workspaces.objects[r.name].body.execution == Some(x)
         && d.rounds[pid] == r.(version := d.core.workspaces.objects[r.name].version, execution := Some(x), confirmed := Some(ws.body.requested))
       else d.core == c.core && d.rounds[pid].phase.Failed?
  }

  lemma AfterEpochReads(c: Cluster, pid: nat)
    requires pid in c.rounds && c.rounds[pid].phase.Working? && c.rounds[pid].name in c.core.workspaces.objects
    ensures var r, ws := c.rounds[pid], c.core.workspaces.objects[c.rounds[pid].name];
            var x := Execution(r.vmUid, Due(ws.body));
            var d := Next(Next(c, Act(pid, EpochGetWorkspace)), Act(pid, EpochGetVm));
            && d == c.(rounds := d.rounds) && pid in d.rounds
            && d.rounds[pid] == if !CanSettle(c, r) then r.(phase := Failed)
                                else if ws.body.execution == Some(x)
                                then r.(version := ws.version, execution := Some(x), confirmed := Some(ws.body.requested))
                                else r.(phase := EpochWrite(ws, x))
  {
    var r, ws := c.rounds[pid], c.core.workspaces.objects[c.rounds[pid].name];
    var c1 := Next(c, Act(pid, EpochGetWorkspace));
    assert c1 == c.(rounds := c.rounds[pid := r.(phase := EpochReadVm(ws))]);
    assert Settle(ws, r.vmUid) == Execution(r.vmUid, Due(ws.body));
  }

  /**
   Exactly when an epoch reconcile that nobody disturbs succeeds, for Windows and for every other workspace, and what
   it stores; otherwise it fails and writes nothing.
   */
  lemma EpochExactly(c: Cluster, pid: nat)
    requires pid in c.rounds && c.rounds[pid].phase.Working?
    ensures EpochOutcome(c, EpochAlone(c, pid), pid)
  {
    if c.rounds[pid].name in c.core.workspaces.objects {
      AfterEpochReads(c, pid);
    }
  }

  // ---------------------------------------------------------------- the document

  function BootAlone(c: Cluster, pid: nat, token: string): Cluster {
    Next(Next(Next(Next(c, Act(pid, BootGetWorkspace)), Act(pid, BootGetVm)), Act(pid, BootGetDocument)), Act(pid, BootPut(token)))
  }

  /** The document's name, spelt out. */
  function NameFor(uid: Uid, vmUid: Uid, epoch: nat): string {
    if epoch == 0 then uid + "/" + vmUid else uid + "/" + vmUid + "/" + Digits(epoch)
  }

  lemma NameIsIdentity(uid: Uid, vmUid: Uid, epoch: nat)
    ensures NameFor(uid, vmUid, epoch) == Identity(uid, vmUid, epoch)
  {
    assert uid + "/" + vmUid + "" == uid + "/" + vmUid;
    assert uid + "/" + vmUid + "/" + Digits(epoch) == uid + "/" + vmUid + ("/" + Digits(epoch));
  }

  ghost predicate BootOutcome(c: Cluster, d: Cluster, pid: nat, token: string)
    requires pid in c.rounds
  {
    var r := c.rounds[pid];
    && d.vms == c.vms && d.core == c.core && pid in d.rounds
    && if CanIssue(c, r) then
         var epoch := c.core.workspaces.objects[r.name].body.execution.value.epoch;
         var name, now := NameFor(r.uid, r.vmUid, epoch), c.registry.now;
         && d.rounds[pid] == r
         && d.registry.documents ==
            if name in c.registry.documents then c.registry.documents
            else c.registry.documents[name := Document(r.name, r.uid, r.vmUid, epoch, now, now + 15 * 60 * 1000000, token)]
       else d.registry == c.registry && d.rounds[pid].phase.Failed?
  }

  lemma AfterBootReads(c: Cluster, pid: nat)
    requires pid in c.rounds && c.rounds[pid].phase.Working?
    ensures var r := c.rounds[pid];
            var d := Next(Next(c, Act(pid, BootGetWorkspace)), Act(pid, BootGetVm));
            && d == c.(rounds := d.rounds) && pid in d.rounds
            && if CanIssue(c, r) then d.rounds[pid] == r.(phase := BootReadSecret(c.core.workspaces.objects[r.name]))
               else d.rounds[pid].phase.Failed?
  {
    var r := c.rounds[pid];
    if r.name in c.core.workspaces.objects {
      var ws := c.core.workspaces.objects[r.name];
      var c1 := Next(c, Act(pid, BootGetWorkspace));
      if ws.uid == r.uid && !ws.body.pending {
        assert c1 == c.(rounds := c.rounds[pid := r.(phase := BootReadVm(ws))]);
      } else {
        assert c1.rounds[pid].phase.Failed?;
      }
    }
  }

  /** The last two calls, with the Workspace copy in hand. */
  ghost predicate Issued(c: Cluster, d: Cluster, pid: nat, ws: Object<Workspace>, token: string)
    requires pid in c.rounds && HasEpoch(ws)
  {
    var r, epoch, now := c.rounds[pid], ws.body.execution.value.epoch, c.registry.now;
    var name := NameFor(ws.uid, r.vmUid, epoch);
    && d.vms == c.vms && d.core == c.core && pid in d.rounds && d.rounds[pid] == r.(phase := Working)
    && d.registry.documents ==
       if name in c.registry.documents then c.registry.documents
       else c.registry.documents[name := Document(r.name, ws.uid, r.vmUid, epoch, now, now + 15 * 60 * 1000000, token)]
  }

  lemma AfterDocument(c: Cluster, pid: nat, ws: Object<Workspace>, token: string)
    requires Inv(c) && pid in c.rounds && c.rounds[pid].phase == BootReadSecret(ws) && HasEpoch(ws)
    ensures Issued(c, Next(Next(c, Act(pid, BootGetDocument)), Act(pid, BootPut(token))), pid, ws, token)
  {
    var r := c.rounds[pid];
    var name := Identity(ws.uid, r.vmUid, ws.body.execution.value.epoch);
    NameIsIdentity(ws.uid, r.vmUid, ws.body.execution.value.epoch);
    var c1 := Next(c, Act(pid, BootGetDocument));
    assert RoundInv(c.core, r);
    if name in c.registry.documents {
      var doc := c.registry.documents[name];
      IdentityInjective(doc.workspaceUid, doc.vmUid, doc.epoch, ws.uid, r.vmUid, ws.body.execution.value.epoch);
      assert c1 == c.(rounds := c.rounds[pid := r.(phase := Working)]);
    } else {
      assert c1 == c.(rounds := c.rounds[pid := r.(phase := BootCreate(ws))]);
    }
  }

  lemma ReadsKeepInv(c: Cluster, pid: nat)
    requires Inv(c)
    ensures Inv(Next(Next(c, Act(pid, BootGetWorkspace)), Act(pid, BootGetVm)))
  {
    StepKeepsInv(c, Act(pid, BootGetWorkspace));
    StepKeepsInv(Next(c, Act(pid, BootGetWorkspace)), Act(pid, BootGetVm));
  }

  /** From the state after the reads to the whole. */
  lemma IssuedIsOutcome(c: Cluster, mid: Cluster, d: Cluster, pid: nat, token: string)
    requires pid in c.rounds && CanIssue(c, c.rounds[pid]) && mid == c.(rounds := mid.rounds) && pid in mid.rounds
    requires c.rounds[pid].phase.Working?
    requires var ws := c.core.workspaces.objects[c.rounds[pid].name];
             mid.rounds[pid] == c.rounds[pid].(phase := BootReadSecret(ws)) && Issued(mid, d, pid, ws, token)
    ensures BootOutcome(c, d, pid, token)
  {
  }

  /**
   Exactly when a bootstrap reconcile that nobody disturbs succeeds, in every reachable state: then the document of
   this Workspace, VM and epoch exists, the one that was there or a new one that lives fifteen minutes; otherwise it
   fails and creates nothing.
   */
  lemma BootExactly(trace: seq<Event>, pid: nat, token: string)
    requires pid in Run(EMPTY, trace).rounds && Run(EMPTY, trace).rounds[pid].phase.Working?
    ensures BootOutcome(Run(EMPTY, trace), BootAlone(Run(EMPTY, trace), pid, token), pid, token)
  {
    RunKeepsInv(trace);
    BootInState(Run(EMPTY, trace), pid, token);
  }

  lemma BootSucceeds(c: Cluster, pid: nat, token: string)
    requires Inv(c) && pid in c.rounds && c.rounds[pid].phase.Working? && CanIssue(c, c.rounds[pid])
    ensures BootOutcome(c, BootAlone(c, pid, token), pid, token)
  {
    var ws := c.core.workspaces.objects[c.rounds[pid].name];
    var mid := Next(Next(c, Act(pid, BootGetWorkspace)), Act(pid, BootGetVm));
    AfterBootReads(c, pid);
    ReadsKeepInv(c, pid);
    AfterDocument(mid, pid, ws, token);
    IssuedIsOutcome(c, mid, BootAlone(c, pid, token), pid, token);
  }

  lemma BootFails(c: Cluster, pid: nat, token: string)
    requires pid in c.rounds && c.rounds[pid].phase.Working? && !CanIssue(c, c.rounds[pid])
    ensures BootOutcome(c, BootAlone(c, pid, token), pid, token)
  {
    var c2 := Next(Next(c, Act(pid, BootGetWorkspace)), Act(pid, BootGetVm));
    AfterBootReads(c, pid);
    FailedRoundRests(c2, pid, BootGetDocument);
    FailedRoundRests(c2, pid, BootPut(token));
  }

  lemma BootInState(c: Cluster, pid: nat, token: string)
    requires Inv(c) && pid in c.rounds && c.rounds[pid].phase.Working?
    ensures BootOutcome(c, BootAlone(c, pid, token), pid, token)
  {
    if CanIssue(c, c.rounds[pid]) {
      BootSucceeds(c, pid, token);
    } else {
      BootFails(c, pid, token);
    }
  }

  lemma FailedRoundRests(c: Cluster, pid: nat, a: Action)
    requires pid in c.rounds && c.rounds[pid].phase.Failed? && (a.BootGetDocument? || a.BootPut?)
    ensures Next(c, Act(pid, a)) == c
  {
    assert c.rounds[pid := c.rounds[pid]] == c.rounds;
  }

  /**
   The check of a document that is found, whatever it holds and whoever wrote it: it is accepted if and only if it is
   for this Workspace, VM and settled epoch, and its expiry is set and at most fifteen minutes away.
   */
  lemma DocumentCheckExactly(c: Cluster, r: Round)
    requires r.phase.BootReadSecret? && r.phase.ws.body.execution.Some? && r.phase.ws.body.execution.value.epoch >= 0
    requires NameFor(r.phase.ws.uid, r.vmUid, r.phase.ws.body.execution.value.epoch) in c.registry.documents
    ensures var ws := r.phase.ws;
            var x := ws.body.execution.value;
            var doc := c.registry.documents[NameFor(ws.uid, r.vmUid, x.epoch)];
            var accepted := && doc.workspace == r.name && doc.workspaceUid == ws.uid && doc.vmUid == r.vmUid && x.vmUid == r.vmUid
                            && doc.epoch == x.epoch && doc.expires != 0 && doc.expires <= c.registry.now + 15 * 60 * 1000000;
            Perform(c, r, BootGetDocument) == Effect(c.core, c.registry, r.(phase := if accepted then Working else Failed))
  {
    NameIsIdentity(r.phase.ws.uid, r.vmUid, r.phase.ws.body.execution.value.epoch);
  }

  // ---------------------------------------------------------------- both, as reconcileManagementIdentity runs them

  /** Settling the epoch makes the document possible: together they succeed exactly when the epoch can be settled and nothing is pending. */
  lemma IdentityExactly(trace: seq<Event>, pid: nat, token: string)
    requires pid in Run(EMPTY, trace).rounds && Run(EMPTY, trace).rounds[pid].phase.Working?
    ensures var c := Run(EMPTY, trace);
            var r, mid := c.rounds[pid], EpochAlone(c, pid);
            && pid in mid.rounds
            && (mid.rounds[pid].phase.Working? <==> CanSettle(c, r))
            && (CanSettle(c, r) ==>
                  var d := BootAlone(mid, pid, token);
                  var ws := c.core.workspaces.objects[r.name];
                  && pid in d.rounds
                  && (d.rounds[pid].phase.Working? <==> !ws.body.pending)
                  && (!ws.body.pending ==> NameFor(r.uid, r.vmUid, Due(ws.body)) in d.registry.documents))
  {
    var c := Run(EMPTY, trace);
    RunKeepsInv(trace);
    EpochExactly(c, pid);
    var mid := EpochAlone(c, pid);
    StepKeepsInv(c, Act(pid, EpochGetWorkspace));
    StepKeepsInv(Next(c, Act(pid, EpochGetWorkspace)), Act(pid, EpochGetVm));
    StepKeepsInv(Next(Next(c, Act(pid, EpochGetWorkspace)), Act(pid, EpochGetVm)), Act(pid, EpochPut));
    if CanSettle(c, c.rounds[pid]) {
      BootInState(mid, pid, token);
    }
  }

  // ---------------------------------------------------------------- numerals

  /** The number a decimal numeral stands for. */
  function Value(s: string): int {
    if s == "" then 0 else Value(s[..|s| - 1]) * 10 + (s[|s| - 1] as int - '0' as int)
  }

  predicate IsDigit(c: char) {
    '0' <= c <= '9'
  }

  /** Numerals are decimal, without a sign or leading zeros, and mean the number. */
  lemma {:induction false} DigitsAreDecimal(n: nat)
    ensures Value(Digits(n)) == n && |Digits(n)| > 0
    ensures forall c <- Digits(n) :: IsDigit(c)
    ensures Digits(n)[0] == '0' ==> n == 0
  {
    var s := Digits(n);
    if n >= 10 {
      DigitsAreDecimal(n / 10);
      assert s[..|s| - 1] == Digits(n / 10);
    } else {
      assert s[..0] == "";
    }
  }
}
