/**
 The status a reconcile writes for a Windows workspace (updateWorkspaceStatus and
 windowsStatusConditions): pod conditions are mirrored, Ready is recomputed, and timestamps of
 conditions that did not change are carried over so that writing the status does not trigger
 another write.
 */
module WindowsStatus {
  type Time = int

  datatype Condition = Condition(kind: string, status: string, reason: string, message: string, transition: Time, probe: Time)

  datatype Status = Status(conditions: seq<Condition>, readyReplicas: nat, containerState: string, execution: string)

  const READY := "Ready"

  /** Everything but the timestamps. */
  predicate SameMeaning(a: Condition, b: Condition) {
    a.kind == b.kind && a.status == b.status && a.reason == b.reason && a.message == b.message
  }

  function WithTimes(c: Condition, times: Condition): Condition {
    c.(transition := times.transition, probe := times.probe)
  }

  function ReadyCondition(replicas: nat, now: Time): Condition {
    if replicas > 0 then Condition(READY, "True", "WindowsReady", "Windows setup and bootstrap removal completed", now, now)
    else Condition(READY, "False", "WindowsProvisioning",
                   "Waiting for Windows native setup, guest agent and bootstrap removal", now, now)
  }

  function NotReady(cs: seq<Condition>): seq<Condition> {
    if cs == [] then []
    else if cs[0].kind == READY then NotReady(cs[1..])
    else [cs[0]] + NotReady(cs[1..])
  }

  /** The inner loop: every stored condition of the same meaning hands over its times, the last one wins. */
  function Stable(c: Condition, stored: seq<Condition>): Condition {
    if stored == [] then c
    else
      var last := stored[|stored| - 1];
      if SameMeaning(c, last) then WithTimes(c, last) else Stable(c, stored[..|stored| - 1])
  }

  function Mirrored(pod: seq<Condition>, replicas: nat, now: Time): seq<Condition> {
    NotReady(pod) + [ReadyCondition(replicas, now)]
  }

  function NextConditions(stored: seq<Condition>, pod: seq<Condition>, replicas: nat, now: Time): seq<Condition> {
    var mirrored := Mirrored(pod, replicas, now);
    seq(|mirrored|, i requires 0 <= i < |mirrored| => Stable(mirrored[i], stored))
  }

  lemma StableMeaning(c: Condition, stored: seq<Condition>)
    ensures SameMeaning(Stable(c, stored), c)
  {
  }

  lemma {:induction false} StableDependsOnMeaning(a: Condition, b: Condition, stored: seq<Condition>)
    requires SameMeaning(a, b)
    requires exists s <- stored :: SameMeaning(a, s)
    ensures Stable(a, stored) == Stable(b, stored)
  {
    var n := |stored| - 1;
    if !SameMeaning(a, stored[n]) {
      assert stored == stored[..n] + [stored[n]];
      StableDependsOnMeaning(a, b, stored[..n]);
    }
  }

  /** Inner loop of windowsStatusConditions. */
  method CarryTimes(computed: Condition, stored: seq<Condition>) returns (current: Condition)
    ensures current == Stable(computed, stored)
  {
    current := computed;
    for j := 0 to |stored|
      invariant current == Stable(computed, stored[..j])
    {
      StableMeaning(computed, stored[..j]);
      assert stored[..j + 1][..j] == stored[..j];
      if SameMeaning(current, stored[j]) {
        current := WithTimes(current, stored[j]);
      }
    }
    assert stored[..|stored|] == stored;
  }

  method DropReady(pod: seq<Condition>) returns (filtered: seq<Condition>)
    ensures filtered == NotReady(pod)
  {
    filtered := [];
    for i := 0 to |pod|
      invariant NotReady(pod) == filtered + NotReady(pod[i..])
    {
      assert pod[i..][1..] == pod[i + 1..];
      if pod[i].kind != READY {
        filtered := filtered + [pod[i]];
      }
    }
  }

  /** windowsStatusConditions: filter, append Ready, carry timestamps over in place. */
  method WindowsStatusConditions(stored: seq<Condition>, pod: seq<Condition>, replicas: nat, now: Time)
    returns (conditions: seq<Condition>)
    ensures conditions == NextConditions(stored, pod, replicas, now)
  {
    var filtered := DropReady(pod);
    conditions := filtered + [ReadyCondition(replicas, now)];
    ghost var mirrored := conditions;
    for i := 0 to |conditions|
      invariant |conditions| == |mirrored|
      invariant forall k :: 0 <= k < i ==> conditions[k] == Stable(mirrored[k], stored)
      invariant forall k :: i <= k < |mirrored| ==> conditions[k] == mirrored[k]
    {
      var current := CarryTimes(conditions[i], stored);
      conditions := conditions[i := current];
    }
  }

  // ---------------------------------------------------------------- shape of the status

  function Count(cs: seq<Condition>, kind: string): nat {
    if cs == [] then 0 else Count(cs[..|cs| - 1], kind) + (if cs[|cs| - 1].kind == kind then 1 else 0)
  }

  lemma {:induction false} NotReadyShape(cs: seq<Condition>)
    ensures forall c <- NotReady(cs) :: c.kind != READY && c in cs
    ensures forall c <- cs :: c.kind != READY ==> c in NotReady(cs)
    ensures |NotReady(cs)| <= |cs|
  {
    if cs != [] {
      NotReadyShape(cs[1..]);
      assert cs == [cs[0]] + cs[1..];
    }
  }

  lemma {:induction false} CountZero(cs: seq<Condition>, kind: string)
    requires forall c <- cs :: c.kind != kind
    ensures Count(cs, kind) == 0
  {
    if cs != [] {
      CountZero(cs[..|cs| - 1], kind);
    }
  }

  /** Exactly one Ready condition, in last place and telling the truth; the pod's other conditions in their order. */
  lemma ExactlyOneReady(stored: seq<Condition>, pod: seq<Condition>, replicas: nat, now: Time)
    ensures var cs := NextConditions(stored, pod, replicas, now);
            && Count(cs, READY) == 1
            && cs[|cs| - 1].kind == READY && (cs[|cs| - 1].status == "True" <==> replicas > 0)
            && |cs| == |NotReady(pod)| + 1
            && forall i :: 0 <= i < |NotReady(pod)| ==> SameMeaning(cs[i], NotReady(pod)[i])
  {
    var cs := NextConditions(stored, pod, replicas, now);
    var mirrored := Mirrored(pod, replicas, now);
    var n := |cs| - 1;
    NotReadyShape(pod);
    forall i | 0 <= i < |cs|
      ensures SameMeaning(cs[i], mirrored[i])
    {
      StableMeaning(mirrored[i], stored);
    }
    forall c | c in cs[..n]
      ensures c.kind != READY
    {
      var i :| 0 <= i < n && cs[i] == c;
      assert mirrored[i] == NotReady(pod)[i];
    }
    CountZero(cs[..n], READY);
  }

  // ---------------------------------------------------------------- no feedback loop

  /** Two stored conditions of the same meaning carry the same times. */
  ghost predicate TimesAgree(cs: seq<Condition>) {
    forall i, j :: 0 <= i < j < |cs| && SameMeaning(cs[i], cs[j]) ==> cs[i] == cs[j]
  }

  lemma {:induction false} StableFindsLast(c: Condition, cs: seq<Condition>, i: nat) returns (j: nat)
    requires i < |cs| && SameMeaning(c, cs[i])
    ensures i <= j < |cs| && Stable(c, cs) == cs[j] && SameMeaning(c, cs[j])
  {
    var n := |cs| - 1;
    if SameMeaning(c, cs[n]) {
      j := n;
    } else {
      j := StableFindsLast(c, cs[..n], i);
    }
  }

  /**
   With the same pod and readiness, the round after a write reproduces the stored conditions exactly when
   no two of them have the same meaning but different times.
   */
  lemma QuietExactly(stored: seq<Condition>, pod: seq<Condition>, replicas: nat, now: Time, later: Time)
    ensures var written := NextConditions(stored, pod, replicas, now);
            NextConditions(written, pod, replicas, later) == written <==> TimesAgree(written)
  {
    var written := NextConditions(stored, pod, replicas, now);
    var again := NextConditions(written, pod, replicas, later);
    var first, second := Mirrored(pod, replicas, now), Mirrored(pod, replicas, later);
    forall i | 0 <= i < |written|
      ensures SameMeaning(second[i], written[i]) && again[i] == Stable(second[i], written)
    {
      StableMeaning(first[i], stored);
    }
    if again == written {
      forall i, k | 0 <= i < k < |written| && SameMeaning(written[i], written[k])
        ensures written[i] == written[k]
      {
        StableDependsOnMeaning(second[i], second[k], written);
      }
    }
    if TimesAgree(written) {
      forall i | 0 <= i < |written|
        ensures again[i] == written[i]
      {
        var j := StableFindsLast(second[i], written, i);
      }
    }
  }

  /** A pod that reports one condition twice at different times keeps the status changing: the loop is then real. */
  lemma TwiceReportedIsNotQuiet(first: Time, second: Time, now: Time, later: Time)
    requires first != second
    ensures var pod := [Condition("Initialized", "True", "", "", first, first), Condition("Initialized", "True", "", "", second, second)];
            var written := NextConditions([], pod, 0, now);
            NextConditions(written, pod, 0, later) != written
  {
    var a, b := Condition("Initialized", "True", "", "", first, first), Condition("Initialized", "True", "", "", second, second);
    var pod := [a, b];
    assert pod[1..] == [b] && [b][1..] == [];
    assert NotReady([b]) == [b] + NotReady([]) == [b];
    assert NotReady(pod) == [a] + NotReady([b]) == [a, b];
    var written := NextConditions([], pod, 0, now);
    assert written[0] == a && written[1] == b;
    assert !TimesAgree(written);
    QuietExactly([], pod, 0, now, later);
  }

  ghost predicate UniqueKinds(cs: seq<Condition>) {
    forall i, j :: 0 <= i < j < |cs| ==> cs[i].kind != cs[j].kind
  }

  lemma {:induction false} NotReadyUnique(cs: seq<Condition>)
    requires UniqueKinds(cs)
    ensures UniqueKinds(NotReady(cs))
  {
    if cs != [] {
      NotReadyUnique(cs[1..]);
      NotReadyShape(cs[1..]);
    }
  }

  function NextStatus(stored: Status, pod: seq<Condition>, replicas: nat, containerState: string, now: Time): Status {
    Status(NextConditions(stored.conditions, pod, replicas, now), replicas, containerState, stored.execution)
  }

  /** Kubernetes pods report each condition type once: then no status-watch loop, at any later time. */
  lemma NoStatusLoop(stored: Status, pod: seq<Condition>, replicas: nat, containerState: string, now: Time, later: Time)
    requires UniqueKinds(pod)
    ensures var written := NextStatus(stored, pod, replicas, containerState, now);
            NextStatus(written, pod, replicas, containerState, later) == written
  {
    var written := NextConditions(stored.conditions, pod, replicas, now);
    var mirrored := Mirrored(pod, replicas, now);
    NotReadyUnique(pod);
    NotReadyShape(pod);
    forall i | 0 <= i < |written|
      ensures written[i].kind == mirrored[i].kind
    {
      StableMeaning(mirrored[i], stored.conditions);
    }
    forall i, j | 0 <= i < j < |written|
      ensures written[i].kind != written[j].kind
    {
      assert mirrored[i] in NotReady(pod);
    }
    QuietExactly(stored.conditions, pod, replicas, now, later);
  }

  // ---------------------------------------------------------------- the written status, field by field

  /** The positions of the pod's conditions other than Ready, in their order. */
  function Kept(pod: seq<Condition>): seq<nat> {
    if pod == [] then []
    else Kept(pod[..|pod| - 1]) + (if pod[|pod| - 1].kind == "Ready" then [] else [|pod| - 1])
  }

  lemma {:induction false} KeptIsOrdered(pod: seq<Condition>)
    ensures forall i :: 0 <= i < |Kept(pod)| ==> Kept(pod)[i] < |pod| && pod[Kept(pod)[i]].kind != "Ready"
    ensures forall i, j :: 0 <= i < j < |Kept(pod)| ==> Kept(pod)[i] < Kept(pod)[j]
  {
    if pod != [] {
      KeptIsOrdered(pod[..|pod| - 1]);
    }
  }

  lemma {:induction false} KeptIsAll(pod: seq<Condition>, p: nat)
    requires p < |pod| && pod[p].kind != "Ready"
    ensures p in Kept(pod)
  {
    if p < |pod| - 1 {
      KeptIsAll(pod[..|pod| - 1], p);
    }
  }

  lemma {:induction false} NotReadySnoc(cs: seq<Condition>, c: Condition)
    ensures NotReady(cs + [c]) == NotReady(cs) + (if c.kind == READY then [] else [c])
  {
    if cs == [] {
      assert cs + [c] == [c] && [c][1..] == [];
      assert NotReady([]) == [];
    } else {
      assert (cs + [c])[1..] == cs[1..] + [c] && (cs + [c])[0] == cs[0];
      NotReadySnoc(cs[1..], c);
    }
  }

  lemma {:induction false} NotReadyIsKept(pod: seq<Condition>)
    ensures |NotReady(pod)| == |Kept(pod)|
    ensures forall i :: 0 <= i < |Kept(pod)| ==> Kept(pod)[i] < |pod| && NotReady(pod)[i] == pod[Kept(pod)[i]]
  {
    if pod != [] {
      var n := |pod| - 1;
      NotReadyIsKept(pod[..n]);
      NotReadySnoc(pod[..n], pod[n]);
      assert pod == pod[..n] + [pod[n]];
    }
  }

  /** The same condition in type, status, reason and message. */
  predicate Alike(a: Condition, b: Condition) {
    a.kind == b.kind && a.status == b.status && a.reason == b.reason && a.message == b.message
  }

  /** `c` is `computed` with the times of the last stored condition like it, if there is one. */
  ghost predicate TimesCarried(c: Condition, computed: Condition, stored: seq<Condition>) {
    && Alike(c, computed)
    && (forall j :: 0 <= j < |stored| && Alike(stored[j], computed) && (forall k :: j < k < |stored| ==> !Alike(stored[k], computed)) ==>
          c.transition == stored[j].transition && c.probe == stored[j].probe)
    && ((forall j :: 0 <= j < |stored| ==> !Alike(stored[j], computed)) ==> c == computed)
  }

  lemma {:induction false} StableCarries(c: Condition, stored: seq<Condition>)
    ensures TimesCarried(Stable(c, stored), c, stored)
  {
    StableMeaning(c, stored);
    if stored != [] {
      var n := |stored| - 1;
      var before := stored[..n];
      StableCarries(c, before);
      if !SameMeaning(c, stored[n]) {
        assert forall j :: 0 <= j < n ==> before[j] == stored[j];
        assert !Alike(stored[n], c);
      } else {
        assert Alike(stored[n], c);
      }
    }
  }

  /** The Ready condition for this readiness. */
  function ReadyText(replicas: nat, now: Time): Condition {
    if replicas > 0 then Condition("Ready", "True", "WindowsReady", "Windows setup and bootstrap removal completed", now, now)
    else Condition("Ready", "False", "WindowsProvisioning", "Waiting for Windows native setup, guest agent and bootstrap removal", now, now)
  }

  /** `at` lists exactly the positions of the pod's conditions other than Ready, in increasing order. */
  ghost predicate ListsOthers(at: seq<nat>, pod: seq<Condition>) {
    && (forall p: nat :: p in at <==> p < |pod| && pod[p].kind != "Ready")
    && (forall i, j :: 0 <= i < j < |at| ==> at[i] < at[j])
  }

  ghost predicate ConditionsAre(cs: seq<Condition>, stored: seq<Condition>, pod: seq<Condition>, at: seq<nat>, ready: Condition) {
    && ListsOthers(at, pod) && |cs| == |at| + 1
    && (forall i :: 0 <= i < |at| ==> at[i] < |pod| && TimesCarried(cs[i], pod[at[i]], stored))
    && TimesCarried(cs[|at|], ready, stored)
  }

  lemma KeptLists(pod: seq<Condition>)
    ensures ListsOthers(Kept(pod), pod)
  {
    KeptIsOrdered(pod);
    forall p: nat | p < |pod| && pod[p].kind != "Ready"
      ensures p in Kept(pod)
    {
      KeptIsAll(pod, p);
    }
  }

  lemma ConditionsExactly(stored: seq<Condition>, pod: seq<Condition>, replicas: nat, now: Time)
    ensures ConditionsAre(NextConditions(stored, pod, replicas, now), stored, pod, Kept(pod), ReadyText(replicas, now))
  {
    var mirrored := Mirrored(pod, replicas, now);
    NotReadyIsKept(pod);
    KeptLists(pod);
    forall i | 0 <= i < |mirrored|
      ensures TimesCarried(Stable(mirrored[i], stored), mirrored[i], stored)
    {
      StableCarries(mirrored[i], stored);
    }
  }

  /**
   The whole written status, for every pod and every stored status: the pod's conditions other than Ready in their
   order, then one Ready condition with the text for this readiness; the times of each are those of the last stored
   condition alike, or new; replicas and container state are this round's, and the execution is kept.
   */
  lemma StatusExactly(stored: Status, pod: seq<Condition>, replicas: nat, containerState: string, now: Time)
    ensures var d := NextStatus(stored, pod, replicas, containerState, now);
            && d.readyReplicas == replicas && d.containerState == containerState && d.execution == stored.execution
            && ConditionsAre(d.conditions, stored.conditions, pod, Kept(pod), ReadyText(replicas, now))
  {
    ConditionsExactly(stored.conditions, pod, replicas, now);
  }
}
