/**
 How the computed cloud-init user-data reaches a Linux VM: inlined in the VM's volume up to
 2048 bytes, through an owned Secret above that (cloudInitVolume, reconcileCloudInitSecret and
 the VM write in internal/controller/workspace_controller.go). Characters stand for bytes.
 */
module CloudInitDelivery {
  import opened ApiServer
  import opened VmComparison

  const INLINE_MAX := 2048
  const SECRET_KEY := "userdata"
  const NO_CLOUD := "cloudInitNoCloud"
  const VOLUMES := POD + [Key("volumes")]

  type Secrets = map<string, map<string, string>>

  function SecretName(workspace: string): string {
    workspace + "-cloudinit"
  }

  function Volume(name: string, kind: string, source: Json): Json {
    Obj(map["name" := Str(name), kind := source])
  }

  function CloudInitVolume(workspace: string, data: string): Json {
    Volume("cloudinitdisk", NO_CLOUD,
           if |data| > INLINE_MAX then Obj(map["secretRef" := Obj(map["name" := Str(SecretName(workspace))])])
           else Obj(map["userData" := Str(data)]))
  }

  /** Root disk first, then the seed if there is any, then the data disks. */
  function DesiredVolumes(root: Json, workspace: string, data: string, mounts: seq<Json>): seq<Json> {
    [root] + (if data == "" then [] else [CloudInitVolume(workspace, data)]) + mounts
  }

  /** A volume with a name and one source that is not a cloud-init seed: the root and the data disks. */
  ghost predicate PlainVolume(v: Json) {
    exists name, kind, source :: kind != "name" && kind != NO_CLOUD && v == Volume(name, kind, source)
  }

  ghost predicate SeedVolume(v: Json, workspace: string) {
    exists data :: data != "" && v == CloudInitVolume(workspace, data)
  }

  ghost predicate WellFormed(vs: seq<Json>, workspace: string) {
    forall v <- vs :: PlainVolume(v) || SeedVolume(v, workspace)
  }

  // ---------------------------------------------------------------- what the guest reads

  /** The NoCloud datasource: inline text, or the userdata key of the referenced Secret. */
  function Resolve(source: Json, secrets: Secrets): Option<string> {
    if !source.Obj? then None
    else if "userData" in source.fields then
      if source.fields["userData"].Str? then Some(source.fields["userData"].s) else None
    else if "secretRef" in source.fields && source.fields["secretRef"].Obj?
            && "name" in source.fields["secretRef"].fields && source.fields["secretRef"].fields["name"].Str? then
      var name := source.fields["secretRef"].fields["name"].s;
      if name in secrets && SECRET_KEY in secrets[name] then Some(secrets[name][SECRET_KEY]) else None
    else None
  }

  /** The source of the first cloud-init volume. */
  function Source(volumes: seq<Json>): Option<Json> {
    if volumes == [] then None
    else if volumes[0].Obj? && NO_CLOUD in volumes[0].fields then Some(volumes[0].fields[NO_CLOUD])
    else Source(volumes[1..])
  }

  /** The seed the guest reads; "" when the VM has no datasource. */
  function Seed(volumes: seq<Json>, secrets: Secrets): Option<string> {
    var source := Source(volumes);
    if source.None? then Some("") else Resolve(source.value, secrets)
  }

  // ---------------------------------------------------------------- the controller's writes

  /** The Secret exists, with exactly the user-data, only above the inline limit. */
  function SecretsAfter(secrets: Secrets, workspace: string, data: string): Secrets {
    if |data| <= INLINE_MAX then secrets - {SecretName(workspace)}
    else secrets[SecretName(workspace) := map[SECRET_KEY := data]]
  }

  class Namespace {
    var secrets: Secrets
    var vm: Option<Json>

    /** reconcileCloudInitSecret. */
    method ReconcileCloudInitSecret(workspace: string, data: string)
      modifies `secrets
      ensures secrets == SecretsAfter(old(secrets), workspace, data)
      ensures forall name :: name != workspace + "-cloudinit" ==>
                (name in secrets <==> name in old(secrets)) && (name in secrets && name in old(secrets) ==> secrets[name] == old(secrets)[name])
    {
      var name := SecretName(workspace);
      if |data| <= INLINE_MAX {
        if name !in secrets {
          return;
        }
        secrets := secrets - {name};
        return;
      }
      var wanted := map[SECRET_KEY := data];
      if name !in secrets {
        secrets := secrets[name := wanted];
      } else if secrets[name] != wanted {
        secrets := secrets[name := wanted];
      }
    }

    /** The create-or-update part of reconcileVirtualMachine: afterwards the comparison is quiet, and only the spec was replaced, if at all. */
    method ReconcileVm(desired: Json)
      requires vm.Some? ==> vm.value.Obj?
      modifies `vm
      ensures vm == Some(if old(vm).None? then desired else Converge(desired, old(vm).value))
      ensures !NeedsUpdate(desired, vm.value)
      ensures old(vm).Some? && !NeedsUpdate(desired, old(vm).value) ==> vm == old(vm)
      ensures old(vm).Some? ==> vm.value.Obj? && forall k <- old(vm).value.fields ::
                k != "spec" ==> k in vm.value.fields && vm.value.fields[k] == old(vm).value.fields[k]
    {
      QuietReflexive(desired);
      if vm.None? {
        vm := Some(desired);
      } else if NeedsUpdate(desired, vm.value) {
        QuietAfterUpdate(desired, vm.value);
        vm := Some(WithSpecOf(vm.value, desired));
      }
    }
  }

  // ---------------------------------------------------------------- quiet volumes deliver the same seed

  lemma SameKindVolumes(d: Json, c: Json, workspace: string)
    requires PlainVolume(d) || SeedVolume(d, workspace)
    requires PlainVolume(c) || SeedVolume(c, workspace)
    requires Derivative(d, c)
    ensures d.Obj? && c.Obj? && (NO_CLOUD in d.fields <==> NO_CLOUD in c.fields)
    ensures NO_CLOUD in d.fields ==> d.fields[NO_CLOUD] == c.fields[NO_CLOUD]
  {
    if SeedVolume(d, workspace) {
      var data :| data != "" && d == CloudInitVolume(workspace, data);
      assert NO_CLOUD in d.fields && NO_CLOUD in c.fields;
      assert !PlainVolume(c);
      var other :| other != "" && c == CloudInitVolume(workspace, other);
      assert Derivative(d.fields[NO_CLOUD], c.fields[NO_CLOUD]);
      if |data| > INLINE_MAX {
        assert "secretRef" in d.fields[NO_CLOUD].fields;
      } else {
        assert "userData" in d.fields[NO_CLOUD].fields;
      }
    } else {
      var name, kind, source :| kind != "name" && kind != NO_CLOUD && d == Volume(name, kind, source);
      assert kind in d.fields && kind in c.fields;
    }
  }

  lemma {:induction false} QuietVolumesSameSource(d: seq<Json>, c: seq<Json>, workspace: string)
    requires |d| == |c| && WellFormed(d, workspace) && WellFormed(c, workspace)
    requires forall i :: 0 <= i < |d| ==> Derivative(d[i], c[i])
    ensures Source(d) == Source(c)
  {
    if d != [] {
      assert d[0] in d && c[0] in c;
      SameKindVolumes(d[0], c[0], workspace);
      assert forall i :: 0 <= i < |d[1..]| ==> d[1..][i] == d[i + 1] && c[1..][i] == c[i + 1];
      QuietVolumesSameSource(d[1..], c[1..], workspace);
    }
  }

  lemma {:induction false} PlainVolumesHaveNoSource(vs: seq<Json>)
    requires forall v <- vs :: PlainVolume(v)
    ensures Source(vs) == None
  {
    if vs != [] {
      assert PlainVolume(vs[0]);
      PlainVolumesHaveNoSource(vs[1..]);
    }
  }

  lemma DesiredSource(root: Json, workspace: string, data: string, mounts: seq<Json>)
    requires PlainVolume(root) && forall v <- mounts :: PlainVolume(v)
    ensures Source(DesiredVolumes(root, workspace, data, mounts)) ==
            if data == "" then None else Some(CloudInitVolume(workspace, data).fields[NO_CLOUD])
  {
    var volumes := DesiredVolumes(root, workspace, data, mounts);
    assert PlainVolume(root);
    if data == "" {
      assert volumes == [root] + mounts;
      PlainVolumesHaveNoSource(volumes);
    } else {
      var seed := CloudInitVolume(workspace, data);
      assert volumes[1..] == [seed] + mounts;
      assert Source(volumes) == Source(volumes[1..]) == Some(seed.fields[NO_CLOUD]);
    }
  }

  /** The desired volumes, read against the Secret this round wrote, give back the user-data. */
  lemma DesiredSeed(root: Json, workspace: string, data: string, mounts: seq<Json>, before: Secrets)
    requires PlainVolume(root) && forall v <- mounts :: PlainVolume(v)
    ensures Seed(DesiredVolumes(root, workspace, data, mounts), SecretsAfter(before, workspace, data)) == Some(data)
  {
    DesiredSource(root, workspace, data, mounts);
  }

  // ---------------------------------------------------------------- runs

  /** Inputs of one reconcile: the computed user-data and the VM generated from it. */
  datatype Round = Round(root: Json, data: string, mounts: seq<Json>, desired: Json)

  ghost predicate Generated(r: Round, workspace: string) {
    && PlainVolume(r.root) && (forall v <- r.mounts :: PlainVolume(v))
    && r.desired.Obj?
    && ListAt(r.desired, VOLUMES) == DesiredVolumes(r.root, workspace, r.data, r.mounts)
  }

  datatype Event =
    | Reconcile(round: Round)
    | CrashAfterSecret(round: Round)
    | ServerWrite(vm: Json)

  datatype State = State(secrets: Secrets, vm: Option<Json>)

  /** The API server, KubeVirt and other writers may change anything in the VM but its volumes. */
  ghost function Next(s: State, e: Event, workspace: string): State {
    match e
    case Reconcile(r) =>
      if !Generated(r, workspace) || (s.vm.Some? && !s.vm.value.Obj?) then s
      else State(SecretsAfter(s.secrets, workspace, r.data),
                 Some(if s.vm.None? then r.desired else Converge(r.desired, s.vm.value)))
    case CrashAfterSecret(r) => s.(secrets := SecretsAfter(s.secrets, workspace, r.data))
    case ServerWrite(vm) =>
      if s.vm.Some? && vm.Obj? && ListAt(vm, VOLUMES) == ListAt(s.vm.value, VOLUMES) then s.(vm := Some(vm)) else s
  }

  ghost function Run(s: State, trace: seq<Event>, workspace: string): State {
    if trace == [] then s else Next(Run(s, trace[..|trace| - 1], workspace), trace[|trace| - 1], workspace)
  }

  ghost predicate Inv(s: State, workspace: string) {
    s.vm.Some? ==> s.vm.value.Obj? && WellFormed(ListAt(s.vm.value, VOLUMES), workspace)
  }

  lemma GeneratedIsWellFormed(r: Round, workspace: string)
    requires Generated(r, workspace)
    ensures WellFormed(ListAt(r.desired, VOLUMES), workspace)
  {
    forall v | v in ListAt(r.desired, VOLUMES)
      ensures PlainVolume(v) || SeedVolume(v, workspace)
    {
      if r.data != "" && v == CloudInitVolume(workspace, r.data) {
        assert SeedVolume(v, workspace);
      }
    }
  }

  lemma ConvergedVolumes(r: Round, current: Json, workspace: string)
    requires current.Obj? && Generated(r, workspace) && WellFormed(ListAt(current, VOLUMES), workspace)
    ensures WellFormed(ListAt(Converge(r.desired, current), VOLUMES), workspace)
    ensures Source(ListAt(Converge(r.desired, current), VOLUMES)) == Source(ListAt(r.desired, VOLUMES))
  {
    GeneratedIsWellFormed(r, workspace);
    if NeedsUpdate(r.desired, current) {
      WrittenSpecReadsAlike(current, r.desired, VOLUMES);
    } else {
      assert VOLUMES == OWNED[1] && VOLUMES in OWNED;
      assert ListMatches(r.desired, current, VOLUMES);
      QuietVolumesSameSource(ListAt(r.desired, VOLUMES), ListAt(current, VOLUMES), workspace);
    }
  }

  lemma {:induction false} RunKeepsInv(s: State, trace: seq<Event>, workspace: string)
    requires Inv(s, workspace)
    ensures Inv(Run(s, trace, workspace), workspace)
  {
    if trace != [] {
      var n := |trace| - 1;
      RunKeepsInv(s, trace[..n], workspace);
      var before := Run(s, trace[..n], workspace);
      if trace[n].Reconcile? && Generated(trace[n].round, workspace) {
        GeneratedIsWellFormed(trace[n].round, workspace);
        if before.vm.Some? {
          ConvergedVolumes(trace[n].round, before.vm.value, workspace);
        }
      }
    }
  }

  /** After a completed reconcile the VM's volumes have the source this round generated. */
  lemma ReconciledSource(workspace: string, trace: seq<Event>, r: Round)
    requires Generated(r, workspace)
    ensures var before, s := Run(State(map[], None), trace, workspace), Run(State(map[], None), trace + [Reconcile(r)], workspace);
            && s.vm.Some? && s.secrets == SecretsAfter(before.secrets, workspace, r.data)
            && Source(ListAt(s.vm.value, VOLUMES)) ==
               if r.data == "" then None else Some(CloudInitVolume(workspace, r.data).fields[NO_CLOUD])
  {
    var start := State(map[], None);
    var longer := trace + [Reconcile(r)];
    assert longer[..|trace|] == trace;
    RunKeepsInv(start, trace, workspace);
    var before := Run(start, trace, workspace);
    DesiredSource(r.root, workspace, r.data, r.mounts);
    if before.vm.Some? {
      ConvergedVolumes(r, before.vm.value, workspace);
    }
  }

  /**
   After a completed reconcile, whatever happened before it (crashes between the two writes, user-data
   crossing the limit in either direction, server defaulting), the guest reads the computed user-data.
   */
  lemma SeedIsDelivered(workspace: string, trace: seq<Event>, r: Round)
    requires Generated(r, workspace)
    ensures var s := Run(State(map[], None), trace + [Reconcile(r)], workspace);
            s.vm.Some? && Seed(ListAt(s.vm.value, VOLUMES), s.secrets) == Some(r.data)
  {
    ReconciledSource(workspace, trace, r);
  }

  /** Every Secret of another name is as it was. */
  ghost predicate OtherSecretsSame(before: Secrets, after: Secrets, workspace: string) {
    forall name :: name != workspace + "-cloudinit" ==>
      (name in after <==> name in before) && (name in after && name in before ==> after[name] == before[name])
  }

  /** Inline user-data within the limit KubeVirt admits. */
  predicate InlineWithinLimit(source: Json) {
    source.Obj? && "userData" in source.fields && source.fields["userData"].Str? && |source.fields["userData"].s| <= 2048
  }

  predicate RefersTo(source: Json, secret: string) {
    source == Obj(map["secretRef" := Obj(map["name" := Str(secret)])])
  }

  /**
   After any such history the VM refers to the Secret exactly when the Secret exists, so nothing dangles and no
   stale copy of the user-data is left; and what is inline is within the limit.
   */
  lemma SecretExactlyWhenReferred(workspace: string, trace: seq<Event>, r: Round)
    requires Generated(r, workspace)
    ensures var s := Run(State(map[], None), trace + [Reconcile(r)], workspace);
            && s.vm.Some?
            && var source := Source(ListAt(s.vm.value, VOLUMES));
               && (SecretName(workspace) in s.secrets <==> source.Some? && RefersTo(source.value, SecretName(workspace)))
               && (SecretName(workspace) in s.secrets ==> s.secrets[SecretName(workspace)] == map[SECRET_KEY := r.data])
               && (source.Some? ==> RefersTo(source.value, SecretName(workspace)) || InlineWithinLimit(source.value))
               && (SecretName(workspace) in s.secrets <==> |r.data| > 2048) && SecretName(workspace) == workspace + "-cloudinit"
               && OtherSecretsSame(Run(State(map[], None), trace, workspace).secrets, s.secrets, workspace)
  {
    ReconciledSource(workspace, trace, r);
    if r.data != "" {
      var source := CloudInitVolume(workspace, r.data).fields[NO_CLOUD];
      if |r.data| <= INLINE_MAX {
        assert "userData" in source.fields && "userData" !in map["secretRef" := Obj(map["name" := Str(SecretName(workspace))])];
      }
    }
  }
}
