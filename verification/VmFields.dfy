/**
 What virtualMachineNeedsUpdate (internal/controller/workspace_controller.go) looks at, spelt out field by field: an
 independent reading of the comparison in `VmComparison`.
 */
module VmFields {
  import opened ApiServer
  import opened VmComparison

  /** The value under nested keys. */
  function Reach(t: Json, keys: seq<string>): Option<Json> {
    if keys == [] then Some(t)
    else if t.Obj? && keys[0] in t.fields then Reach(t.fields[keys[0]], keys[1..])
    else None
  }

  function ListUnder(t: Json, keys: seq<string>): seq<Json> {
    match Reach(t, keys)
    case Some(Arr(elems)) => elems
    case _ => []
  }

  predicate HasObject(t: Json, keys: seq<string>) {
    Reach(t, keys).Some? && Reach(t, keys).value.Obj?
  }

  function ObjectUnder(t: Json, keys: seq<string>): Json {
    if HasObject(t, keys) then Reach(t, keys).value else Obj(map[])
  }

  /** Equally many elements, and every demand of a desired one is met at the same place of its counterpart. */
  ghost predicate SameItems(d: Json, c: Json, keys: seq<string>) {
    && |ListUnder(d, keys)| == |ListUnder(c, keys)|
    && forall i :: 0 <= i < |ListUnder(d, keys)| ==> PathwiseDerivative(ListUnder(d, keys)[i], ListUnder(c, keys)[i])
  }

  ghost predicate Delivered(d: Json, c: Json, keys: seq<string>) {
    PathwiseDerivative(ObjectUnder(d, keys), ObjectUnder(c, keys))
  }

  predicate IsOn(t: Json) {
    Reach(t, ["spec", "running"]) == Some(Bool(true))
  }

  // ---------------------------------------------------------------- the two ways of naming a place agree

  function Hops(keys: seq<string>): seq<Hop> {
    if keys == [] then [] else [Key(keys[0])] + Hops(keys[1..])
  }

  lemma {:induction false} ReachIsLookup(t: Json, keys: seq<string>)
    ensures Lookup(t, Hops(keys)) == Reach(t, keys)
  {
    if keys != [] {
      assert Hops(keys)[1..] == Hops(keys[1..]);
      if t.Obj? && keys[0] in t.fields {
        ReachIsLookup(t.fields[keys[0]], keys[1..]);
      }
    }
  }

  lemma ListReads(d: Json, c: Json, keys: seq<string>)
    ensures ListMatches(d, c, Hops(keys)) <==> SameItems(d, c, keys)
  {
    ReachIsLookup(d, keys);
    ReachIsLookup(c, keys);
    var ds, cs := ListUnder(d, keys), ListUnder(c, keys);
    assert ListAt(d, Hops(keys)) == ds && ListAt(c, Hops(keys)) == cs;
    forall i | 0 <= i < |ds| && |ds| == |cs|
      ensures Derivative(ds[i], cs[i]) <==> PathwiseDerivative(ds[i], cs[i])
    {
      DerivativeIsPathwise(ds[i], cs[i]);
    }
  }

  lemma ObjectReads(d: Json, c: Json, keys: seq<string>)
    ensures MapFound(d, Hops(keys)) == HasObject(d, keys) && MapFound(c, Hops(keys)) == HasObject(c, keys)
    ensures Derivative(Obj(MapAt(d, Hops(keys))), Obj(MapAt(c, Hops(keys)))) <==> Delivered(d, c, keys)
  {
    ReachIsLookup(d, keys);
    ReachIsLookup(c, keys);
    DerivativeIsPathwise(ObjectUnder(d, keys), ObjectUnder(c, keys));
  }

  lemma Hops2(a: string, b: string)
    ensures Hops([a, b]) == [Key(a), Key(b)]
  {
    assert [a, b][1..] == [b] && [b][1..] == [];
    assert Hops([b]) == [Key(b)];
  }

  lemma Hops4(a: string, b: string, c: string, d: string)
    ensures Hops([a, b, c, d]) == [Key(a), Key(b), Key(c), Key(d)]
  {
    assert [a, b, c, d][1..] == [b, c, d] && [b, c, d][1..] == [c, d];
    Hops2(c, d);
    assert Hops([b, c, d]) == [Key(b)] + Hops([c, d]);
  }

  lemma HopsOfDevice(x: string)
    ensures Hops(["spec", "template", "spec", "domain", "devices", x]) == DEVICES + [Key(x)]
  {
    var keys := ["spec", "template", "spec", "domain", "devices", x];
    assert keys[1..] == ["template", "spec", "domain", "devices", x];
    assert keys[1..][1..] == ["spec", "domain", "devices", x];
    Hops4("spec", "domain", "devices", x);
    assert Hops(keys[1..]) == [Key("template")] + Hops(["spec", "domain", "devices", x]);
  }

  lemma HopsOfPod(x: string)
    ensures Hops(["spec", "template", "spec", x]) == POD + [Key(x)]
  {
    Hops4("spec", "template", "spec", x);
  }

  // ---------------------------------------------------------------- the comparison, field by field

  /** The lists the controller owns, by their keys. */
  const OWNED_LISTS: seq<seq<string>> := [
    ["spec", "template", "spec", "accessCredentials"],
    ["spec", "template", "spec", "volumes"],
    ["spec", "template", "spec", "networks"],
    ["spec", "template", "spec", "tolerations"],
    ["spec", "template", "spec", "domain", "devices", "disks"],
    ["spec", "template", "spec", "domain", "devices", "interfaces"],
    ["spec", "template", "spec", "domain", "devices", "inputs"],
    ["spec", "template", "spec", "domain", "devices", "gpus"],
    ["spec", "dataVolumeTemplates"]
  ]

  const SOUND_DEVICE := ["spec", "template", "spec", "domain", "devices", "sound"]

  /** The paths of the comparison are exactly these. */
  lemma OwnedAreThese()
    ensures |OWNED| == |OWNED_LISTS| && forall i :: 0 <= i < |OWNED| ==> OWNED[i] == Hops(OWNED_LISTS[i])
  {
    HopsOfPod("accessCredentials");
    HopsOfPod("volumes");
    HopsOfPod("networks");
    HopsOfPod("tolerations");
    HopsOfDevice("disks");
    HopsOfDevice("interfaces");
    HopsOfDevice("inputs");
    HopsOfDevice("gpus");
    Hops2("spec", "dataVolumeTemplates");
  }

  lemma OwnedLists(d: Json, c: Json)
    ensures (forall path <- OWNED :: ListMatches(d, c, path)) <==> (forall keys <- OWNED_LISTS :: SameItems(d, c, keys))
  {
    OwnedAreThese();
    if forall path <- OWNED :: ListMatches(d, c, path) {
      forall keys | keys in OWNED_LISTS
        ensures SameItems(d, c, keys)
      {
        var i :| 0 <= i < |OWNED_LISTS| && OWNED_LISTS[i] == keys;
        assert OWNED[i] in OWNED;
        ListReads(d, c, keys);
      }
    }
    if forall keys <- OWNED_LISTS :: SameItems(d, c, keys) {
      forall path | path in OWNED
        ensures ListMatches(d, c, path)
      {
        var i :| 0 <= i < |OWNED| && OWNED[i] == path;
        assert OWNED_LISTS[i] in OWNED_LISTS;
        ListReads(d, c, OWNED_LISTS[i]);
      }
    }
  }

  /**
   The whole comparison, for every pair of trees: no update is due if and only if the VM is on in both or in neither,
   every demand of the template is met, each of the nine owned lists has equally many and matching elements, and the
   sound device is there in both, matching, or in neither.
   */
  lemma UpdateDueExactly(d: Json, c: Json)
    ensures !NeedsUpdate(d, c) <==>
            && IsOn(d) == IsOn(c)
            && Delivered(d, c, ["spec", "template"])
            && (forall keys <- OWNED_LISTS :: SameItems(d, c, keys))
            && HasObject(d, SOUND_DEVICE) == HasObject(c, SOUND_DEVICE) && Delivered(d, c, SOUND_DEVICE)
  {
    OwnedLists(d, c);
    OnReads(d, c);
    ObjectsRead(d, c);
  }

  lemma ObjectsRead(d: Json, c: Json)
    ensures Derivative(Obj(MapAt(d, TEMPLATE)), Obj(MapAt(c, TEMPLATE))) <==> Delivered(d, c, ["spec", "template"])
    ensures MapFound(d, SOUND) == HasObject(d, SOUND_DEVICE) && MapFound(c, SOUND) == HasObject(c, SOUND_DEVICE)
    ensures Derivative(Obj(MapAt(d, SOUND)), Obj(MapAt(c, SOUND))) <==> Delivered(d, c, SOUND_DEVICE)
  {
    Hops2("spec", "template");
    ObjectReads(d, c, ["spec", "template"]);
    HopsOfDevice("sound");
    ObjectReads(d, c, SOUND_DEVICE);
  }

  lemma OnReads(d: Json, c: Json)
    ensures BoolAt(d, RUNNING) == IsOn(d) && BoolAt(c, RUNNING) == IsOn(c)
  {
    Hops2("spec", "running");
    ReachIsLookup(d, ["spec", "running"]);
    ReachIsLookup(c, ["spec", "running"]);
  }

  /** For example a root disk template of another size, which lies outside the pod template, is seen. */
  lemma RootDiskSizeIsSeen(vm: Json, wanted: string, stored: string)
    requires vm.Obj? && "spec" in vm.fields && vm.fields["spec"].Obj? && wanted != "" && wanted != stored
    ensures NeedsUpdate(WithRootDisk(vm, wanted), WithRootDisk(vm, stored))
  {
    var d, c := WithRootDisk(vm, wanted), WithRootDisk(vm, stored);
    UpdateDueExactly(d, c);
    RootDiskRead(vm, wanted);
    RootDiskRead(vm, stored);
    var path := [Key("size")];
    assert Lookup(RootDisk(wanted), path) == Some(Str(wanted)) && Lookup(RootDisk(stored), path) == Some(Str(stored)) by {
      assert path[1..] == [];
    }
    assert !PathwiseDerivative(RootDisk(wanted), RootDisk(stored));
    var keys := ["spec", "dataVolumeTemplates"];
    assert ListUnder(d, keys)[0] == RootDisk(wanted) && ListUnder(c, keys)[0] == RootDisk(stored);
    assert OWNED_LISTS[8] == keys && keys in OWNED_LISTS && !SameItems(d, c, keys);
  }

  function RootDisk(size: string): Json {
    Obj(map["size" := Str(size)])
  }

  function WithRootDisk(vm: Json, size: string): Json
    requires vm.Obj? && "spec" in vm.fields && vm.fields["spec"].Obj?
  {
    Obj(vm.fields["spec" := Obj(vm.fields["spec"].fields["dataVolumeTemplates" := Arr([RootDisk(size)])])])
  }

  lemma RootDiskRead(vm: Json, size: string)
    requires vm.Obj? && "spec" in vm.fields && vm.fields["spec"].Obj?
    ensures ListUnder(WithRootDisk(vm, size), ["spec", "dataVolumeTemplates"]) == [RootDisk(size)]
  {
    var keys := ["spec", "dataVolumeTemplates"];
    assert keys[1..] == ["dataVolumeTemplates"] && ["dataVolumeTemplates"][1..] == [];
    var t := WithRootDisk(vm, size);
    assert Reach(t, keys) == Reach(t.fields["spec"], ["dataVolumeTemplates"]);
    assert Reach(t.fields["spec"], ["dataVolumeTemplates"]) == Reach(Arr([RootDisk(size)]), []);
  }
}
