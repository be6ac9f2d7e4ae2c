/**
 The GPU hardware of a VM as guardWindowsGPUTransition compares it (windowsGPUHardware in
 internal/controller/vm_windows_gpu.go): the device list and every extended resource, so that a
 changed resource cannot hide behind an unchanged device list.
 */
module WindowsGpu {
  import opened ApiServer
  import opened Text
  import opened VmComparison
  import opened VmFields

  const GPUS := DEVICES + [Key("gpus")]
  const RESOURCES := POD + [Key("domain"), Key("resources")]
  const SECTIONS := ["requests", "limits"]

  /** The entry the hardware map has under `k`; `quantity` is the canonical form of a resource value. */
  ghost function Entry(vm: Json, quantity: Json -> Json, k: string): Option<Json> {
    var parts := SplitAtSlash(k);
    if k == "gpus" then
      if ListAt(vm, GPUS) != [] then Some(Arr(ListAt(vm, GPUS))) else None
    else if parts.head in SECTIONS && parts.tail.Some? then Resource(vm, quantity, parts.head, parts.tail.value)
    else None
  }

  /** An extended resource of one section: its name contains a slash. */
  function Resource(vm: Json, quantity: Json -> Json, section: string, name: string): Option<Json> {
    var values := MapAt(vm, RESOURCES + [Key(section)]);
    if name in values && '/' in name then Some(quantity(values[name])) else None
  }

  ghost predicate Describes(result: map<string, Json>, vm: Json, quantity: Json -> Json) {
    forall k :: Entry(vm, quantity, k) == if k in result then Some(result[k]) else None
  }

  lemma SectionKey(section: string, name: string)
    requires section in SECTIONS
    ensures SplitAtSlash(section + "/" + name) == Split(section, Some(name)) && section + "/" + name != "gpus"
  {
    SplitJoined(section, name);
    SplitSlashFree("gpus");
  }

  /** windowsGPUHardware: a map built section by section; Go visits the resources in an arbitrary order. */
  method Hardware(vm: Json, quantity: Json -> Json) returns (result: map<string, Json>)
    ensures Describes(result, vm, quantity)
  {
    var gpus := ListAt(vm, GPUS);
    result := map[];
    if |gpus| > 0 {
      result := result["gpus" := Arr(gpus)];
    }
    SplitSlashFree("gpus");
    result := AddSection(result, vm, quantity, "requests", []);
    result := AddSection(result, vm, quantity, "limits", ["requests"]);
    assert ["requests"] + ["limits"] == SECTIONS;
    forall k
      ensures Upto(vm, quantity, k, SECTIONS) == Entry(vm, quantity, k)
    {
    }
  }

  /** The entry under `k` once only the sections in `done` have been visited. */
  ghost function Upto(vm: Json, quantity: Json -> Json, k: string, done: seq<string>): Option<Json> {
    if k == "gpus" || SplitAtSlash(k).head in done then Entry(vm, quantity, k) else None
  }

  method AddSection(before: map<string, Json>, vm: Json, quantity: Json -> Json, section: string, ghost done: seq<string>)
    returns (result: map<string, Json>)
    requires section in SECTIONS && section !in done
    requires forall k :: Upto(vm, quantity, k, done) == if k in before then Some(before[k]) else None
    ensures forall k :: Upto(vm, quantity, k, done + [section]) == if k in result then Some(result[k]) else None
  {
    var values := MapAt(vm, RESOURCES + [Key(section)]);
    var names := values.Keys;
    result := before;
    while names != {}
      invariant names <= values.Keys
      invariant forall k :: (if k in result then Some(result[k]) else None) ==
                            if Visited(k, section, values.Keys - names) then Entry(vm, quantity, k) else Upto(vm, quantity, k, done)
    {
      var name :| name in names;
      SectionKey(section, name);
      if '/' in name {
        result := result[section + "/" + name := quantity(values[name])];
      }
      VisitOne(section, values.Keys - names, name);
      assert values.Keys - (names - {name}) == values.Keys - names + {name};
      names := names - {name};
    }
  }

  /** `k` is the key of a resource of this section that has been visited. */
  ghost predicate Visited(k: string, section: string, names: set<string>) {
    var parts := SplitAtSlash(k);
    parts.head == section && parts.tail.Some? && parts.tail.value in names
  }

  lemma VisitOne(section: string, names: set<string>, name: string)
    requires section in SECTIONS
    ensures forall k :: Visited(k, section, names + {name}) <==> Visited(k, section, names) || k == section + "/" + name
  {
    SectionKey(section, name);
    forall k
      ensures Visited(k, section, names + {name}) <==> Visited(k, section, names) || k == section + "/" + name
    {
      if Visited(k, section, names + {name}) {
        SplitRejoins(k);
      }
    }
  }

  ghost predicate SameDevices(vm1: Json, vm2: Json, quantity: Json -> Json) {
    && ListAt(vm1, GPUS) == ListAt(vm2, GPUS)
    && forall section, name :: section in SECTIONS ==>
         Resource(vm1, quantity, section, name) == Resource(vm2, quantity, section, name)
  }

  lemma EqualMapsSameDevices(a: map<string, Json>, vm1: Json, vm2: Json, quantity: Json -> Json)
    requires Describes(a, vm1, quantity) && Describes(a, vm2, quantity)
    ensures SameDevices(vm1, vm2, quantity)
  {
    assert Entry(vm1, quantity, "gpus") == Entry(vm2, quantity, "gpus");
    forall section, name | section in SECTIONS
      ensures Resource(vm1, quantity, section, name) == Resource(vm2, quantity, section, name)
    {
      SectionKey(section, name);
      assert Entry(vm1, quantity, section + "/" + name) == Entry(vm2, quantity, section + "/" + name);
    }
  }

  lemma SameDevicesSameEntries(vm1: Json, vm2: Json, quantity: Json -> Json, k: string)
    requires SameDevices(vm1, vm2, quantity)
    ensures Entry(vm1, quantity, k) == Entry(vm2, quantity, k)
  {
  }

  /** Two VMs have equal hardware maps exactly when their device lists and all extended resources agree. */
  lemma SameHardware(a: map<string, Json>, b: map<string, Json>, vm1: Json, vm2: Json, quantity: Json -> Json)
    requires Describes(a, vm1, quantity) && Describes(b, vm2, quantity)
    ensures a == b <==> SameDevices(vm1, vm2, quantity)
  {
    if a == b {
      EqualMapsSameDevices(a, vm1, vm2, quantity);
    }
    if SameDevices(vm1, vm2, quantity) {
      forall k
        ensures k in a <==> k in b
        ensures k in a && k in b ==> a[k] == b[k]
      {
        SameDevicesSameEntries(vm1, vm2, quantity, k);
      }
    }
  }

  // ---------------------------------------------------------------- what the VM comparison sees of the hardware

  /** A VM the comparison calls quiet has matching devices and every extended resource that is asked for. */
  lemma QuietCarriesHardware(desired: Json, current: Json, quantity: Json -> Json, section: string, name: string)
    requires !NeedsUpdate(desired, current) && section in SECTIONS
    ensures ListMatches(desired, current, GPUS)
    ensures var wanted := MapAt(desired, RESOURCES + [Key(section)]);
            name in wanted && Leaf(wanted[name]) ==>
              Resource(current, quantity, section, name) == Resource(desired, quantity, section, name)
  {
    assert GPUS == OWNED[7] && GPUS in OWNED;
    var below := [Key("spec"), Key("domain"), Key("resources"), Key(section), Key(name)];
    var at := RESOURCES + [Key(section)];
    assert TEMPLATE + below == at + [Key(name)];
    LookupConcat(desired, at, [Key(name)]);
    LookupConcat(current, at, [Key(name)]);
    LookupConcat(desired, TEMPLATE, below);
    if MapFound(desired, at) && name in MapAt(desired, at) && Leaf(MapAt(desired, at)[name]) {
      var wanted := MapAt(desired, at)[name];
      assert Lookup(Obj(MapAt(desired, at)), [Key(name)]) == Some(wanted);
      TemplateAbove(desired, at);
      QuietMeansDelivered(desired, current, below);
      assert Lookup(current, at + [Key(name)]) == Some(wanted);
    }
  }

  lemma TemplateAbove(vm: Json, at: seq<Hop>)
    requires TEMPLATE < at && MapFound(vm, at) && at[|TEMPLATE|].Key?
    ensures MapFound(vm, TEMPLATE)
  {
    assert at == TEMPLATE + at[|TEMPLATE|..];
    LookupConcat(vm, TEMPLATE, at[|TEMPLATE|..]);
  }

  /** But an extended resource nobody asked for is tolerated: the comparison is quiet while the hardware differs. */
  lemma ExtraResourceIsTolerated(vm: Json, quantity: Json -> Json, section: string, name: string, v: Json)
    requires section in SECTIONS && '/' in name
    requires MapFound(vm, RESOURCES + [Key(section)]) && name !in MapAt(vm, RESOURCES + [Key(section)])
    ensures var more := PutKey(vm, RESOURCES + [Key(section)], name, v);
            !NeedsUpdate(vm, more) && !SameDevices(vm, more, quantity)
  {
    var at := RESOURCES + [Key(section)];
    var more := PutKey(vm, at, name, v);
    LookupConcat(vm, at, [Key(name)]);
    assert Lookup(Lookup(vm, at).value, [Key(name)]) == None;
    forall o | o in OWNED + [SOUND, RUNNING]
      ensures !(at + [Key(name)] <= o)
    {
      assert |o| <= 4 || o[4] != Key("resources");
      assert (at + [Key(name)])[4] == Key("resources");
    }
    QuietReflexive(vm);
    UnwantedKeyIsInvisible(vm, vm, at, name, v);
    LookupAfterPut(vm, at, name, v, at);
    assert at[|at|..] == [];
    assert Lookup(more, at) == Some(Obj(MapAt(vm, at)[name := v]));
    assert Resource(vm, quantity, section, name) == None;
    assert Resource(more, quantity, section, name) == Some(quantity(v));
  }

  /** Every extended resource the current VM has is asked for in the same section. */
  ghost predicate NothingExtra(desired: Json, current: Json) {
    forall section, name :: section in SECTIONS && '/' in name && name in MapAt(current, RESOURCES + [Key(section)]) ==>
      name in MapAt(desired, RESOURCES + [Key(section)])
  }

  /** Where the desired VM writes a resource as null, "" or a structure, which the comparison skips, the quantities agree. */
  ghost predicate SkippedAgree(desired: Json, current: Json, quantity: Json -> Json) {
    forall section, name :: section in SECTIONS && '/' in name && name in MapAt(desired, RESOURCES + [Key(section)])
                            && !Leaf(MapAt(desired, RESOURCES + [Key(section)])[name]) ==>
      Resource(current, quantity, section, name) == Resource(desired, quantity, section, name)
  }

  lemma CarriedIsSame(desired: Json, current: Json, quantity: Json -> Json, section: string, name: string)
    requires !NeedsUpdate(desired, current) && section in SECTIONS
    requires NothingExtra(desired, current) && SkippedAgree(desired, current, quantity)
    ensures Resource(desired, quantity, section, name) == Resource(current, quantity, section, name)
  {
    QuietCarriesHardware(desired, current, quantity, section, name);
  }

  lemma SameHasNothingExtra(desired: Json, current: Json, quantity: Json -> Json)
    requires SameDevices(desired, current, quantity)
    ensures NothingExtra(desired, current) && SkippedAgree(desired, current, quantity)
  {
    forall section, name | section in SECTIONS && '/' in name && name in MapAt(current, RESOURCES + [Key(section)])
      ensures name in MapAt(desired, RESOURCES + [Key(section)])
    {
      assert Resource(desired, quantity, section, name) == Resource(current, quantity, section, name);
    }
  }

  /**
   When quiet does mean equal hardware: if and only if the device lists are equal, the current VM has no extended
   resource that is not asked for, and values the comparison skips happen to agree.
   */
  lemma QuietHardwareExactly(desired: Json, current: Json, quantity: Json -> Json)
    requires !NeedsUpdate(desired, current)
    ensures SameDevices(desired, current, quantity) <==>
            ListAt(desired, GPUS) == ListAt(current, GPUS) && NothingExtra(desired, current) && SkippedAgree(desired, current, quantity)
  {
    if SameDevices(desired, current, quantity) {
      SameHasNothingExtra(desired, current, quantity);
    } else if NothingExtra(desired, current) && SkippedAgree(desired, current, quantity) {
      forall section, name | section in SECTIONS
        ensures Resource(desired, quantity, section, name) == Resource(current, quantity, section, name)
      {
        CarriedIsSame(desired, current, quantity, section, name);
      }
    }
  }

  // ---------------------------------------------------------------- the same, spelt out

  /** The quantity of an extended resource of the VM, if it has it. */
  function Extended(vm: Json, quantity: Json -> Json, section: string, name: string): Option<Json> {
    var values := ObjectUnder(vm, ["spec", "template", "spec", "domain", "resources", section]).fields;
    if name in values then Some(quantity(values[name])) else None
  }

  lemma HopsOfResources(section: string)
    ensures Hops(["spec", "template", "spec", "domain", "resources", section]) == RESOURCES + [Key(section)]
  {
    var keys := ["spec", "template", "spec", "domain", "resources", section];
    assert keys[1..] == ["template", "spec", "domain", "resources", section];
    assert keys[1..][1..] == ["spec", "domain", "resources", section];
    Hops4("spec", "domain", "resources", section);
    assert Hops(keys[1..]) == [Key("template")] + Hops(["spec", "domain", "resources", section]);
  }

  lemma DevicesRead(vm: Json)
    ensures ListAt(vm, GPUS) == ListUnder(vm, ["spec", "template", "spec", "domain", "devices", "gpus"])
  {
    HopsOfDevice("gpus");
    ReachIsLookup(vm, ["spec", "template", "spec", "domain", "devices", "gpus"]);
  }

  lemma ResourceIsExtended(vm: Json, quantity: Json -> Json, section: string, name: string)
    ensures Resource(vm, quantity, section, name) == if '/' in name then Extended(vm, quantity, section, name) else None
  {
    HopsOfResources(section);
    ReachIsLookup(vm, ["spec", "template", "spec", "domain", "resources", section]);
  }

  /**
   The maps the GPU guard compares are equal if and only if the device lists are, and every resource whose name contains
   a slash is there with the same quantity, or absent, in both VMs, under requests and under limits.
   */
  lemma GuardSeesExactly(a: map<string, Json>, b: map<string, Json>, vm1: Json, vm2: Json, quantity: Json -> Json)
    requires Describes(a, vm1, quantity) && Describes(b, vm2, quantity)
    ensures a == b <==>
            && ListUnder(vm1, ["spec", "template", "spec", "domain", "devices", "gpus"]) == ListUnder(vm2, ["spec", "template", "spec", "domain", "devices", "gpus"])
            && (forall name: string :: '/' in name ==> Extended(vm1, quantity, "requests", name) == Extended(vm2, quantity, "requests", name))
            && (forall name: string :: '/' in name ==> Extended(vm1, quantity, "limits", name) == Extended(vm2, quantity, "limits", name))
  {
    SameHardware(a, b, vm1, vm2, quantity);
    DevicesRead(vm1);
    DevicesRead(vm2);
    forall section, name
      ensures Resource(vm1, quantity, section, name) == if '/' in name then Extended(vm1, quantity, section, name) else None
      ensures Resource(vm2, quantity, section, name) == if '/' in name then Extended(vm2, quantity, section, name) else None
    {
      ResourceIsExtended(vm1, quantity, section, name);
      ResourceIsExtended(vm2, quantity, section, name);
    }
    assert SECTIONS[0] == "requests" && SECTIONS[1] == "limits";
    assert forall section :: section in SECTIONS <==> section == "requests" || section == "limits";
  }
}
