/**
 Deciding whether a stored VirtualMachine or pod template still carries what the controller
 wants (virtualMachineNeedsUpdate, updateVirtualMachine and podTemplateNeedsUpdate in
 internal/controller/workspace_controller.go), over arbitrary JSON trees.
 */
module VmComparison {
  import opened ApiServer

  datatype Json =
    | Null
    | Bool(b: bool)
    | Num(n: int)
    | Str(s: string)
    | Arr(elems: seq<Json>)
    | Obj(fields: map<string, Json>)

  predicate SameKind(a: Json, b: Json) {
    a.Null? == b.Null? && a.Bool? == b.Bool? && a.Num? == b.Num? && a.Str? == b.Str? && a.Arr? == b.Arr? && a.Obj? == b.Obj?
  }

  /**
   `equality.Semantic.DeepDerivative(d, c)`: null, the empty string, the empty list and the empty
   object ask for nothing beyond the kind; lists may be longer and objects larger in `c`.
   */
  predicate Derivative(d: Json, c: Json) {
    match d
    case Null => true
    case Bool(b) => c == Bool(b)
    case Num(n) => c == Num(n)
    case Str(s) => c.Str? && (s == "" || c.s == s)
    case Arr(ds) =>
      c.Arr? && (ds == [] || (|ds| <= |c.elems| && forall i | 0 <= i < |ds| :: Derivative(ds[i], c.elems[i])))
    case Obj(df) =>
      c.Obj? && forall k <- df :: k in c.fields && Derivative(df[k], c.fields[k])
  }

  lemma {:induction false} DerivativeReflexive(d: Json)
    ensures Derivative(d, d)
  {
    match d
    case Arr(ds) => forall i | 0 <= i < |ds| ensures Derivative(ds[i], ds[i]) { DerivativeReflexive(ds[i]); }
    case Obj(df) => forall k | k in df ensures Derivative(df[k], df[k]) { DerivativeReflexive(df[k]); }
    case _ =>
  }

  // ---------------------------------------------------------------- reference meaning by paths

  datatype Hop = Key(key: string) | Index(index: nat)

  function Lookup(t: Json, path: seq<Hop>): Option<Json> {
    if path == [] then Some(t)
    else
      match path[0]
      case Key(k) => if t.Obj? && k in t.fields then Lookup(t.fields[k], path[1..]) else None
      case Index(i) => if t.Arr? && i < |t.elems| then Lookup(t.elems[i], path[1..]) else None
  }

  /** A scalar that asks for its exact value. */
  predicate Leaf(x: Json) {
    x.Bool? || x.Num? || (x.Str? && x.s != "")
  }

  /** What the node `x` of the desired tree asks of the node at the same path in the current one. */
  predicate Satisfied(x: Json, y: Option<Json>) {
    && y.Some?
    && (x.Null? || SameKind(x, y.value))
    && (Leaf(x) ==> y.value == x)
  }

  ghost predicate PathwiseDerivative(d: Json, c: Json) {
    forall path: seq<Hop> :: Lookup(d, path).Some? ==> Satisfied(Lookup(d, path).value, Lookup(c, path))
  }

  lemma {:induction false} DerivativeAtPath(d: Json, c: Json, path: seq<Hop>)
    requires Derivative(d, c) && Lookup(d, path).Some?
    ensures Satisfied(Lookup(d, path).value, Lookup(c, path))
  {
    if path != [] {
      match path[0]
      case Key(k) => DerivativeAtPath(d.fields[k], c.fields[k], path[1..]);
      case Index(i) => DerivativeAtPath(d.elems[i], c.elems[i], path[1..]);
    }
  }

  lemma PathwiseChild(d: Json, c: Json, hop: Hop)
    requires PathwiseDerivative(d, c) && Lookup(d, [hop]).Some?
    ensures Lookup(c, [hop]).Some? && PathwiseDerivative(Lookup(d, [hop]).value, Lookup(c, [hop]).value)
  {
    assert Satisfied(Lookup(d, [hop]).value, Lookup(c, [hop]));
    forall path: seq<Hop> | Lookup(Lookup(d, [hop]).value, path).Some?
      ensures Satisfied(Lookup(Lookup(d, [hop]).value, path).value, Lookup(Lookup(c, [hop]).value, path))
    {
      LookupConcat(d, [hop], path);
      LookupConcat(c, [hop], path);
      assert Lookup(d, [hop] + path).Some?;
    }
  }

  lemma {:induction false} LookupConcat(t: Json, p: seq<Hop>, q: seq<Hop>)
    ensures Lookup(t, p + q) == if Lookup(t, p).Some? then Lookup(Lookup(t, p).value, q) else None
  {
    if p == [] {
      assert p + q == q;
    } else {
      assert (p + q)[1..] == p[1..] + q;
      match p[0]
      case Key(k) => if t.Obj? && k in t.fields { LookupConcat(t.fields[k], p[1..], q); }
      case Index(i) => if t.Arr? && i < |t.elems| { LookupConcat(t.elems[i], p[1..], q); }
    }
  }

  lemma {:induction false} PathwiseImpliesDerivative(d: Json, c: Json)
    requires PathwiseDerivative(d, c)
    ensures Derivative(d, c)
  {
    assert Lookup(d, []) == Some(d) && Lookup(c, []) == Some(c);
    assert Satisfied(d, Lookup(c, []));
    match d
    case Arr(ds) =>
      forall i: nat | i < |ds|
        ensures i < |c.elems| && Derivative(ds[i], c.elems[i])
      {
        assert Lookup(d, [Index(i)]) == Some(ds[i]);
        PathwiseChild(d, c, Index(i));
        PathwiseImpliesDerivative(ds[i], c.elems[i]);
      }
      if ds != [] {
        assert Lookup(d, [Index(|ds| - 1)]) == Some(ds[|ds| - 1]);
        PathwiseChild(d, c, Index(|ds| - 1));
      }
    case Obj(df) =>
      forall k | k in df
        ensures k in c.fields && Derivative(df[k], c.fields[k])
      {
        assert Lookup(d, [Key(k)]) == Some(df[k]);
        PathwiseChild(d, c, Key(k));
        PathwiseImpliesDerivative(df[k], c.fields[k]);
      }
    case _ =>
  }

  /** The recursive comparison is exactly: every node of the desired tree is satisfied at its own path. */
  lemma DerivativeIsPathwise(d: Json, c: Json)
    ensures Derivative(d, c) <==> PathwiseDerivative(d, c)
  {
    if Derivative(d, c) {
      forall path: seq<Hop> | Lookup(d, path).Some?
        ensures Satisfied(Lookup(d, path).value, Lookup(c, path))
      {
        DerivativeAtPath(d, c, path);
      }
    }
    if PathwiseDerivative(d, c) {
      PathwiseImpliesDerivative(d, c);
    }
  }

  // ---------------------------------------------------------------- the VM comparison

  const SPEC: seq<Hop> := [Key("spec")]
  const TEMPLATE := SPEC + [Key("template")]
  const POD := TEMPLATE + [Key("spec")]
  const DEVICES := POD + [Key("domain"), Key("devices")]
  const RUNNING := SPEC + [Key("running")]
  const SOUND := DEVICES + [Key("sound")]

  /** Lists the controller owns completely: removals must reconcile too. */
  const OWNED: seq<seq<Hop>> := [
    POD + [Key("accessCredentials")],
    POD + [Key("volumes")],
    POD + [Key("networks")],
    POD + [Key("tolerations")],
    DEVICES + [Key("disks")],
    DEVICES + [Key("interfaces")],
    DEVICES + [Key("inputs")],
    DEVICES + [Key("gpus")],
    SPEC + [Key("dataVolumeTemplates")]
  ]

  /** `unstructured.NestedSlice`, `NestedMap` and `NestedBool` with errors ignored. */
  function ListAt(t: Json, path: seq<Hop>): seq<Json> {
    var x := Lookup(t, path);
    if x.Some? && x.value.Arr? then x.value.elems else []
  }

  predicate MapFound(t: Json, path: seq<Hop>) {
    var x := Lookup(t, path);
    x.Some? && x.value.Obj?
  }

  function MapAt(t: Json, path: seq<Hop>): map<string, Json> {
    if MapFound(t, path) then Lookup(t, path).value.fields else map[]
  }

  predicate BoolAt(t: Json, path: seq<Hop>) {
    Lookup(t, path) == Some(Bool(true))
  }

  predicate SameList(ds: seq<Json>, cs: seq<Json>) {
    |ds| == |cs| && Derivative(Arr(ds), Arr(cs))
  }

  predicate ListMatches(d: Json, c: Json, path: seq<Hop>) {
    SameList(ListAt(d, path), ListAt(c, path))
  }

  predicate NeedsUpdate(desired: Json, current: Json) {
    || BoolAt(desired, RUNNING) != BoolAt(current, RUNNING)
    || !Derivative(Obj(MapAt(desired, TEMPLATE)), Obj(MapAt(current, TEMPLATE)))
    || (exists path <- OWNED :: !ListMatches(desired, current, path))
    || MapFound(desired, SOUND) != MapFound(current, SOUND)
    || !Derivative(Obj(MapAt(desired, SOUND)), Obj(MapAt(current, SOUND)))
  }

  /** The write of updateVirtualMachine: the whole spec is replaced, metadata and status stay. */
  function WithSpecOf(current: Json, desired: Json): Json
    requires current.Obj?
  {
    var spec := Lookup(desired, SPEC);
    Obj(current.fields["spec" := if spec.Some? then spec.value else Null])
  }

  function Converge(desired: Json, current: Json): Json
    requires current.Obj?
  {
    if NeedsUpdate(desired, current) then WithSpecOf(current, desired) else current
  }

  /** Below `spec` the written object and the desired one look alike, wherever a list, map or bool is read. */
  lemma WrittenSpecReadsAlike(current: Json, desired: Json, path: seq<Hop>)
    requires current.Obj? && |path| >= 2 && path[0] == Key("spec")
    ensures Lookup(WithSpecOf(current, desired), path) == Lookup(desired, path)
  {
    var written := WithSpecOf(current, desired);
    assert path == SPEC + path[1..];
    LookupConcat(written, SPEC, path[1..]);
    LookupConcat(desired, SPEC, path[1..]);
  }

  /** Right after an update the comparison is quiet, and it stays quiet: convergence takes one write. */
  lemma QuietAfterUpdate(desired: Json, current: Json)
    requires current.Obj?
    ensures !NeedsUpdate(desired, WithSpecOf(current, desired))
    ensures Converge(desired, Converge(desired, current)) == Converge(desired, current)
    // Only the spec is replaced.
    ensures var written := WithSpecOf(current, desired);
            && written.Obj? && written.fields.Keys == current.fields.Keys + {"spec"}
            && (forall k <- current.fields :: k != "spec" ==> written.fields[k] == current.fields[k])
            && (Lookup(desired, SPEC).Some? ==> Lookup(written, SPEC) == Lookup(desired, SPEC))
  {
    var written := WithSpecOf(current, desired);
    forall path | path in [RUNNING, TEMPLATE, SOUND] || path in OWNED
      ensures Lookup(written, path) == Lookup(desired, path)
    {
      WrittenSpecReadsAlike(current, desired, path);
    }
    assert RUNNING in [RUNNING, TEMPLATE, SOUND] && TEMPLATE in [RUNNING, TEMPLATE, SOUND] && SOUND in [RUNNING, TEMPLATE, SOUND];
    forall path | path in OWNED ensures ListMatches(desired, written, path) {
      DerivativeReflexive(Arr(ListAt(desired, path)));
    }
    DerivativeReflexive(Obj(MapAt(desired, TEMPLATE)));
    DerivativeReflexive(Obj(MapAt(desired, SOUND)));
  }

  // ---------------------------------------------------------------- server defaulting

  /** Admission defaulting: values stay, lists keep their length, objects may gain keys at any depth. */
  predicate Defaulted(d: Json, c: Json) {
    match d
    case Arr(ds) => c.Arr? && |c.elems| == |ds| && forall i | 0 <= i < |ds| :: Defaulted(ds[i], c.elems[i])
    case Obj(df) => c.Obj? && forall k <- df :: k in c.fields && Defaulted(df[k], c.fields[k])
    case _ => c == d
  }

  lemma {:induction false} DefaultedAtPath(d: Json, c: Json, path: seq<Hop>)
    requires Defaulted(d, c) && Lookup(d, path).Some?
    ensures Lookup(c, path).Some? && Defaulted(Lookup(d, path).value, Lookup(c, path).value)
  {
    if path != [] {
      match path[0]
      case Key(k) => DefaultedAtPath(d.fields[k], c.fields[k], path[1..]);
      case Index(i) => DefaultedAtPath(d.elems[i], c.elems[i], path[1..]);
    }
  }

  lemma {:induction false} DefaultedIsDerivative(d: Json, c: Json)
    requires Defaulted(d, c)
    ensures Derivative(d, c)
  {
    match d
    case Arr(ds) => forall i | 0 <= i < |ds| ensures Derivative(ds[i], c.elems[i]) { DefaultedIsDerivative(ds[i], c.elems[i]); }
    case Obj(df) => forall k | k in df ensures Derivative(df[k], c.fields[k]) { DefaultedIsDerivative(df[k], c.fields[k]); }
    case _ =>
  }

  /** Defaulting invented no owned list, no sound device and no running VM the controller did not ask for. */
  predicate OwnedUntouched(d: Json, c: Json) {
    && (forall path <- OWNED :: ListAt(d, path) == [] ==> ListAt(c, path) == [])
    && (MapFound(c, SOUND) ==> MapFound(d, SOUND))
    && (BoolAt(c, RUNNING) ==> BoolAt(d, RUNNING))
  }

  /** The spec that is stored is the desired one after defaulting; metadata and status are not compared. */
  predicate SpecDefaulted(d: Json, c: Json) {
    Lookup(d, SPEC).Some? ==> Lookup(c, SPEC).Some? && Defaulted(Lookup(d, SPEC).value, Lookup(c, SPEC).value)
  }

  lemma SpecDefaultedAtPath(d: Json, c: Json, path: seq<Hop>)
    requires SpecDefaulted(d, c) && SPEC < path && Lookup(d, path).Some?
    ensures Lookup(c, path).Some? && Defaulted(Lookup(d, path).value, Lookup(c, path).value)
  {
    assert path == SPEC + path[1..];
    LookupConcat(d, SPEC, path[1..]);
    LookupConcat(c, SPEC, path[1..]);
    DefaultedAtPath(Lookup(d, SPEC).value, Lookup(c, SPEC).value, path[1..]);
  }

  lemma DefaultedList(d: Json, c: Json, path: seq<Hop>)
    requires SpecDefaulted(d, c) && SPEC < path
    ensures ListAt(d, path) != [] ==> ListMatches(d, c, path)
    ensures ListAt(d, path) == [] ==> (ListMatches(d, c, path) <==> ListAt(c, path) == [])
  {
    if ListAt(d, path) != [] {
      SpecDefaultedAtPath(d, c, path);
      DefaultedIsDerivative(Lookup(d, path).value, Lookup(c, path).value);
    }
  }

  lemma DefaultedMap(d: Json, c: Json, path: seq<Hop>)
    requires SpecDefaulted(d, c) && SPEC < path
    ensures MapFound(d, path) ==> MapFound(c, path)
    ensures Derivative(Obj(MapAt(d, path)), Obj(MapAt(c, path)))
  {
    if MapFound(d, path) {
      SpecDefaultedAtPath(d, c, path);
      DefaultedIsDerivative(Lookup(d, path).value, Lookup(c, path).value);
    }
  }

  /** Under defaulting of the spec the comparison stays quiet exactly when the owned parts were left alone. */
  lemma QuietUnderDefaulting(d: Json, c: Json)
    requires SpecDefaulted(d, c)
    ensures !NeedsUpdate(d, c) <==> OwnedUntouched(d, c)
  {
    forall path | path in OWNED
      ensures ListMatches(d, c, path) <==> (ListAt(d, path) == [] ==> ListAt(c, path) == [])
    {
      assert SPEC < path;
      DefaultedList(d, c, path);
    }
    DefaultedMap(d, c, TEMPLATE);
    DefaultedMap(d, c, SOUND);
    if BoolAt(d, RUNNING) {
      SpecDefaultedAtPath(d, c, RUNNING);
    }
  }

  /**
   No update loop: after the write, whatever the stored object's metadata was, and any defaulting of the result, the
   comparison is quiet exactly when the owned parts were left alone. The same holds after a create.
   */
  lemma NoUpdateLoop(desired: Json, current: Json, c: Json)
    ensures current.Obj? && Defaulted(WithSpecOf(current, desired), c) ==> (!NeedsUpdate(desired, c) <==> OwnedUntouched(desired, c))
    ensures Defaulted(desired, c) ==> (!NeedsUpdate(desired, c) <==> OwnedUntouched(desired, c))
  {
    if current.Obj? && Defaulted(WithSpecOf(current, desired), c) {
      DefaultedAtPath(WithSpecOf(current, desired), c, SPEC);
      QuietUnderDefaulting(desired, c);
    }
    if Defaulted(desired, c) {
      if Lookup(desired, SPEC).Some? {
        DefaultedAtPath(desired, c, SPEC);
      }
      QuietUnderDefaulting(desired, c);
    }
  }

  // ---------------------------------------------------------------- what quiet means

  /** A quiet comparison means every demanded leaf of the template is in place, and owned lists are exact in length. */
  lemma QuietMeansDelivered(desired: Json, current: Json, path: seq<Hop>)
    requires !NeedsUpdate(desired, current)
    ensures BoolAt(desired, RUNNING) == BoolAt(current, RUNNING)
    ensures MapFound(desired, TEMPLATE) && Lookup(desired, TEMPLATE + path).Some?
              && Leaf(Lookup(desired, TEMPLATE + path).value) ==>
              Lookup(current, TEMPLATE + path) == Lookup(desired, TEMPLATE + path)
    ensures forall list <- OWNED :: |ListAt(current, list)| == |ListAt(desired, list)|
  {
    var x := Lookup(desired, TEMPLATE + path);
    if MapFound(desired, TEMPLATE) && x.Some? && Leaf(x.value) {
      LookupConcat(desired, TEMPLATE, path);
      LookupConcat(current, TEMPLATE, path);
      var d, c := Obj(MapAt(desired, TEMPLATE)), Obj(MapAt(current, TEMPLATE));
      DerivativeAtPath(d, c, path);
      assert path != [];
    }
    forall list | list in OWNED
      ensures |ListAt(current, list)| == |ListAt(desired, list)|
    {
      assert ListMatches(desired, current, list);
    }
  }

  lemma QuietReflexive(vm: Json)
    ensures !NeedsUpdate(vm, vm)
  {
    forall path | path in OWNED
      ensures ListMatches(vm, vm, path)
    {
      DerivativeReflexive(Arr(ListAt(vm, path)));
    }
    DerivativeReflexive(Obj(MapAt(vm, TEMPLATE)));
    DerivativeReflexive(Obj(MapAt(vm, SOUND)));
  }

  // ---------------------------------------------------------------- what the comparison cannot see

  /** The tree with one key of the map at `path` set. */
  function PutKey(t: Json, path: seq<Hop>, k: string, v: Json): Json
    requires MapFound(t, path)
    decreases |path|
  {
    if path == [] then Obj(t.fields[k := v])
    else
      match path[0]
      case Key(j) => Obj(t.fields[j := PutKey(t.fields[j], path[1..], k, v)])
      case Index(i) => Arr(t.elems[i := PutKey(t.elems[i], path[1..], k, v)])
  }

  /** A tree that does not mention a key asks nothing of it. */
  lemma {:induction false} UnmentionedKey(d: Json, c: Json, path: seq<Hop>, k: string, v: Json)
    requires MapFound(c, path) && Lookup(d, path + [Key(k)]) == None
    ensures Derivative(d, PutKey(c, path, k, v)) == Derivative(d, c)
    decreases |path|
  {
    if path == [] {
      assert path + [Key(k)] == [Key(k)];
    } else {
      assert (path + [Key(k)])[1..] == path[1..] + [Key(k)];
      match path[0]
      case Key(j) =>
        if d.Obj? && j in d.fields {
          UnmentionedKey(d.fields[j], c.fields[j], path[1..], k, v);
        }
        OneFieldChanged(d, c, j, PutKey(c.fields[j], path[1..], k, v));
      case Index(i) =>
        if d.Arr? && i < |d.elems| {
          UnmentionedKey(d.elems[i], c.elems[i], path[1..], k, v);
        }
        OneElementChanged(d, c, i, PutKey(c.elems[i], path[1..], k, v));
    }
  }

  lemma {:induction false} OneFieldChanged(d: Json, c: Json, j: string, x: Json)
    requires c.Obj? && j in c.fields
    requires d.Obj? && j in d.fields ==> Derivative(d.fields[j], x) == Derivative(d.fields[j], c.fields[j])
    ensures Derivative(d, Obj(c.fields[j := x])) == Derivative(d, c)
  {
  }

  lemma {:induction false} OneElementChanged(d: Json, c: Json, i: nat, x: Json)
    requires c.Arr? && i < |c.elems|
    requires d.Arr? && i < |d.elems| ==> Derivative(d.elems[i], x) == Derivative(d.elems[i], c.elems[i])
    ensures Derivative(d, Arr(c.elems[i := x])) == Derivative(d, c)
  {
  }

  /** Setting a key is felt at the paths above it, and at those below it; nowhere else. */
  lemma {:induction false} LookupAfterPut(c: Json, path: seq<Hop>, k: string, v: Json, o: seq<Hop>)
    requires MapFound(c, path)
    ensures o <= path ==>
              && Lookup(c, o).Some? && MapFound(Lookup(c, o).value, path[|o|..])
              && Lookup(PutKey(c, path, k, v), o) == Some(PutKey(Lookup(c, o).value, path[|o|..], k, v))
    ensures !(o <= path) && !(path + [Key(k)] <= o) ==> Lookup(PutKey(c, path, k, v), o) == Lookup(c, o)
    decreases |path|
  {
    if o == [] {
      assert path[|o|..] == path;
    } else if path == [] {
      assert path + [Key(k)] <= o <==> o[0] == Key(k);
    } else if o[0] == path[0] {
      var child := if path[0].Key? then c.fields[path[0].key] else c.elems[path[0].index];
      LookupAfterPut(child, path[1..], k, v, o[1..]);
      assert o <= path <==> o[1..] <= path[1..];
      assert path + [Key(k)] <= o <==> path[1..] + [Key(k)] <= o[1..] by {
        assert (path + [Key(k)])[1..] == path[1..] + [Key(k)];
      }
      assert o <= path ==> path[|o|..] == path[1..][|o[1..]|..];
    }
  }

  lemma {:induction false} SubtreeIsSilent(desired: Json, path: seq<Hop>, k: string, o: seq<Hop>)
    requires Lookup(desired, path + [Key(k)]) == None && o <= path && Lookup(desired, o).Some?
    ensures Lookup(Lookup(desired, o).value, path[|o|..] + [Key(k)]) == None
  {
    assert path + [Key(k)] == o + (path[|o|..] + [Key(k)]);
    LookupConcat(desired, o, path[|o|..] + [Key(k)]);
  }

  lemma PutKeepsKind(t: Json, path: seq<Hop>, k: string, v: Json)
    requires MapFound(t, path)
    ensures var put := PutKey(t, path, k, v);
            SameKind(t, put) && (t.Obj? || t.Arr?) && (t.Arr? ==> |put.elems| == |t.elems|)
  {
  }

  /** A list is read at `o`, above the key that is set. */
  predicate ListAbove(current: Json, path: seq<Hop>, o: seq<Hop>) {
    o <= path && Lookup(current, o).Some? && Lookup(current, o).value.Arr?
  }

  /** What setting a key does to it: a change inside one of its elements. */
  lemma {:induction false} ListTouched(current: Json, path: seq<Hop>, k: string, v: Json, o: seq<Hop>)
    requires MapFound(current, path) && ListAbove(current, path, o)
    ensures MapFound(Arr(ListAt(current, o)), path[|o|..])
    ensures Arr(ListAt(PutKey(current, path, k, v), o)) == PutKey(Arr(ListAt(current, o)), path[|o|..], k, v)
  {
    LookupAfterPut(current, path, k, v, o);
    PutKeepsKind(Lookup(current, o).value, path[|o|..], k, v);
  }

  lemma {:induction false} ListUntouched(current: Json, path: seq<Hop>, k: string, v: Json, o: seq<Hop>)
    requires MapFound(current, path) && !(path + [Key(k)] <= o) && !ListAbove(current, path, o)
    ensures ListAt(PutKey(current, path, k, v), o) == ListAt(current, o)
  {
    LookupAfterPut(current, path, k, v, o);
    if o <= path {
      PutKeepsKind(Lookup(current, o).value, path[|o|..], k, v);
    }
  }

  lemma {:induction false} PutInList(ds: seq<Json>, list: Json, rest: seq<Hop>, k: string, v: Json)
    requires list.Arr? && MapFound(list, rest)
    requires ds != [] ==> Lookup(Arr(ds), rest + [Key(k)]) == None
    ensures var put := PutKey(list, rest, k, v);
            put.Arr? && SameList(ds, put.elems) == SameList(ds, list.elems)
  {
    PutKeepsKind(list, rest, k, v);
    var put := PutKey(list, rest, k, v);
    assert put == Arr(put.elems) && list == Arr(list.elems);
    if ds != [] {
      UnmentionedKey(Arr(ds), list, rest, k, v);
    }
  }

  lemma {:induction false} SilentList(desired: Json, path: seq<Hop>, k: string, o: seq<Hop>)
    requires Lookup(desired, path + [Key(k)]) == None && o <= path && ListAt(desired, o) != []
    ensures Lookup(Arr(ListAt(desired, o)), path[|o|..] + [Key(k)]) == None
  {
    SubtreeIsSilent(desired, path, k, o);
    assert Lookup(desired, o) == Some(Arr(ListAt(desired, o)));
  }

  lemma {:induction false} SameListAfterPut(desired: Json, current: Json, path: seq<Hop>, k: string, v: Json, o: seq<Hop>)
    requires MapFound(current, path) && Lookup(desired, path + [Key(k)]) == None && !(path + [Key(k)] <= o)
    ensures ListMatches(desired, PutKey(current, path, k, v), o) == ListMatches(desired, current, o)
  {
    if ListAbove(current, path, o) {
      ListTouched(current, path, k, v, o);
      if ListAt(desired, o) != [] {
        SilentList(desired, path, k, o);
      }
      PutInList(ListAt(desired, o), Arr(ListAt(current, o)), path[|o|..], k, v);
    } else {
      ListUntouched(current, path, k, v, o);
    }
  }

  lemma {:induction false} SameMapAfterPut(desired: Json, current: Json, path: seq<Hop>, k: string, v: Json, o: seq<Hop>)
    requires MapFound(current, path) && Lookup(desired, path + [Key(k)]) == None && !(path + [Key(k)] <= o)
    ensures var put := PutKey(current, path, k, v);
            && MapFound(put, o) == MapFound(current, o)
            && Derivative(Obj(MapAt(desired, o)), Obj(MapAt(put, o))) == Derivative(Obj(MapAt(desired, o)), Obj(MapAt(current, o)))
  {
    LookupAfterPut(current, path, k, v, o);
    if o <= path && MapFound(current, o) && MapFound(desired, o) {
      SubtreeIsSilent(desired, path, k, o);
      UnmentionedKey(Lookup(desired, o).value, Lookup(current, o).value, path[|o|..], k, v);
    }
  }

  lemma {:induction false} SameFlagAfterPut(current: Json, path: seq<Hop>, k: string, v: Json, o: seq<Hop>)
    requires MapFound(current, path) && !(path + [Key(k)] <= o)
    ensures BoolAt(PutKey(current, path, k, v), o) == BoolAt(current, o)
  {
    LookupAfterPut(current, path, k, v, o);
    if o <= path {
      PutKeepsKind(Lookup(current, o).value, path[|o|..], k, v);
    }
  }

  lemma {:induction false} SameListsAfterPut(desired: Json, current: Json, path: seq<Hop>, k: string, v: Json)
    requires MapFound(current, path) && Lookup(desired, path + [Key(k)]) == None
    requires forall o <- OWNED + [SOUND, RUNNING] :: !(path + [Key(k)] <= o)
    ensures (exists o <- OWNED :: !ListMatches(desired, PutKey(current, path, k, v), o)) <==>
            (exists o <- OWNED :: !ListMatches(desired, current, o))
  {
    var put := PutKey(current, path, k, v);
    forall o | o in OWNED
      ensures ListMatches(desired, put, o) == ListMatches(desired, current, o)
    {
      assert o in OWNED + [SOUND, RUNNING];
      SameListAfterPut(desired, current, path, k, v, o);
    }
  }

  /**
   For every desired and current VM, anywhere in the tree: a key the desired VM does not mention, and that is not on
   the way to an owned list, the sound device or the running flag, makes no difference to the comparison.
   */
  lemma {:induction false} UnwantedKeyIsInvisible(desired: Json, current: Json, path: seq<Hop>, k: string, v: Json)
    requires MapFound(current, path) && Lookup(desired, path + [Key(k)]) == None
    requires forall o <- OWNED + [SOUND, RUNNING] :: !(path + [Key(k)] <= o)
    ensures NeedsUpdate(desired, PutKey(current, path, k, v)) == NeedsUpdate(desired, current)
  {
    SameListsAfterPut(desired, current, path, k, v);
    assert SOUND in OWNED + [SOUND, RUNNING] && RUNNING in OWNED + [SOUND, RUNNING];
    SameMapAfterPut(desired, current, path, k, v, SOUND);
    assert TEMPLATE <= SOUND;
    SameMapAfterPut(desired, current, path, k, v, TEMPLATE);
    SameFlagAfterPut(current, path, k, v, RUNNING);
  }

  /** In particular a nodeSelector the controller no longer wants. */
  lemma {:induction false} SelectorIsTolerated(desired: Json, current: Json, selector: Json)
    requires MapFound(current, POD) && Lookup(desired, POD + [Key("nodeSelector")]) == None
    ensures NeedsUpdate(desired, PutKey(current, POD, "nodeSelector", selector)) == NeedsUpdate(desired, current)
  {
    var selectorPath := POD + [Key("nodeSelector")];
    forall o | o in OWNED + [SOUND, RUNNING]
      ensures !(selectorPath <= o)
    {
      assert |o| <= 3 || o[3] != Key("nodeSelector");
      assert selectorPath[3] == Key("nodeSelector");
    }
    UnwantedKeyIsInvisible(desired, current, POD, "nodeSelector", selector);
  }

  function WithPod(pod: Json): Json {
    Obj(map["spec" := Obj(map["template" := Obj(map["spec" := pod])])])
  }

  lemma PodOf(pod: Json)
    ensures Lookup(WithPod(pod), POD) == Some(pod)
  {
    var t := WithPod(pod);
    assert POD == SPEC + ([Key("template")] + [Key("spec")]);
    LookupConcat(t, SPEC, [Key("template")] + [Key("spec")]);
    LookupConcat(t.fields["spec"], [Key("template")], [Key("spec")]);
  }

  /** Quiet does not mean equal. */
  lemma QuietIsNotEquality()
    ensures exists desired: Json, current: Json :: !NeedsUpdate(desired, current) && Lookup(desired, POD) != Lookup(current, POD)
  {
    var desired, pod := WithPod(Obj(map[])), Obj(map["nodeSelector" := Str("a")]);
    var current := PutKey(desired, POD, "nodeSelector", Str("a")) by {
      PodOf(Obj(map[]));
    }
    PodOf(Obj(map[]));
    LookupConcat(desired, POD, [Key("nodeSelector")]);
    QuietReflexive(desired);
    SelectorIsTolerated(desired, desired, Str("a"));
    LookupAfterPut(desired, POD, "nodeSelector", Str("a"), POD);
    assert POD[|POD|..] == [];
    assert Lookup(current, POD) == Some(pod) && "nodeSelector" in pod.fields;
    assert !NeedsUpdate(desired, current) && Lookup(desired, POD) != Lookup(current, POD);
  }

  // ---------------------------------------------------------------- pod templates

  /** A workload: the fingerprint of the template it was last written from and the live template. */
  datatype Workload = Workload(fingerprint: Option<Json>, template: Json)

  /** podTemplateNeedsUpdate, with the SHA-256 fingerprint taken as the (injective) template itself. */
  predicate PodTemplateNeedsUpdate(desired: Json, current: Workload) {
    current.fingerprint != Some(desired) || !Derivative(desired, current.template)
  }

  /** An update is due exactly if the template was never written in this form, or some demand of it is no longer met. */
  lemma TemplateUpdateExactly(desired: Json, current: Workload)
    ensures PodTemplateNeedsUpdate(desired, current) <==>
            current.fingerprint != Some(desired) || !PathwiseDerivative(desired, current.template)
  {
    DerivativeIsPathwise(desired, current.template);
  }

  /** The fingerprint sees removed fields: after writing `applied` and any defaulting, only `applied` itself is quiet. */
  lemma FingerprintSeesRemovals(applied: Json, live: Json, desired: Json)
    requires Defaulted(applied, live)
    ensures PodTemplateNeedsUpdate(desired, Workload(Some(applied), live)) <==> desired != applied
  {
    DefaultedIsDerivative(applied, live);
  }
}
