/**
 The cloud-init pipeline of Linux VMs: the image's user-data, the owner's SSH keys
 (injectSSHAuthorizedKeys), the agent binding (linuxAgentCloudInit) and the disk mount
 commands (vmCloudInitUserData). YAML text is represented by the tree it parses to.
 */
module CloudConfig {
  import opened ApiServer
  import opened VmComparison

  type Body = map<string, Json>

  /**
   User-data as the pipeline sees it. `header`: the text starts with #cloud-config. A text that holds no document,
   such as the bare header or comments only, has the empty body: decoding it leaves the caller's empty map alone.
   */
  datatype UserData =
    | Empty
    | Config(header: bool, body: Body)
    | Unparsed(text: string)

  datatype Result<+T> = Ok(value: T) | Err

  const KEYS := "ssh_authorized_keys"
  const FILES := "write_files"
  const BOOT := "bootcmd"
  const BINDING_PATH := Str("/etc/workspace-agent/public/binding.json")

  /** `list, _ := body[key].([]interface{})` */
  function ListOf(body: Body, key: string): seq<Json> {
    if key in body && body[key].Arr? then body[key].elems else []
  }

  function Strs(keys: seq<string>): seq<Json> {
    seq(|keys|, i requires 0 <= i < |keys| => Str(keys[i]))
  }

  // ---------------------------------------------------------------- key merge

  /** Reference: keep everything except a string that occurred before. */
  function Dedup(xs: seq<Json>): seq<Json> {
    if xs == [] then []
    else
      var n := |xs| - 1;
      if xs[n].Str? && xs[n] in xs[..n] then Dedup(xs[..n]) else Dedup(xs[..n]) + [xs[n]]
  }

  lemma {:induction false} DedupMembers(xs: seq<Json>, x: Json)
    ensures x in Dedup(xs) <==> x in xs
  {
    if xs != [] {
      var n := |xs| - 1;
      DedupMembers(xs[..n], x);
      assert xs == xs[..n] + [xs[n]];
    }
  }

  ghost predicate DistinctStrings(xs: seq<Json>) {
    forall i, j :: 0 <= i < j < |xs| && xs[i].Str? ==> xs[i] != xs[j]
  }

  /** The entry at `k` is kept: not a string, or the first occurrence of its string. */
  predicate Survives(xs: seq<Json>, k: nat)
    requires k < |xs|
  {
    !xs[k].Str? || xs[k] !in xs[..k]
  }

  /** `at` lists, in increasing order, exactly the positions of `xs` that survive; `ys` are the entries there. */
  ghost predicate FirstOccurrences(xs: seq<Json>, ys: seq<Json>, at: seq<nat>) {
    && |at| == |ys|
    && (forall i :: 0 <= i < |at| ==> at[i] < |xs| && xs[at[i]] == ys[i])
    && (forall i, j :: 0 <= i < j < |at| ==> at[i] < at[j])
    && (forall k: nat :: k in at <==> k < |xs| && Survives(xs, k))
  }

  lemma SurvivesInPrefix(xs: seq<Json>, n: nat, k: nat)
    requires k < n <= |xs|
    ensures Survives(xs[..n], k) == Survives(xs, k)
  {
    assert xs[..n][..k] == xs[..k];
  }

  function KeptPositions(xs: seq<Json>): seq<nat> {
    if xs == [] then []
    else KeptPositions(xs[..|xs| - 1]) + (if Survives(xs, |xs| - 1) then [|xs| - 1] else [])
  }

  lemma {:induction false} KeptAreSurvivors(xs: seq<Json>, k: nat)
    ensures k in KeptPositions(xs) <==> k < |xs| && Survives(xs, k)
  {
    if xs != [] {
      var n := |xs| - 1;
      KeptAreSurvivors(xs[..n], k);
      if k < n {
        SurvivesInPrefix(xs, n, k);
      }
    }
  }

  lemma {:induction false} KeptAreOrdered(xs: seq<Json>)
    ensures forall i :: 0 <= i < |KeptPositions(xs)| ==> KeptPositions(xs)[i] < |xs|
    ensures forall i, j :: 0 <= i < j < |KeptPositions(xs)| ==> KeptPositions(xs)[i] < KeptPositions(xs)[j]
  {
    if xs != [] {
      KeptAreOrdered(xs[..|xs| - 1]);
    }
  }

  lemma {:induction false} KeptAreDedup(xs: seq<Json>)
    ensures |KeptPositions(xs)| == |Dedup(xs)|
    ensures forall i :: 0 <= i < |Dedup(xs)| ==> KeptPositions(xs)[i] < |xs| && xs[KeptPositions(xs)[i]] == Dedup(xs)[i]
  {
    if xs != [] {
      KeptAreDedup(xs[..|xs| - 1]);
    }
  }

  /** Exactly the non-strings and the first occurrences of strings survive, in their order. */
  lemma DedupKeepsFirstOccurrences(xs: seq<Json>)
    ensures FirstOccurrences(xs, Dedup(xs), KeptPositions(xs))
  {
    KeptAreDedup(xs);
    KeptAreOrdered(xs);
    forall k: nat
      ensures k in KeptPositions(xs) <==> k < |xs| && Survives(xs, k)
    {
      KeptAreSurvivors(xs, k);
    }
  }

  lemma {:induction false} DedupIsDistinct(xs: seq<Json>)
    ensures DistinctStrings(Dedup(xs))
  {
    if xs != [] {
      var n := |xs| - 1;
      DedupIsDistinct(xs[..n]);
      DedupMembers(xs[..n], xs[n]);
    }
  }

  lemma DedupSnoc(xs: seq<Json>, x: Json)
    ensures Dedup(xs + [x]) == if x.Str? && x in xs then Dedup(xs) else Dedup(xs) + [x]
  {
    assert (xs + [x])[..|xs|] == xs;
  }

  lemma {:induction false} DedupAbsorbs(a: seq<Json>, b: seq<Json>)
    ensures Dedup(Dedup(a) + b) == Dedup(a + b)
  {
    if b == [] {
      assert Dedup(a) + b == Dedup(a) && a + b == a;
      DedupIdempotent(a);
    } else {
      var n := |b| - 1;
      var left, right := Dedup(a) + b, a + b;
      assert left[..|left| - 1] == Dedup(a) + b[..n] && right[..|right| - 1] == a + b[..n];
      DedupAbsorbs(a, b[..n]);
      DedupMembers(a, b[n]);
      assert b[n] in Dedup(a) + b[..n] <==> b[n] in a + b[..n];
    }
  }

  lemma {:induction false} DedupIdempotent(a: seq<Json>)
    ensures Dedup(Dedup(a)) == Dedup(a)
  {
    if a != [] {
      var n := |a| - 1;
      DedupIdempotent(a[..n]);
      DedupMembers(a[..n], a[n]);
      var d := Dedup(a[..n]);
      assert (d + [a[n]])[..|d|] == d;
    }
  }

  ghost predicate SeenStrings(seen: set<string>, xs: seq<Json>) {
    forall s :: s in seen <==> Str(s) in xs
  }

  lemma SeenSnoc(seen: set<string>, xs: seq<Json>, x: Json)
    requires SeenStrings(seen, xs)
    ensures SeenStrings(if x.Str? then seen + {x.s} else seen, xs + [x])
  {
  }

  /** First loop of the merge: the image's own entries; `seen` is the set of strings already emitted. */
  method MergeExisting(existing: seq<Json>) returns (merged: seq<Json>, seen: set<string>)
    ensures merged == Dedup(existing) && SeenStrings(seen, existing)
  {
    merged, seen := [], {};
    for i := 0 to |existing|
      invariant merged == Dedup(existing[..i]) && SeenStrings(seen, existing[..i])
    {
      var k := existing[i];
      DedupSnoc(existing[..i], k);
      SeenSnoc(seen, existing[..i], k);
      assert existing[..i + 1] == existing[..i] + [k];
      if !k.Str? {
        merged := merged + [k];
      } else if k.s !in seen {
        seen := seen + {k.s};
        merged := merged + [Str(k.s)];
      } else {
        assert seen + {k.s} == seen;
      }
    }
    assert existing[..|existing|] == existing;
  }

  lemma StrsSnoc(keys: seq<string>, i: nat)
    requires i < |keys|
    ensures Strs(keys[..i + 1]) == Strs(keys[..i]) + [Str(keys[i])]
  {
  }

  /** One turn of the second loop; `done` is everything merged so far. */
  method AppendKey(ghost done: seq<Json>, merged0: seq<Json>, seen0: set<string>, k: string)
    returns (merged: seq<Json>, seen: set<string>)
    requires merged0 == Dedup(done) && SeenStrings(seen0, done)
    ensures merged == Dedup(done + [Str(k)]) && SeenStrings(seen, done + [Str(k)])
  {
    merged, seen := merged0, seen0;
    DedupSnoc(done, Str(k));
    SeenSnoc(seen, done, Str(k));
    if k !in seen {
      seen := seen + {k};
      merged := merged + [Str(k)];
    } else {
      assert seen + {k} == seen;
    }
  }

  /** The merge: the image's entries, then the owner's keys. */
  method MergeKeys(existing: seq<Json>, keys: seq<string>) returns (merged: seq<Json>)
    ensures merged == Dedup(existing + Strs(keys))
  {
    var seen;
    merged, seen := MergeExisting(existing);
    ghost var done := existing;
    for i := 0 to |keys|
      invariant done == existing + Strs(keys[..i])
      invariant merged == Dedup(done) && SeenStrings(seen, done)
    {
      StrsSnoc(keys, i);
      merged, seen := AppendKey(done, merged, seen, keys[i]);
      done := done + [Str(keys[i])];
    }
    assert keys[..|keys|] == keys;
  }

  function InjectKeys(data: UserData, keys: seq<string>): UserData {
    if keys == [] || data.Unparsed? then data
    else
      var body := if data.Config? then data.body else map[];
      Config(true, body[KEYS := Arr(Dedup(ListOf(body, KEYS) + Strs(keys)))])
  }

  lemma StrsConcat(k1: seq<string>, k2: seq<string>)
    ensures Strs(k1 + k2) == Strs(k1) + Strs(k2)
  {
  }

  lemma MergeTwice(existing: seq<Json>, k1: seq<string>, k2: seq<string>)
    ensures Dedup(Dedup(existing + Strs(k1)) + Strs(k2)) == Dedup(existing + Strs(k1 + k2))
    ensures Dedup(Dedup(existing + Strs(k1)) + Strs(k1)) == Dedup(existing + Strs(k1))
  {
    var once := existing + Strs(k1);
    StrsConcat(k1, k2);
    assert once + Strs(k2) == existing + Strs(k1 + k2);
    DedupAbsorbs(once, Strs(k2));
    DedupAbsorbs(once, Strs(k1));
    AppendKnown(once, Strs(k1));
  }

  /** Merging in two passes is merging once with both lists; in particular merging again changes nothing. */
  lemma InjectTwice(data: UserData, k1: seq<string>, k2: seq<string>)
    ensures InjectKeys(InjectKeys(data, k1), k2) == InjectKeys(data, k1 + k2)
    ensures InjectKeys(InjectKeys(data, k1), k1) == InjectKeys(data, k1)
  {
    if k1 == [] {
      assert k1 + k2 == k2;
    } else if !data.Unparsed? {
      var body := if data.Config? then data.body else map[];
      InjectAgain(body, k1, k1);
      if k2 == [] {
        assert k1 + k2 == k1;
      } else {
        InjectAgain(body, k1, k2);
      }
    }
  }

  lemma InjectAgain(body: Body, k1: seq<string>, k2: seq<string>)
    requires k1 != [] && k2 != []
    ensures InjectKeys(InjectKeys(Config(true, body), k1), k2) == InjectKeys(Config(true, body), k1 + k2)
    ensures InjectKeys(InjectKeys(Config(true, body), k1), k1) == InjectKeys(Config(true, body), k1)
  {
    var existing := ListOf(body, KEYS);
    var once := body[KEYS := Arr(Dedup(existing + Strs(k1)))];
    assert ListOf(once, KEYS) == Dedup(existing + Strs(k1));
    MergeTwice(existing, k1, k2);
    var both, again := Arr(Dedup(existing + Strs(k1 + k2))), Arr(Dedup(existing + Strs(k1)));
    assert once[KEYS := both] == body[KEYS := both] && once[KEYS := again] == body[KEYS := again];
  }

  lemma {:induction false} AppendKnown(a: seq<Json>, b: seq<Json>)
    requires forall x <- b :: x.Str? && x in a
    ensures Dedup(a + b) == Dedup(a)
  {
    if b == [] {
      assert a + b == a;
    } else {
      var n := |b| - 1;
      assert (a + b)[..|a| + n] == a + b[..n];
      assert b[n] in b;
      AppendKnown(a, b[..n]);
    }
  }

  // ---------------------------------------------------------------- agent binding

  /** `binding`: the entry for an initialised agent workspace; None if the UID or generation is missing. */
  datatype Agent = NoAgent | AgentImage(binding: Option<Json>)

  predicate Reserved(files: seq<Json>) {
    exists f <- files :: f.Obj? && "path" in f.fields && f.fields["path"] == BINDING_PATH
  }

  function BindAgent(agent: Agent, data: UserData): Result<UserData> {
    if agent.NoAgent? then Ok(data)
    else if agent.binding.None? || !(data.Config? && data.header) then Err
    else
      var body := if data.Config? then data.body else map[];
      var files := ListOf(body, FILES);
      if Reserved(files) then Err
      else Ok(Config(true, body[FILES := Arr(files + [agent.binding.value])]))
  }

  // ---------------------------------------------------------------- disk mounts

  /** A volume mount with the boot command generated for it; `valid` is the DNS label and guest path check. */
  datatype Mount = Mount(name: string, path: string, valid: bool, command: string)

  ghost predicate UsableMounts(mounts: seq<Mount>) {
    && (forall m <- mounts :: m.valid)
    && (forall i, j :: 0 <= i < j < |mounts| ==> mounts[i].name != mounts[j].name && mounts[i].path != mounts[j].path)
  }

  function Commands(mounts: seq<Mount>): seq<Json> {
    seq(|mounts|, i requires 0 <= i < |mounts| => Str(mounts[i].command))
  }

  ghost predicate SeenMounts(names: set<string>, paths: set<string>, mounts: seq<Mount>) {
    && (forall s :: s in names <==> exists m <- mounts :: m.name == s)
    && (forall s :: s in paths <==> exists m <- mounts :: m.path == s)
  }

  lemma SeenMountsSnoc(names: set<string>, paths: set<string>, mounts: seq<Mount>, m: Mount)
    requires SeenMounts(names, paths, mounts)
    ensures SeenMounts(names + {m.name}, paths + {m.path}, mounts + [m])
  {
    assert forall o :: o in mounts + [m] <==> o in mounts || o == m;
  }

  lemma UsableSnoc(names: set<string>, paths: set<string>, mounts: seq<Mount>, m: Mount)
    requires SeenMounts(names, paths, mounts)
    ensures UsableMounts(mounts + [m]) <==> UsableMounts(mounts) && m.valid && m.name !in names && m.path !in paths
  {
    var all := mounts + [m];
    assert all[|mounts|] == m && forall i :: 0 <= i < |mounts| ==> all[i] == mounts[i];
    assert forall o :: o in all <==> o in mounts || o == m;
    if UsableMounts(all) {
      assert forall o <- mounts :: o in all;
    }
  }

  lemma UsablePrefix(mounts: seq<Mount>, i: nat)
    requires i <= |mounts|
    ensures UsableMounts(mounts) ==> UsableMounts(mounts[..i])
  {
  }

  lemma CommandsSnoc(mounts: seq<Mount>, m: Mount)
    ensures Commands(mounts + [m]) == Commands(mounts) + [Str(m.command)]
  {
  }

  /** The mount loop: names and paths must be valid and unique, each mount appends one command. */
  method AppendMounts(commands: seq<Json>, mounts: seq<Mount>) returns (r: Result<seq<Json>>)
    ensures r == if UsableMounts(mounts) then Ok(commands + Commands(mounts)) else Err
  {
    var all, names, paths := commands, {}, {};
    for i := 0 to |mounts|
      invariant UsableMounts(mounts[..i]) && SeenMounts(names, paths, mounts[..i])
      invariant all == commands + Commands(mounts[..i])
    {
      var m := mounts[i];
      assert mounts[..i + 1] == mounts[..i] + [m];
      UsableSnoc(names, paths, mounts[..i], m);
      if !m.valid || m.name in names || m.path in paths {
        UsablePrefix(mounts, i + 1);
        return Err;
      }
      SeenMountsSnoc(names, paths, mounts[..i], m);
      CommandsSnoc(mounts[..i], m);
      names, paths := names + {m.name}, paths + {m.path};
      all := all + [Str(m.command)];
    }
    assert mounts[..|mounts|] == mounts;
    return Ok(all);
  }

  /** `capable`: the image declares cloud-init or user-data. */
  ghost function MountDisks(capable: bool, data: UserData, mounts: seq<Mount>): Result<UserData> {
    if mounts == [] then Ok(data)
    else if !capable || !(data.Empty? || (data.Config? && data.header)) || !UsableMounts(mounts) then Err
    else
      var body := if data.Config? then data.body else map[];
      Ok(Config(true, body[BOOT := Arr(ListOf(body, BOOT) + Commands(mounts))]))
  }

  // ---------------------------------------------------------------- the pipeline

  ghost function Pipeline(image: UserData, keys: seq<string>, agent: Agent, capable: bool, mounts: seq<Mount>): Result<UserData> {
    var bound := BindAgent(agent, InjectKeys(image, keys));
    if !bound.Ok? then bound else MountDisks(capable, bound.value, mounts)
  }

  /** The key merge rewrites the user-data as a cloud-config. */
  predicate Injects(image: UserData, keys: seq<string>) {
    keys != [] && !image.Unparsed?
  }

  /** The image already writes the file that is reserved for the binding. */
  ghost predicate WritesBinding(image: UserData) {
    && image.Config? && "write_files" in image.body && image.body["write_files"].Arr?
    && exists i :: 0 <= i < |image.body["write_files"].elems| && IsBinding(image.body["write_files"].elems[i])
  }

  predicate IsBinding(f: Json) {
    f.Obj? && "path" in f.fields && f.fields["path"] == Str("/etc/workspace-agent/public/binding.json")
  }

  lemma ReservedExactly(image: UserData)
    requires image.Config?
    ensures Reserved(ListOf(image.body, FILES)) <==> WritesBinding(image)
  {
    var files := ListOf(image.body, FILES);
    if Reserved(files) {
      var f :| f in files && f.Obj? && "path" in f.fields && f.fields["path"] == BINDING_PATH;
      var i :| 0 <= i < |files| && files[i] == f;
      assert IsBinding(image.body["write_files"].elems[i]);
    }
    if WritesBinding(image) {
      var i :| 0 <= i < |image.body["write_files"].elems| && IsBinding(image.body["write_files"].elems[i]);
      assert files[i] in files;
    }
  }

  /** An agent image needs its binding, a cloud-config and a free place for the binding file. */
  ghost predicate AgentAccepts(image: UserData, keys: seq<string>, agent: Agent) {
    agent.NoAgent? ||
    (agent.binding.Some? && (Injects(image, keys) || (image.Config? && image.header)) && !WritesBinding(image))
  }

  /** Mounts need a capable image, usable mounts, and no user-data or a cloud-config. */
  ghost predicate MountsAccept(image: UserData, keys: seq<string>, agent: Agent, capable: bool, mounts: seq<Mount>) {
    mounts == [] ||
    (&& capable
     && (forall i :: 0 <= i < |mounts| ==> mounts[i].valid)
     && (forall i, j :: 0 <= i < j < |mounts| ==> mounts[i].name != mounts[j].name)
     && (forall i, j :: 0 <= i < j < |mounts| ==> mounts[i].path != mounts[j].path)
     && (Injects(image, keys) || agent.AgentImage? || image.Empty? || (image.Config? && image.header)))
  }

  lemma UsableSpelt(mounts: seq<Mount>)
    ensures UsableMounts(mounts) <==>
            && (forall i :: 0 <= i < |mounts| ==> mounts[i].valid)
            && (forall i, j :: 0 <= i < j < |mounts| ==> mounts[i].name != mounts[j].name)
            && (forall i, j :: 0 <= i < j < |mounts| ==> mounts[i].path != mounts[j].path)
  {
    if UsableMounts(mounts) {
      assert forall i :: 0 <= i < |mounts| ==> mounts[i] in mounts;
    }
  }

  /** When the pipeline succeeds, in terms of its inputs. */
  lemma PipelineOutcome(image: UserData, keys: seq<string>, agent: Agent, capable: bool, mounts: seq<Mount>)
    ensures Pipeline(image, keys, agent, capable, mounts).Ok? <==>
            AgentAccepts(image, keys, agent) && MountsAccept(image, keys, agent, capable, mounts)
  {
    var injected := InjectKeys(image, keys);
    UsableSpelt(mounts);
    if image.Config? {
      ReservedExactly(image);
    }
    if Injects(image, keys) {
      var body := if image.Config? then image.body else map[];
      assert injected.Config? && injected.header && ListOf(injected.body, FILES) == ListOf(body, FILES);
      assert image.Config? || ListOf(body, FILES) == [];
    } else {
      assert injected == image;
    }
  }

  function EntriesOf(image: UserData): Body {
    if image.Config? then image.body else map[]
  }

  /** A list entry of the image, or the empty list where there is none. */
  function OldList(image: UserData, key: string): seq<Json> {
    if key in EntriesOf(image) && EntriesOf(image)[key].Arr? then EntriesOf(image)[key].elems else []
  }

  /**
   The result of a successful pipeline, for user-data of every kind, the empty one included: untouched if no stage had
   anything to do; otherwise a cloud-config with the image's entries, in which each stage that had something to do has
   written exactly its own entry.
   */
  lemma PipelineResult(image: UserData, keys: seq<string>, agent: Agent, capable: bool, mounts: seq<Mount>)
    requires Pipeline(image, keys, agent, capable, mounts).Ok?
    ensures var out := Pipeline(image, keys, agent, capable, mounts).value;
            if (keys == [] || image.Unparsed?) && agent.NoAgent? && mounts == [] then out == image
            else
              && out.Config? && out.header
              && forall k: string ::
                   (if k in out.body then Some(out.body[k]) else None) ==
                   if k == "ssh_authorized_keys" && keys != [] then Some(Arr(Dedup(OldList(image, k) + Strs(keys))))
                   else if k == "write_files" && agent.AgentImage? then Some(Arr(OldList(image, k) + [agent.binding.value]))
                   else if k == "bootcmd" && mounts != [] then Some(Arr(OldList(image, k) + Commands(mounts)))
                   else if k in EntriesOf(image) then Some(EntriesOf(image)[k])
                   else None
  {
    PipelineOutcome(image, keys, agent, capable, mounts);
  }

  /** A document without entries is no obstacle: the mounts become its only entry. */
  lemma BareHeaderTakesMounts(mounts: seq<Mount>)
    requires mounts != [] && UsableMounts(mounts)
    ensures Pipeline(Config(true, map[]), [], NoAgent, true, mounts) == Ok(Config(true, map[BOOT := Arr(Commands(mounts))]))
  {
    var body: Body := map[];
    assert ListOf(body, BOOT) + Commands(mounts) == Commands(mounts);
    assert body[BOOT := Arr(Commands(mounts))] == map[BOOT := Arr(Commands(mounts))];
  }

  /** A list entry of the image survives, possibly with additions at its end. */
  ghost predicate Extended(before: Body, after: Body, key: string) {
    key in before ==> key in after && (after[key] == before[key]
                                       || (before[key].Arr? && after[key].Arr? && before[key].elems <= after[key].elems))
  }

  /** Every key the image authorised is still authorised. */
  ghost predicate KeysKept(before: Body, after: Body) {
    KEYS in before ==> KEYS in after && (after[KEYS] == before[KEYS]
                                         || (before[KEYS].Arr? && after[KEYS].Arr?
                                             && forall x <- before[KEYS].elems :: x in after[KEYS].elems))
  }

  predicate ListOrAbsent(body: Body, key: string) {
    key !in body || body[key].Arr?
  }

  /**
   What happens to the image's own configuration. Entries the pipeline does not manage are untouched.
   A managed entry survives, extended only at its end, exactly when the stage that manages it is idle
   or the image wrote it as a list; any other value is overwritten.
   */
  lemma PipelinePreserves(header: bool, body: Body, keys: seq<string>, agent: Agent, capable: bool, mounts: seq<Mount>)
    requires Pipeline(Config(header, body), keys, agent, capable, mounts).Ok?
    ensures var out := Pipeline(Config(header, body), keys, agent, capable, mounts).value;
            && out.Config?
            && (forall k <- body :: k !in {KEYS, FILES, BOOT} ==> k in out.body && out.body[k] == body[k])
            && (Extended(body, out.body, BOOT) <==> mounts == [] || ListOrAbsent(body, BOOT))
            && (Extended(body, out.body, FILES) <==> agent.NoAgent? || ListOrAbsent(body, FILES))
            && (KeysKept(body, out.body) <==> keys == [] || ListOrAbsent(body, KEYS))
            && (mounts != [] ==> ListOf(out.body, BOOT) == ListOf(body, BOOT) + Commands(mounts))
            && (agent.AgentImage? ==> ListOf(out.body, FILES) == ListOf(body, FILES) + [agent.binding.value])
            && (keys != [] ==> ListOf(out.body, KEYS) == Dedup(ListOf(body, KEYS) + Strs(keys)))
  {
    var out := Pipeline(Config(header, body), keys, agent, capable, mounts).value.body;
    if keys != [] && KEYS in body && body[KEYS].Arr? {
      forall x | x in body[KEYS].elems
        ensures x in out[KEYS].elems
      {
        DedupMembers(body[KEYS].elems + Strs(keys), x);
      }
    }
    assert mounts != [] ==> out[BOOT].Arr?;
    assert agent.AgentImage? ==> out[FILES].Arr?;
    assert keys != [] ==> out[KEYS].Arr?;
  }

  /** A scalar bootcmd really is lost. */
  lemma ScalarBootcmdIsReplaced(mount: Mount)
    requires mount.valid
    ensures Pipeline(Config(true, map[BOOT := Str("true")]), [], NoAgent, true, [mount])
            == Ok(Config(true, map[BOOT := Arr([Str(mount.command)])]))
  {
    assert Commands([mount]) == [Str(mount.command)];
    var body: Body := map[BOOT := Str("true")];
    assert ListOf(body, BOOT) + Commands([mount]) == [Str(mount.command)];
    assert body[BOOT := Arr([Str(mount.command)])] == map[BOOT := Arr([Str(mount.command)])];
    assert UsableMounts([mount]);
  }
}
