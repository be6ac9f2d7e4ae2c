/**
 Synchronising a git catalog of Images into the cluster (syncRepo and syncImageFile of
 internal/controller/imagerepository_controller.go). Cloning, reading and parsing are inputs: a sync
 gets the list of parsed manifests.
 */
module Catalog {
  import opened ApiServer

  type Name = string

  const REPOSITORY := "kubeworkspaces.io/image-repository"
  const MANAGED := "kubeworkspaces.io/managed-by"
  const MANAGED_VALUE := "imagerepository-controller"

  datatype Image = Image(labels: map<string, string>, annotations: map<string, string>, spec: string, finalizers: set<string>, deleting: bool)

  /** A parsed file; `rejected` means the API server refuses the object as invalid. */
  datatype File =
    | NotAnImage
    | Malformed
    | Manifest(name: Name, labels: map<string, string>, annotations: map<string, string>, spec: string, finalizers: set<string>, rejected: bool)

  type Images = Store<Name, Image>

  predicate Invalid(f: File) {
    f.Malformed? || (f.Manifest? && f.rejected)
  }

  predicate Importable(f: File) {
    f.Manifest? && !f.rejected
  }

  predicate LabelledBy(image: Image, repo: Name) {
    REPOSITORY in image.labels && image.labels[REPOSITORY] == repo
  }

  /** The labels the controller stamps on a manifest; they win over what the file says. */
  function Stamped(labels: map<string, string>, repo: Name): map<string, string> {
    labels[REPOSITORY := repo][MANAGED := MANAGED_VALUE]
  }

  /** `source`: the annotations recording URL, ref, commit and path. */
  function Adopted(existing: Image, f: File, repo: Name, source: map<string, string>): Image
    requires f.Manifest?
  {
    existing.(spec := f.spec, labels := existing.labels + Stamped(f.labels, repo), annotations := existing.annotations + (f.annotations + source))
  }

  function Fresh(f: File, repo: Name, source: map<string, string>): Image
    requires f.Manifest?
  {
    Image(Stamped(f.labels, repo), f.annotations + source, f.spec, f.finalizers, false)
  }

  /** Deleting an object with finalizers only marks it. */
  function DeleteImage(s: Images, name: Name, precondition: Option<(Uid, nat)>): Reply<Name, Image> {
    if name in s.objects && s.objects[name].body.finalizers != {}
       && (precondition.None? || precondition.value == (s.objects[name].uid, s.objects[name].version)) then
      Reply(Update(s, name, s.objects[name].version, s.objects[name].body.(deleting := true)).store, Done)
    else Delete(s, name, precondition)
  }

  // ================================================================ concurrent syncs and editors

  datatype Phase =
    | Import(files: seq<File>)
    | Creating(files: seq<File>)
    | Updating(files: seq<File>, seen: Object<Image>)
    | Listing
    | Pruning(items: seq<(Name, Object<Image>)>)
    | Ended

  /** `incomplete`: some file was invalid, so nothing may be pruned. */
  datatype Sync = Sync(repo: Name, source: map<string, string>, desired: set<Name>, incomplete: bool, phase: Phase)

  datatype World = World(images: Images, syncs: map<nat, Sync>)

  datatype Event =
    | Begin(pid: nat, repo: Name, source: map<string, string>, files: seq<File>)
    | Step(pid: nat, uid: Uid, list: seq<(Name, Object<Image>)>)
    | Crash(pid: nat)
    | CreateImage(name: Name, uid: Uid, image: Image)
    | EditImage(name: Name, image: Image)
    | RemoveImage(name: Name)

  /** `list` is what the API server returned for the label selector, in any order. */
  ghost predicate ListedBy(images: Images, repo: Name, list: seq<(Name, Object<Image>)>) {
    && (forall item <- list :: item.0 in images.objects && images.objects[item.0] == item.1 && LabelledBy(item.1.body, repo))
    && (forall n <- images.objects :: LabelledBy(images.objects[n].body, repo) ==> (n, images.objects[n]) in list)
  }

  ghost function StepImport(images: Images, y: Sync, uid: Uid): (Images, Sync)
    requires y.phase.Import? || y.phase.Creating? || y.phase.Updating?
  {
    var files := y.phase.files;
    if files == [] then (images, y.(phase := Listing))
    else if Invalid(files[0]) then (images, y.(incomplete := true, phase := Import(files[1..])))
    else if files[0].NotAnImage? then (images, y.(phase := Import(files[1..])))
    else
      var f := files[0];
      var done := y.(desired := y.desired + {f.name}, phase := Import(files[1..]));
      match y.phase
      case Import(_) =>
        if f.name !in images.objects then (images, y.(phase := Creating(files)))
        else
          var seen := images.objects[f.name];
          (images, if Adopted(seen.body, f, y.repo, y.source) == seen.body then done else y.(phase := Updating(files, seen)))
      case Creating(_) =>
        if uid in images.issued then (images, y)
        else
          var reply := Create(images, f.name, uid, Fresh(f, y.repo, y.source));
          (reply.store, if reply.outcome == Done then done else y.(phase := Import(files)))
      case Updating(_, seen) =>
        var reply := Update(images, f.name, seen.version, Adopted(seen.body, f, y.repo, y.source));
        (reply.store, match reply.outcome
                      case Done => done
                      case Conflict => y.(phase := Import(files))
                      case _ => y.(phase := Ended))
  }

  ghost function StepPrune(images: Images, y: Sync): (Images, Sync)
    requires y.phase.Pruning?
  {
    var items := y.phase.items;
    if items == [] || y.incomplete then (images, y.(phase := Ended))
    else if items[0].0 in y.desired then (images, y.(phase := Pruning(items[1..])))
    else
      var reply := DeleteImage(images, items[0].0, Some((items[0].1.uid, items[0].1.version)));
      (reply.store, y.(phase := if reply.outcome == Conflict then Ended else Pruning(items[1..])))
  }

  ghost function Next(w: World, e: Event): World {
    match e
    case Begin(pid, repo, source, files) =>
      if pid in w.syncs then w else w.(syncs := w.syncs[pid := Sync(repo, source, {}, false, Import(files))])
    case Step(pid, uid, list) =>
      if pid !in w.syncs then w
      else
        var y := w.syncs[pid];
        if y.phase.Ended? then w
        else if y.phase.Listing? then
          if ListedBy(w.images, y.repo, list) then w.(syncs := w.syncs[pid := y.(phase := Pruning(list))]) else w
        else
          var (images, y') := if y.phase.Pruning? then StepPrune(w.images, y) else StepImport(w.images, y, uid);
          World(images, w.syncs[pid := y'])
    case Crash(pid) => w.(syncs := w.syncs - {pid})
    case CreateImage(name, uid, image) => if uid in w.images.issued then w else w.(images := Create(w.images, name, uid, image).store)
    case EditImage(name, image) =>
      if name !in w.images.objects then w else w.(images := Update(w.images, name, w.images.objects[name].version, image).store)
    case RemoveImage(name) => w.(images := DeleteImage(w.images, name, None).store)
  }

  ghost function Run(w: World, trace: seq<Event>): World {
    if trace == [] then w else Next(Run(w, trace[..|trace| - 1]), trace[|trace| - 1])
  }

  /** What a sync holds in hand: copies of objects, and for pruning copies that carried its own label. */
  ghost predicate SyncInv(images: Images, y: Sync) {
    && (y.phase.Pruning? ==> forall item <- y.phase.items :: Snapshot(images, item.0, item.1) && LabelledBy(item.1.body, y.repo))
    && (y.phase.Updating? && y.phase.files != [] && y.phase.files[0].Manifest? ==>
          Snapshot(images, y.phase.files[0].name, y.phase.seen))
  }

  ghost predicate Inv(w: World) {
    Valid(w.images) && forall pid <- w.syncs :: SyncInv(w.images, w.syncs[pid])
  }

  lemma SyncInvEvolves(s: Images, t: Images, y: Sync)
    requires SyncInv(s, y) && Evolves(s, t)
    ensures SyncInv(t, y)
  {
    if y.phase.Pruning? {
      forall item | item in y.phase.items
        ensures Snapshot(t, item.0, item.1)
      {
        SnapshotEvolves(s, t, item.0, item.1);
      }
    }
  }

  lemma ImportEvolves(images: Images, y: Sync, uid: Uid)
    requires Valid(images) && (y.phase.Import? || y.phase.Creating? || y.phase.Updating?)
    ensures Evolves(images, StepImport(images, y, uid).0)
  {
    EvolvesReflexive(images);
  }

  lemma PruneEvolves(images: Images, y: Sync)
    requires Valid(images) && y.phase.Pruning?
    ensures Evolves(images, StepPrune(images, y).0)
  {
    EvolvesReflexive(images);
  }

  lemma ImagesEvolve(w: World, e: Event)
    requires Inv(w)
    ensures Evolves(w.images, Next(w, e).images)
  {
    EvolvesReflexive(w.images);
    if e.Step? && e.pid in w.syncs {
      var y := w.syncs[e.pid];
      if y.phase.Pruning? {
        PruneEvolves(w.images, y);
      } else if !y.phase.Ended? && !y.phase.Listing? {
        ImportEvolves(w.images, y, e.uid);
      }
    }
  }

  lemma ImportKeepsInv(images: Images, y: Sync, uid: Uid)
    requires Valid(images) && SyncInv(images, y) && (y.phase.Import? || y.phase.Creating? || y.phase.Updating?)
    ensures var (t, y') := StepImport(images, y, uid); SyncInv(t, y')
  {
  }

  lemma PruneKeepsInv(images: Images, y: Sync)
    requires Valid(images) && SyncInv(images, y) && y.phase.Pruning?
    ensures var (t, y') := StepPrune(images, y); Evolves(images, t) && SyncInv(t, y')
  {
    var (t, y') := StepPrune(images, y);
    EvolvesReflexive(images);
    assert Evolves(images, t);
    SyncInvEvolves(images, t, y);
  }

  lemma MovedSyncInv(w: World, pid: nat, uid: Uid, list: seq<(Name, Object<Image>)>)
    requires Inv(w) && pid in w.syncs
    ensures var d := Next(w, Step(pid, uid, list)); SyncInv(d.images, d.syncs[pid])
  {
    var y := w.syncs[pid];
    assert SyncInv(w.images, y);
    if y.phase.Pruning? {
      PruneKeepsInv(w.images, y);
    } else if !y.phase.Ended? && !y.phase.Listing? {
      ImportKeepsInv(w.images, y, uid);
    }
  }

  lemma StepKeepsInv(w: World, e: Event)
    requires Inv(w)
    ensures Inv(Next(w, e))
  {
    var d := Next(w, e);
    ImagesEvolve(w, e);
    forall pid | pid in d.syncs
      ensures SyncInv(d.images, d.syncs[pid])
    {
      if e.Step? && e.pid == pid {
        MovedSyncInv(w, pid, e.uid, e.list);
      } else if pid in w.syncs {
        SyncInvEvolves(w.images, d.images, w.syncs[pid]);
      }
    }
  }

  lemma {:induction false} RunKeepsInv(start: World, trace: seq<Event>)
    requires Inv(start)
    ensures Inv(Run(start, trace))
  {
    if trace != [] {
      RunKeepsInv(start, trace[..|trace| - 1]);
      StepKeepsInv(Run(start, trace[..|trace| - 1]), trace[|trace| - 1]);
    }
  }

  /** The image disappeared, or was newly marked for deletion. */
  predicate DeletedBetween(before: Images, after: Images, name: Name) {
    name in before.objects && (name !in after.objects || (after.objects[name].body.deleting && !before.objects[name].body.deleting))
  }

  /**
   In every interleaving, a sync deletes an Image only while pruning, only if every file was valid, only if the
   Image is not one it imported, and only if the Image's label names this very repository at that moment.
   */
  lemma PruneOnlyOwnImages(start: World, trace: seq<Event>, pid: nat, uid: Uid, list: seq<(Name, Object<Image>)>, name: Name)
    requires Inv(start)
    requires var w := Run(start, trace);
             pid in w.syncs && DeletedBetween(w.images, Next(w, Step(pid, uid, list)).images, name)
    ensures var w := Run(start, trace);
            && w.syncs[pid].phase.Pruning? && !w.syncs[pid].incomplete && name !in w.syncs[pid].desired
            && "kubeworkspaces.io/image-repository" in w.images.objects[name].body.labels
            && w.images.objects[name].body.labels["kubeworkspaces.io/image-repository"] == w.syncs[pid].repo
  {
    RunKeepsInv(start, trace);
    var w := Run(start, trace);
    assert SyncInv(w.images, w.syncs[pid]);
    var y := w.syncs[pid];
    if y.phase.Pruning? && y.phase.items != [] {
      assert y.phase.items[0] in y.phase.items;
    }
  }

  // ================================================================ a sync running alone

  /** Importing one file into a catalog nobody else touches. */
  function ImportOne(s: Images, f: File, repo: Name, source: map<string, string>, uid: Uid): Images
    requires uid !in s.issued
  {
    if !Importable(f) then s
    else if f.name !in s.objects then Create(s, f.name, uid, Fresh(f, repo, source)).store
    else
      var seen := s.objects[f.name];
      var updated := Adopted(seen.body, f, repo, source);
      if updated == seen.body then s else Update(s, f.name, seen.version, updated).store
  }

  /** UIDs the API server will hand out: distinct and unused. */
  ghost predicate Supply(s: Images, uids: seq<Uid>) {
    && (forall u <- uids :: u !in s.issued)
    && (forall i, j :: 0 <= i < j < |uids| ==> uids[i] != uids[j])
  }

  /** The same object, with its finalizers, its deletion mark and all its label and annotation keys. */
  ghost predicate KeepsIdentity(a: Object<Image>, b: Object<Image>) {
    && b.uid == a.uid && b.body.finalizers == a.body.finalizers && b.body.deleting == a.body.deleting
    && a.body.labels.Keys <= b.body.labels.Keys && a.body.annotations.Keys <= b.body.annotations.Keys
  }

  ghost predicate Imported(s: Images, t: Images, files: seq<File>, repo: Name) {
    // Every importable file left an Image with this repository's label and the spec of its last file.
    && (forall i :: 0 <= i < |files| && Importable(files[i]) ==>
          && files[i].name in t.objects && LabelledBy(t.objects[files[i].name].body, repo)
          && (LastFor(files, i) ==> t.objects[files[i].name].body.spec == files[i].spec))
    // An Image that was already there keeps its identity and its other metadata.
    && (forall n <- s.objects :: n in t.objects && KeepsIdentity(s.objects[n], t.objects[n]))
    // Nothing else moved.
    && (forall n :: n !in Names(files) ==> (n in t.objects <==> n in s.objects) && (n in s.objects ==> t.objects[n] == s.objects[n]))
  }

  /** No later file imports the same name. */
  ghost predicate LastFor(files: seq<File>, i: nat)
    requires i < |files| && Importable(files[i])
  {
    forall j :: i < j < |files| && Importable(files[j]) ==> files[j].name != files[i].name
  }

  function Names(files: seq<File>): set<Name> {
    set f | f in files && Importable(f) :: f.name
  }

  /** Exactly the Images of this repository outside `desired` are deleted; with finalizers, only marked. */
  ghost predicate PrunedOf(s: Images, t: Images, doomed: set<Name>) {
    forall n ::
      if n in doomed && n in s.objects then
        if s.objects[n].body.finalizers == {} then n !in t.objects
        else n in t.objects && t.objects[n].uid == s.objects[n].uid && t.objects[n].body == s.objects[n].body.(deleting := true)
      else (n in t.objects <==> n in s.objects) && (n in s.objects ==> t.objects[n] == s.objects[n])
  }

  ghost function Doomed(s: Images, repo: Name, desired: set<Name>): set<Name> {
    set n | n in s.objects && LabelledBy(s.objects[n].body, repo) && n !in desired
  }

  /** `out` lists the elements of `xs` once each, in order of first occurrence. */
  ghost predicate FirstOnce(xs: seq<Name>, out: seq<Name>) {
    && (forall x :: x in out <==> x in xs)
    && (forall i, j :: 0 <= i < j < |out| ==> out[i] != out[j])
    && (forall i, j :: 0 <= i < j < |out| ==> FirstAt(xs, out[i]) < FirstAt(xs, out[j]))
  }

  ghost function FirstAt(xs: seq<Name>, x: Name): nat {
    if xs == [] || xs[0] == x then 0 else 1 + FirstAt(xs[1..], x)
  }

  lemma {:induction false} FirstAtSnoc(xs: seq<Name>, y: Name, x: Name)
    ensures x in xs ==> FirstAt(xs + [y], x) == FirstAt(xs, x) < |xs|
    ensures x !in xs ==> FirstAt(xs, x) == |xs| && FirstAt(xs + [y], x) == (if x == y then |xs| else |xs| + 1)
  {
    if xs != [] {
      assert (xs + [y])[1..] == xs[1..] + [y];
      FirstAtSnoc(xs[1..], y, x);
    }
  }

  method Deduplicate(xs: seq<Name>) returns (out: seq<Name>)
    ensures FirstOnce(xs, out)
  {
    out := [];
    var seen: set<Name> := {};
    for i := 0 to |xs|
      invariant FirstOnce(xs[..i], out)
      invariant forall x :: x in seen <==> x in xs[..i]
    {
      var x := xs[i];
      assert xs[..i + 1] == xs[..i] + [x];
      forall y ensures (y in xs[..i] ==> FirstAt(xs[..i + 1], y) == FirstAt(xs[..i], y) < i) && (x !in xs[..i] ==> FirstAt(xs[..i + 1], x) == i) {
        FirstAtSnoc(xs[..i], x, y);
        FirstAtSnoc(xs[..i], x, x);
      }
      if x !in seen {
        seen := seen + {x};
        out := out + [x];
      }
    }
    assert xs[..|xs|] == xs;
  }

  lemma ImportOneFacts(s: Images, f: File, repo: Name, source: map<string, string>, uid: Uid)
    requires Valid(s) && uid !in s.issued && Importable(f)
    ensures var t := ImportOne(s, f, repo, source, uid);
            && Valid(t) && t.issued <= s.issued + {uid}
            && f.name in t.objects && LabelledBy(t.objects[f.name].body, repo) && t.objects[f.name].body.spec == f.spec
            && (f.name in s.objects ==> KeepsIdentity(s.objects[f.name], t.objects[f.name]))
            && (forall n :: n != f.name ==> (n in t.objects <==> n in s.objects) && (n in s.objects ==> t.objects[n] == s.objects[n]))
  {
    assert f.name in s.objects ==> LabelledBy(Adopted(s.objects[f.name].body, f, repo, source), repo);
  }

  lemma NamesSnoc(files: seq<File>, f: File)
    ensures Names(files + [f]) == Names(files) + (if Importable(f) then {f.name} else {})
  {
    assert forall g :: g in files + [f] <==> g in files || g == f;
  }

  lemma LastForPrefix(files: seq<File>, f: File, i: nat)
    requires i < |files| && Importable(files[i]) && LastFor(files + [f], i)
    ensures LastFor(files, i) && (Importable(f) ==> f.name != files[i].name)
  {
    var longer := files + [f];
    assert forall j :: 0 <= j < |files| ==> longer[j] == files[j];
    assert longer[|files|] == f;
  }

  lemma ImportedSnoc(s: Images, t: Images, u: Images, files: seq<File>, f: File, repo: Name)
    requires Imported(s, t, files, repo)
    requires !Importable(f) ==> u == t
    requires Importable(f) ==>
               && f.name in u.objects && LabelledBy(u.objects[f.name].body, repo) && u.objects[f.name].body.spec == f.spec
               && (f.name in t.objects ==> KeepsIdentity(t.objects[f.name], u.objects[f.name]))
               && (forall n :: n != f.name ==> (n in u.objects <==> n in t.objects) && (n in t.objects ==> u.objects[n] == t.objects[n]))
    ensures Imported(s, u, files + [f], repo)
  {
    var longer := files + [f];
    NamesSnoc(files, f);
    forall i | 0 <= i < |longer| && Importable(longer[i])
      ensures longer[i].name in u.objects && LabelledBy(u.objects[longer[i].name].body, repo)
      ensures LastFor(longer, i) ==> u.objects[longer[i].name].body.spec == longer[i].spec
    {
      if i < |files| {
        assert longer[i] == files[i];
        if LastFor(longer, i) {
          LastForPrefix(files, f, i);
        }
      }
    }
  }

  function InvalidCount(files: seq<File>): nat {
    if files == [] then 0 else InvalidCount(files[..|files| - 1]) + (if Invalid(files[|files| - 1]) then 1 else 0)
  }

  lemma {:induction false} InvalidCountZero(files: seq<File>)
    ensures InvalidCount(files) == 0 <==> forall f <- files :: !Invalid(f)
  {
    if files != [] {
      var n := |files| - 1;
      InvalidCountZero(files[..n]);
      assert files == files[..n] + [files[n]];
    }
  }

  lemma InvalidCountSnoc(files: seq<File>, f: File)
    ensures InvalidCount(files + [f]) == InvalidCount(files) + (if Invalid(f) then 1 else 0)
  {
    assert (files + [f])[..|files|] == files;
  }

  /** Only the first `i` of the supplied UIDs have been handed out. */
  ghost predicate UsedUids(start: Images, s: Images, uids: seq<Uid>, i: nat) {
    i <= |uids| && forall u <- s.issued :: u in start.issued || u in uids[..i]
  }

  lemma NextUid(start: Images, s: Images, uids: seq<Uid>, i: nat)
    requires Supply(start, uids) && UsedUids(start, s, uids, i) && i < |uids|
    ensures uids[i] !in s.issued
    ensures forall t: Images :: t.issued <= s.issued + {uids[i]} ==> UsedUids(start, t, uids, i + 1)
  {
    assert uids[i] in uids && uids[i] !in uids[..i];
    assert uids[..i + 1] == uids[..i] + [uids[i]];
  }

  /** A Registry of Images with no other writer. */
  class Registry {
    var images: Images

    /** syncImageFile: create the Image or merge the file into the existing one. */
    method SyncImageFile(f: File, repo: Name, source: map<string, string>, uid: Uid)
      requires Valid(images) && uid !in images.issued && Importable(f)
      modifies this
      ensures images == ImportOne(old(images), f, repo, source, uid)
    {
      if f.name !in images.objects {
        images := Create(images, f.name, uid, Fresh(f, repo, source)).store;
        return;
      }
      var existing := images.objects[f.name];
      var updated := existing.body;
      updated := updated.(spec := f.spec);
      updated := updated.(labels := updated.labels + Stamped(f.labels, repo));
      updated := updated.(annotations := updated.annotations + (f.annotations + source));
      if updated == existing.body {
        return;
      }
      images := Update(images, f.name, existing.version, updated).store;
    }

    /** One turn of the import loop. */
    method ImportFile(f: File, repo: Name, source: map<string, string>, uid: Uid, ghost start: Images, ghost earlier: seq<File>)
      requires Valid(images) && uid !in images.issued && Imported(start, images, earlier, repo)
      modifies this
      ensures Valid(images) && images.issued <= old(images.issued) + {uid}
      ensures Imported(start, images, earlier + [f], repo)
    {
      ghost var before := images;
      if Importable(f) {
        ImportOneFacts(images, f, repo, source, uid);
        SyncImageFile(f, repo, source, uid);
      }
      ImportedSnoc(start, before, images, earlier, f, repo);
    }

    /** The import loop of syncRepo. */
    method ImportFiles(files: seq<File>, repo: Name, source: map<string, string>, uids: seq<Uid>)
      returns (imported: seq<Name>, desired: set<Name>, invalid: nat)
      requires Valid(images) && Supply(images, uids) && |uids| >= |files|
      modifies this
      ensures Valid(images) && Imported(old(images), images, files, repo)
      ensures desired == Names(files) && (forall n :: n in imported <==> n in desired)
      ensures invalid == InvalidCount(files)
    {
      imported, desired, invalid := [], {}, 0;
      for i := 0 to |files|
        invariant Valid(images) && Imported(old(images), images, files[..i], repo)
        invariant UsedUids(old(images), images, uids, i)
        invariant desired == Names(files[..i]) && forall n :: n in imported <==> n in desired
        invariant invalid == InvalidCount(files[..i])
      {
        var f := files[i];
        assert files[..i + 1] == files[..i] + [f];
        NamesSnoc(files[..i], f);
        InvalidCountSnoc(files[..i], f);
        NextUid(old(images), images, uids, i);
        ImportFile(f, repo, source, uids[i], old(images), files[..i]);
        if Importable(f) {
          imported := imported + [f.name];
          desired := desired + {f.name};
        } else if Invalid(f) {
          invalid := invalid + 1;
        }
      }
      assert files[..|files|] == files;
    }

    /** The prune loop: every listed Image outside `desired` is deleted at the version it was listed at. */
    method Prune(repo: Name, desired: set<Name>)
      requires Valid(images)
      modifies this
      ensures Valid(images) && PrunedOf(old(images), images, Doomed(old(images), repo, desired))
    {
      var list := images;
      var names := set n | n in list.objects && LabelledBy(list.objects[n].body, repo);
      ghost var done: set<Name> := {};
      while names != {}
        invariant Valid(images)
        invariant names !! done
        invariant names + done == set n | n in list.objects && LabelledBy(list.objects[n].body, repo)
        invariant PrunedOf(list, images, done - desired)
      {
        var n :| n in names;
        if n !in desired {
          var item := list.objects[n];
          assert images.objects[n] == item;
          var reply := DeleteImage(images, n, Some((item.uid, item.version)));
          assert done + {n} - desired == (done - desired) + {n};
          PrunedMore(list, images, reply.store, done - desired, n);
          images := reply.store;
        } else {
          assert done + {n} - desired == done - desired;
        }
        names, done := names - {n}, done + {n};
      }
      assert done - desired == Doomed(list, repo, desired);
    }

    /** syncRepo, without the git part. `mid` is the catalog between importing and pruning. */
    method SyncRepo(files: seq<File>, repo: Name, source: map<string, string>, uids: seq<Uid>)
      returns (unique: seq<Name>, invalid: nat, ghost mid: Images)
      requires Valid(images) && Supply(images, uids) && |uids| >= |files|
      modifies this
      ensures Valid(images) && Imported(old(images), mid, files, repo)
      ensures invalid == InvalidCount(files)
      ensures if invalid == 0 then PrunedOf(mid, images, Doomed(mid, repo, Names(files))) else images == mid
      ensures (forall n :: n in unique <==> n in Names(files)) && (forall i, j :: 0 <= i < j < |unique| ==> unique[i] != unique[j])
    {
      var imported, desired;
      imported, desired, invalid := ImportFiles(files, repo, source, uids);
      mid := images;
      if invalid == 0 {
        Prune(repo, desired);
      }
      unique := Deduplicate(imported);
    }
  }

  lemma PrunedMore(s: Images, t: Images, u: Images, doomed: set<Name>, n: Name)
    requires PrunedOf(s, t, doomed) && n in s.objects && n !in doomed && Valid(t)
    requires n in t.objects && t.objects[n] == s.objects[n]
    requires u == DeleteImage(t, n, Some((s.objects[n].uid, s.objects[n].version))).store
    ensures PrunedOf(s, u, doomed + {n}) && Valid(u)
  {
  }

  /**
   What a sync running alone achieves. With every file valid, the finalizer-free Images carrying this
   repository's label are exactly the imported ones, and Images of others that it did not import are
   untouched. With one invalid file no Image is deleted or marked at all.
   */
  lemma SyncIsExact(s: Images, mid: Images, t: Images, files: seq<File>, repo: Name, name: Name)
    requires Imported(s, mid, files, repo)
    requires if InvalidCount(files) == 0 then PrunedOf(mid, t, Doomed(mid, repo, Names(files))) else t == mid
    ensures name in Names(files) ==> name in t.objects && LabelledBy(t.objects[name].body, repo)
    ensures (forall f <- files :: !Invalid(f)) ==>
              (name in t.objects && LabelledBy(t.objects[name].body, repo) && name !in Names(files) ==>
                 t.objects[name].body.finalizers != {} && t.objects[name].body.deleting)
    ensures name !in Names(files) && !(name in s.objects && LabelledBy(s.objects[name].body, repo)) ==>
              (name in t.objects <==> name in s.objects) && (name in s.objects ==> t.objects[name] == s.objects[name])
    ensures (exists f <- files :: Invalid(f)) ==> !DeletedBetween(s, t, name)
  {
    InvalidCountZero(files);
    if name in Names(files) {
      var f :| f in files && Importable(f) && f.name == name;
      var i :| 0 <= i < |files| && files[i] == f;
    }
  }
}
