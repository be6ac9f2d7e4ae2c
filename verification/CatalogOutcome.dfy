/**
 What a catalog sync of `Catalog` does, spelt out on the stored fields: one file, one listed Image, and the whole
 sync; and that the interleaving machine, left alone, does exactly that.
 */
module CatalogOutcome {
  import opened ApiServer
  import opened Catalog

  // ---------------------------------------------------------------- one file

  /** Malformed, or refused by the API server. */
  predicate Bad(f: File) {
    match f
    case NotAnImage => false
    case Malformed => true
    case Manifest(_, _, _, _, _, rejected) => rejected
  }

  predicate Good(f: File) {
    match f
    case Manifest(_, _, _, _, _, rejected) => !rejected
    case _ => false
  }

  predicate OfRepository(image: Image, repo: Name) {
    "kubeworkspaces.io/image-repository" in image.labels && image.labels["kubeworkspaces.io/image-repository"] == repo
  }

  lemma Kinds(f: File, image: Image, repo: Name)
    ensures Invalid(f) <==> Bad(f)
    ensures Importable(f) <==> Good(f)
    ensures LabelledBy(image, repo) <==> OfRepository(image, repo)
  {
  }

  /** Where a label of the result comes from: the controller's two stamps, else the file, else the live object. */
  function LabelAt(live: map<string, string>, f: File, repo: Name, k: string): Option<string>
    requires f.Manifest?
  {
    if k == "kubeworkspaces.io/image-repository" then Some(repo)
    else if k == "kubeworkspaces.io/managed-by" then Some("imagerepository-controller")
    else if k in f.labels then Some(f.labels[k])
    else if k in live then Some(live[k])
    else None
  }

  /** Where an annotation comes from: the recorded source, else the file, else the live object. */
  function AnnotationAt(live: map<string, string>, f: File, source: map<string, string>, k: string): Option<string>
    requires f.Manifest?
  {
    if k in source then Some(source[k]) else if k in f.annotations then Some(f.annotations[k]) else if k in live then Some(live[k]) else None
  }

  function At(m: map<string, string>, k: string): Option<string> {
    if k in m then Some(m[k]) else None
  }

  /** The Image a good file leaves: its spec, the merged metadata, and the live object's finalizers and deletion mark. */
  ghost predicate MergedFrom(image: Image, live: Option<Image>, f: File, repo: Name, source: map<string, string>)
    requires f.Manifest?
  {
    var labels := if live.Some? then live.value.labels else map[];
    var annotations := if live.Some? then live.value.annotations else map[];
    && image.spec == f.spec
    && (forall k :: At(image.labels, k) == LabelAt(labels, f, repo, k))
    && (forall k :: At(image.annotations, k) == AnnotationAt(annotations, f, source, k))
    && image.finalizers == (if live.Some? then live.value.finalizers else f.finalizers)
    && image.deleting == (live.Some? && live.value.deleting)
  }

  /** What importing one file does to the catalog. */
  ghost predicate ImportedOne(s: Images, t: Images, f: File, repo: Name, source: map<string, string>, uid: Uid) {
    if !Good(f) then t == s
    else
      && (forall n :: n != f.name ==> (n in t.objects <==> n in s.objects) && (n in s.objects && n in t.objects ==> t.objects[n] == s.objects[n]))
      && f.name in t.objects
      && if f.name !in s.objects then t.objects[f.name].uid == uid && MergedFrom(t.objects[f.name].body, None, f, repo, source)
         else
           var live := s.objects[f.name];
           && t.objects[f.name].uid == live.uid && MergedFrom(t.objects[f.name].body, Some(live.body), f, repo, source)
           // An Image that needs no change is not written.
           && (MergedFrom(live.body, Some(live.body), f, repo, source) ==> t == s)
  }

  lemma MergedIsAdopted(image: Image, live: Image, f: File, repo: Name, source: map<string, string>)
    requires f.Manifest?
    ensures MergedFrom(image, Some(live), f, repo, source) <==> image == Adopted(live, f, repo, source)
  {
    var adopted := Adopted(live, f, repo, source);
    assert forall k :: At(adopted.labels, k) == LabelAt(live.labels, f, repo, k);
    assert forall k :: At(adopted.annotations, k) == AnnotationAt(live.annotations, f, source, k);
    if MergedFrom(image, Some(live), f, repo, source) {
      SameMap(image.labels, adopted.labels);
      SameMap(image.annotations, adopted.annotations);
    }
  }

  lemma SameMap(a: map<string, string>, b: map<string, string>)
    requires forall k :: At(a, k) == At(b, k)
    ensures a == b
  {
    forall k
      ensures k in a <==> k in b
      ensures k in a && k in b ==> a[k] == b[k]
    {
      assert At(a, k) == At(b, k);
    }
  }

  lemma FreshIsMerged(f: File, repo: Name, source: map<string, string>)
    requires f.Manifest?
    ensures MergedFrom(Fresh(f, repo, source), None, f, repo, source)
  {
    var made := Fresh(f, repo, source);
    assert forall k :: At(made.labels, k) == LabelAt(map[], f, repo, k);
    assert forall k :: At(made.annotations, k) == AnnotationAt(map[], f, source, k);
  }

  /** Importing one file, exactly: where every label and annotation comes from, what is kept, and when nothing is written. */
  lemma ImportExactly(s: Images, f: File, repo: Name, source: map<string, string>, uid: Uid)
    requires uid !in s.issued
    ensures ImportedOne(s, ImportOne(s, f, repo, source, uid), f, repo, source, uid)
  {
    if Good(f) {
      FreshIsMerged(f, repo, source);
      if f.name in s.objects {
        var live := s.objects[f.name].body;
        MergedIsAdopted(Adopted(live, f, repo, source), live, f, repo, source);
        MergedIsAdopted(live, live, f, repo, source);
      }
    }
  }

  // ---------------------------------------------------------------- the machine, left alone

  /** Two steps of a sync at a file, with nobody else acting, and a UID for a new Image. */
  ghost function TwoSteps(images: Images, y: Sync, uid: Uid): (Images, Sync)
    requires y.phase.Import?
  {
    var (mid, y') := StepImport(images, y, uid);
    if y'.phase.Creating? || y'.phase.Updating? then StepImport(mid, y', uid) else (mid, y')
  }

  /** Left alone, the machine imports a file exactly as `ImportOne` says and goes on to the next; a bad one makes the sync incomplete. */
  lemma FileAlone(images: Images, y: Sync, uid: Uid)
    requires y.phase.Import? && y.phase.files != [] && uid !in images.issued
    ensures var f, rest := y.phase.files[0], y.phase.files[1..];
            TwoSteps(images, y, uid) ==
            if Bad(f) then (images, y.(incomplete := true, phase := Import(rest)))
            else if !Good(f) then (images, y.(phase := Import(rest)))
            else (ImportOne(images, f, y.repo, y.source, uid), y.(desired := y.desired + {f.name}, phase := Import(rest)))
  {
  }

  /** A write or create that lost a race starts the file over and has changed nothing. */
  lemma LostRaceStartsOver(images: Images, y: Sync, uid: Uid)
    requires (y.phase.Creating? || y.phase.Updating?) && y.phase.files != [] && Good(y.phase.files[0]) && uid !in images.issued
    requires y.phase.files[0].name in images.objects
    requires y.phase.Updating? ==> images.objects[y.phase.files[0].name].version != y.phase.seen.version
    ensures StepImport(images, y, uid) == (images, y.(phase := Import(y.phase.files)))
  {
  }

  /**
   One listed Image, exactly: nothing is deleted once a file was bad; an imported name is kept; otherwise the Image goes,
   or is marked if it has finalizers, exactly if it is still the object and version that was listed.
   */
  lemma ItemExactly(images: Images, y: Sync)
    requires y.phase.Pruning? && y.phase.items != []
    ensures var item, rest := y.phase.items[0], y.phase.items[1..];
            var name, seen := item.0, item.1;
            StepPrune(images, y) ==
            if y.incomplete then (images, y.(phase := Ended))
            else if name in y.desired then (images, y.(phase := Pruning(rest)))
            else if name !in images.objects then (images, y.(phase := Pruning(rest)))
            else if images.objects[name].uid != seen.uid || images.objects[name].version != seen.version then (images, y.(phase := Ended))
            else
              var live := images.objects[name];
              (if live.body.finalizers == {} then images.(objects := images.objects - {name})
               else images.(objects := images.objects[name := Object(live.uid, images.clock, live.body.(deleting := true))], clock := images.clock + 1),
               y.(phase := Pruning(rest)))
  {
  }

  // ---------------------------------------------------------------- the whole sync

  ghost predicate ImportedName(files: seq<File>, name: Name) {
    exists i :: 0 <= i < |files| && Good(files[i]) && files[i].name == name
  }

  ghost predicate SomeBad(files: seq<File>) {
    exists i :: 0 <= i < |files| && Bad(files[i])
  }

  lemma NamesAreImported(files: seq<File>, name: Name)
    ensures name in Names(files) <==> ImportedName(files, name)
  {
    if ImportedName(files, name) {
      var i :| 0 <= i < |files| && Good(files[i]) && files[i].name == name;
      assert files[i] in files && Importable(files[i]);
    }
    if name in Names(files) {
      var f :| f in files && Importable(f) && f.name == name;
      var i :| 0 <= i < |files| && files[i] == f;
      assert Good(files[i]);
    }
  }

  lemma BadIsInvalid(files: seq<File>)
    ensures SomeBad(files) <==> exists f <- files :: Invalid(f)
  {
    if SomeBad(files) {
      var i :| 0 <= i < |files| && Bad(files[i]);
      assert files[i] in files && Invalid(files[i]);
    }
    if f :| f in files && Invalid(f) {
      var i :| 0 <= i < |files| && files[i] == f;
      assert Bad(files[i]);
    }
  }

  /**
   The whole sync, running alone, name by name. Imported names carry this repository's label. If no file was bad, no
   other Image carries it, except one that is held by finalizers and marked for deletion. An Image that was not this
   repository's and is not imported is as it was. One bad file, malformed or refused, and no Image is deleted or marked.
   */
  lemma SyncExactly(s: Images, mid: Images, t: Images, files: seq<File>, repo: Name, name: Name)
    requires Imported(s, mid, files, repo)
    requires if InvalidCount(files) == 0 then PrunedOf(mid, t, Doomed(mid, repo, Names(files))) else t == mid
    ensures ImportedName(files, name) ==> name in t.objects && OfRepository(t.objects[name].body, repo)
    ensures !SomeBad(files) && !ImportedName(files, name) && name in t.objects && OfRepository(t.objects[name].body, repo) ==>
              t.objects[name].body.finalizers != {} && t.objects[name].body.deleting
    ensures !ImportedName(files, name) && !(name in s.objects && OfRepository(s.objects[name].body, repo)) ==>
              (name in t.objects <==> name in s.objects) && (name in s.objects && name in t.objects ==> t.objects[name] == s.objects[name])
    ensures SomeBad(files) && name in s.objects ==> name in t.objects && t.objects[name].body.deleting == s.objects[name].body.deleting
  {
    NamesAreImported(files, name);
    BadIsInvalid(files);
    SyncIsExact(s, mid, t, files, repo, name);
    InvalidCountZero(files);
  }
}
