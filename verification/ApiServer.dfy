/**
 The part of the Kubernetes API server every protocol in this project relies on:
 named objects with a UID that is never reused and a resourceVersion that changes with
 every write.

 - `Create` fails when the name is taken.
 - `Update` succeeds only on the resourceVersion the writer read.
 - `Delete` takes an optional UID/resourceVersion precondition.

 Reads return the stored object. `Evolves` is the only thing a protocol may assume about
 what the other actors did between two of its own calls.
 */
module ApiServer {
  type Uid = string

  datatype Option<+T> = None | Some(value: T)

  datatype Object<+T> = Object(uid: Uid, version: nat, body: T)

  /** `clock` is the next resourceVersion; `issued` holds every UID ever handed out. */
  datatype Store<!K(==), +T> = Store(objects: map<K, Object<T>>, clock: nat, issued: set<Uid>)

  datatype Outcome = Done | NotFound | AlreadyExists | Conflict

  datatype Reply<!K(==), +T> = Reply(store: Store<K, T>, outcome: Outcome)

  ghost predicate Valid<K, T>(s: Store<K, T>) {
    forall k <- s.objects :: s.objects[k].version < s.clock && s.objects[k].uid in s.issued
  }

  /** The object named `k` exists and is the incarnation `uid`. */
  predicate Live<K, T>(s: Store<K, T>, k: K, uid: Uid) {
    k in s.objects && s.objects[k].uid == uid
  }

  function Create<K, T>(s: Store<K, T>, k: K, uid: Uid, body: T): Reply<K, T>
    requires uid !in s.issued
  {
    if k in s.objects then
      Reply(s, AlreadyExists)
    else
      Reply(Store(s.objects[k := Object(uid, s.clock, body)], s.clock + 1, s.issued + {uid}), Done)
  }

  function Update<K, T>(s: Store<K, T>, k: K, version: nat, body: T): Reply<K, T> {
    if k !in s.objects then
      Reply(s, NotFound)
    else if s.objects[k].version != version then
      Reply(s, Conflict)
    else
      Reply(s.(objects := s.objects[k := Object(s.objects[k].uid, s.clock, body)], clock := s.clock + 1), Done)
  }

  function Delete<K, T>(s: Store<K, T>, k: K, precondition: Option<(Uid, nat)>): Reply<K, T> {
    if k !in s.objects then
      Reply(s, NotFound)
    else if precondition.Some? && precondition.value != (s.objects[k].uid, s.objects[k].version) then
      Reply(s, Conflict)
    else
      Reply(s.(objects := s.objects - {k}), Done)
  }

  /** What any number of API calls by anyone can do to a store. */
  ghost predicate Evolves<K, T>(s: Store<K, T>, t: Store<K, T>) {
    && s.clock <= t.clock
    && s.issued <= t.issued
    && Valid(t)
    && forall k <- t.objects ::
         || (k in s.objects && t.objects[k] == s.objects[k])
         || (&& t.objects[k].version >= s.clock
             && (Live(s, k, t.objects[k].uid) || t.objects[k].uid !in s.issued))
  }

  /** A copy read earlier: the store cannot show its version again with other content. */
  ghost predicate Snapshot<K, T>(s: Store<K, T>, k: K, seen: Object<T>) {
    && seen.version < s.clock
    && seen.uid in s.issued
    && (k in s.objects && s.objects[k].version == seen.version ==> s.objects[k] == seen)
  }

  /** The incarnation `uid` of `k` was handed out and no longer exists. */
  ghost predicate Gone<K, T>(s: Store<K, T>, k: K, uid: Uid) {
    uid in s.issued && !Live(s, k, uid)
  }

  lemma EvolvesReflexive<K, T>(s: Store<K, T>)
    requires Valid(s)
    ensures Evolves(s, s)
  {
  }

  lemma EvolvesTransitive<K, T>(s: Store<K, T>, t: Store<K, T>, u: Store<K, T>)
    requires Valid(s) && Evolves(s, t) && Evolves(t, u)
    ensures Evolves(s, u)
  {
    forall k | k in u.objects
      ensures (k in s.objects && u.objects[k] == s.objects[k])
           || (u.objects[k].version >= s.clock && (Live(s, k, u.objects[k].uid) || u.objects[k].uid !in s.issued))
    {
      if k in t.objects && u.objects[k] == t.objects[k] {
      } else {
        assert Live(t, k, u.objects[k].uid) || u.objects[k].uid !in t.issued;
      }
    }
  }

  /** Every call of the API server is an evolution of the store. */
  lemma CallsEvolve<K, T>(s: Store<K, T>, k: K, uid: Uid, version: nat, body: T, precondition: Option<(Uid, nat)>)
    requires Valid(s) && uid !in s.issued
    ensures Evolves(s, Create(s, k, uid, body).store)
    ensures Evolves(s, Update(s, k, version, body).store)
    ensures Evolves(s, Delete(s, k, precondition).store)
  {
  }

  /** Optimistic concurrency: whatever others do, a version seen once names one content for ever. */
  lemma SnapshotEvolves<K, T>(s: Store<K, T>, t: Store<K, T>, k: K, seen: Object<T>)
    requires Snapshot(s, k, seen) && Evolves(s, t)
    ensures Snapshot(t, k, seen)
  {
  }

  /** UIDs are not reused, so an incarnation that is gone stays gone. */
  lemma GoneEvolves<K, T>(s: Store<K, T>, t: Store<K, T>, k: K, uid: Uid)
    requires Gone(s, k, uid) && Evolves(s, t)
    ensures Gone(t, k, uid)
  {
  }

  /** Everything but the entry `k` is as it was. */
  ghost predicate OthersSame<K, T>(s: Store<K, T>, t: Store<K, T>, k: K) {
    s.objects - {k} == t.objects - {k}
  }

  /**
   The three calls, by their effect. A create on a taken name, an update over another version than the stored one and a
   delete whose precondition does not hold change nothing; an update keeps the UID; every write gets a new version.
   */
  lemma CallsExactly<K, T>(s: Store<K, T>, k: K, uid: Uid, version: nat, body: T, precondition: Option<(Uid, nat)>)
    requires uid !in s.issued
    ensures var r := Create(s, k, uid, body);
            && (k in s.objects ==> r == Reply(s, AlreadyExists))
            && (k !in s.objects ==> r.outcome == Done && k in r.store.objects && r.store.objects[k] == Object(uid, s.clock, body)
                                    && OthersSame(s, r.store, k) && r.store.clock > s.clock && uid in r.store.issued)
    ensures var r := Update(s, k, version, body);
            && (k !in s.objects ==> r == Reply(s, NotFound))
            && (k in s.objects && s.objects[k].version != version ==> r == Reply(s, Conflict))
            && (k in s.objects && s.objects[k].version == version ==>
                  r.outcome == Done && k in r.store.objects && r.store.objects[k] == Object(s.objects[k].uid, s.clock, body)
                  && OthersSame(s, r.store, k) && r.store.clock > s.clock && r.store.issued == s.issued)
    ensures var r := Delete(s, k, precondition);
            && (k !in s.objects ==> r == Reply(s, NotFound))
            && (k in s.objects && precondition.Some? && (precondition.value.0 != s.objects[k].uid || precondition.value.1 != s.objects[k].version) ==>
                  r == Reply(s, Conflict))
            && (k in s.objects && (precondition.None? || precondition.value == (s.objects[k].uid, s.objects[k].version)) ==>
                  r.outcome == Done && k !in r.store.objects && OthersSame(s, r.store, k) && r.store.issued == s.issued)
  {
  }
}
