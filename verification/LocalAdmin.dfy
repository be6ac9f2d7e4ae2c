/**
 The bootstrap of the local administrator (internal/controller/localauth.go): a transaction of three
 writes (create the User with a pending mark, create its password Secret, enable the User and drop the
 mark) that can be resumed after a crash.

 The controller's run is a program counter over its API calls; anybody may create, edit and remove
 Users and Secrets between them. Secret names are injective in the User UID; a hash is a valid bcrypt
 hash or None.
 */
module LocalAdmin {
  import opened ApiServer

  datatype LocalAuth = LocalAuth(enabled: bool, secret: string)

  /** `mark` is the pending annotation naming the AuthConfig that started the bootstrap. */
  datatype User = User(email: string, admin: bool, disabled: bool, deleting: bool, locked: bool, mark: string, auth: Option<LocalAuth>)

  datatype Secret = Secret(userUid: string, ownerUid: Option<Uid>, hash: Option<string>, deleting: bool)

  /** The AuthConfig; `slug` is the User name derived from `email`. */
  datatype Config = Config(uid: string, enabled: bool, skip: bool, email: string, slug: string, adminEmails: set<string>)

  datatype Pc =
    | Idle
    | GetUser
    | GetLegacy
    | CreateUser
    | GetSecret(user: Object<User>)
    | CreateSecret(user: Object<User>)
    | Enable(user: Object<User>)

  /** `first` remembers the hash first stored for each User UID; `legacy` is a retained pre-UID Secret. */
  datatype World = World(users: Store<string, User>, secrets: map<string, Secret>, legacy: bool, first: map<Uid, string>, pc: Pc)

  datatype Choice = Choice(uid: Uid, hash: string)

  datatype Event =
    | Controller(choice: Choice)
    | Crash
    | AddUser(name: string, uid: Uid, user: User)
    | EditUser(name: string, user: User)
    | RemoveUser(name: string)
    | PutSecret(name: string, secret: Secret)
    | RemoveSecret(name: string)
    | SetLegacy(present: bool)

  function SecretName(uid: Uid): string {
    "kw-password-" + uid
  }

  lemma SecretNameInjective(a: Uid, b: Uid)
    requires SecretName(a) == SecretName(b)
    ensures a == b
  {
    var prefix := "kw-password-";
    assert a == SecretName(a)[|prefix|..] && b == SecretName(b)[|prefix|..];
  }

  /** usableLocalAdmin */
  predicate Usable(secrets: map<string, Secret>, cfg: Config, user: Object<User>) {
    var u := user.body;
    && !u.disabled && !u.deleting && u.auth.Some? && u.auth.value.enabled
    && (u.admin || u.email in cfg.adminEmails) && !u.locked
    && u.auth.value.secret in secrets
    && var s := secrets[u.auth.value.secret];
       !s.deleting && (s.userUid == "" || s.userUid == user.uid) && (s.ownerUid.Some? ==> s.ownerUid.value == user.uid) && s.hash.Some?
  }

  predicate AnyUsable(w: World, cfg: Config) {
    exists name <- w.users.objects :: Usable(w.secrets, cfg, w.users.objects[name])
  }

  /** An account this AuthConfig's bootstrap left unfinished. */
  predicate Pending(cfg: Config, user: User) {
    user.mark == cfg.uid && user.email == cfg.email && user.admin && !user.disabled && !user.deleting && user.auth.None?
  }

  predicate OwnedSecret(secret: Secret, uid: Uid) {
    secret.userUid == uid && secret.ownerUid == Some(uid) && !secret.deleting && secret.hash.Some?
  }

  // ---------------------------------------------------------------- steps

  function Act(w: World, cfg: Config, ch: Choice): World {
    var stored := if cfg.slug in w.users.objects then Some(w.users.objects[cfg.slug]) else None;
    match w.pc
    case Idle => if !cfg.enabled || AnyUsable(w, cfg) || cfg.skip then w else w.(pc := GetUser)
    case GetUser =>
      w.(pc := if stored.None? then GetLegacy
               else if cfg.uid != "" && Pending(cfg, stored.value.body) then GetSecret(stored.value)
               else Idle)
    case GetLegacy => w.(pc := if w.legacy then Idle else CreateUser)
    case CreateUser =>
      if ch.uid in w.users.issued || ch.uid == "" then w
      else if stored.Some? then w.(pc := Idle)
      else
        var reply := Create(w.users, cfg.slug, ch.uid, User(cfg.email, true, false, false, false, cfg.uid, None));
        w.(users := reply.store, pc := GetSecret(reply.store.objects[cfg.slug]))
    case GetSecret(user) =>
      var name := SecretName(user.uid);
      w.(pc := if name !in w.secrets then CreateSecret(user)
               else if OwnedSecret(w.secrets[name], user.uid) then Enable(user)
               else Idle)
    case CreateSecret(user) =>
      var name := SecretName(user.uid);
      if name in w.secrets then w.(pc := Idle)
      else
        w.(secrets := w.secrets[name := Secret(user.uid, Some(user.uid), Some(ch.hash), false)],
           first := if user.uid in w.first then w.first else w.first[user.uid := ch.hash],
           pc := Enable(user))
    case Enable(user) =>
      var auth := Some(LocalAuth(true, SecretName(user.uid)));
      w.(users := Update(w.users, cfg.slug, user.version, user.body.(auth := auth, mark := "")).store, pc := Idle)
  }

  function Next(w: World, cfg: Config, e: Event): World {
    match e
    case Controller(ch) => Act(w, cfg, ch)
    case Crash => w.(pc := Idle)
    case AddUser(name, uid, user) => if uid in w.users.issued then w else w.(users := Create(w.users, name, uid, user).store)
    case EditUser(name, user) =>
      if name !in w.users.objects then w else w.(users := Update(w.users, name, w.users.objects[name].version, user).store)
    case RemoveUser(name) => w.(users := Delete(w.users, name, None).store)
    case PutSecret(name, secret) => w.(secrets := w.secrets[name := secret])
    case RemoveSecret(name) => w.(secrets := w.secrets - {name})
    case SetLegacy(present) => w.(legacy := present)
  }

  function Run(w: World, cfg: Config, trace: seq<Event>): World {
    if trace == [] then w else Next(Run(w, cfg, trace[..|trace| - 1]), cfg, trace[|trace| - 1])
  }

  // ---------------------------------------------------------------- safety in every interleaving

  ghost predicate Inv(w: World, cfg: Config) {
    && Valid(w.users)
    && (w.pc.GetSecret? || w.pc.CreateSecret? || w.pc.Enable? ==>
          Snapshot(w.users, cfg.slug, w.pc.user) && Pending(cfg, w.pc.user.body))
  }

  lemma ReadKeepsInv(w: World, cfg: Config, ch: Choice)
    requires Inv(w, cfg) && !w.pc.CreateUser? && !w.pc.Enable?
    ensures Inv(Act(w, cfg, ch), cfg)
  {
  }

  lemma WriteKeepsInv(w: World, cfg: Config, ch: Choice)
    requires Inv(w, cfg) && (w.pc.CreateUser? || w.pc.Enable?)
    ensures Inv(Act(w, cfg, ch), cfg)
  {
  }

  lemma ActKeepsInv(w: World, cfg: Config, ch: Choice)
    requires Inv(w, cfg)
    ensures Inv(Act(w, cfg, ch), cfg)
  {
    if w.pc.CreateUser? || w.pc.Enable? {
      WriteKeepsInv(w, cfg, ch);
    } else {
      ReadKeepsInv(w, cfg, ch);
    }
  }

  lemma EnvironmentKeepsInv(w: World, cfg: Config, users: Store<string, User>)
    requires Inv(w, cfg) && Evolves(w.users, users)
    ensures Inv(w.(users := users), cfg)
  {
    if w.pc.GetSecret? || w.pc.CreateSecret? || w.pc.Enable? {
      SnapshotEvolves(w.users, users, cfg.slug, w.pc.user);
    }
  }

  lemma StepKeepsInv(w: World, cfg: Config, e: Event)
    requires Inv(w, cfg)
    ensures Inv(Next(w, cfg, e), cfg)
  {
    if e.Controller? {
      ActKeepsInv(w, cfg, e.choice);
    } else if e.AddUser? || e.EditUser? || e.RemoveUser? {
      EvolvesReflexive(w.users);
      EnvironmentKeepsInv(w, cfg, Next(w, cfg, e).users);
    }
  }

  lemma {:induction false} RunKeepsInv(w: World, cfg: Config, trace: seq<Event>)
    requires Inv(w, cfg)
    ensures Inv(Run(w, cfg, trace), cfg)
  {
    if trace != [] {
      RunKeepsInv(w, cfg, trace[..|trace| - 1]);
      StepKeepsInv(Run(w, cfg, trace[..|trace| - 1]), cfg, trace[|trace| - 1]);
    }
  }

  /** One call of the controller, from any state an interleaving can lead to. */
  lemma CallGivesOnlyToPending(w: World, cfg: Config, ch: Choice, name: string)
    requires Inv(w, cfg) && name in w.users.objects
    ensures var d := Act(w, cfg, ch);
            && name in d.users.objects && d.users.objects[name].uid == w.users.objects[name].uid
            && (d.users.objects[name].body != w.users.objects[name].body ==>
                  && name == cfg.slug && Pending(cfg, w.users.objects[name].body)
                  && d.users.objects[name].body == w.users.objects[name].body.(
                       auth := Some(LocalAuth(true, SecretName(w.users.objects[name].uid))), mark := ""))
  {
  }

  lemma CallCreatesOnlyPending(w: World, cfg: Config, ch: Choice, name: string)
    ensures var d := Act(w, cfg, ch);
            && (name in d.users.objects && name !in w.users.objects ==>
                  name == cfg.slug && d.users.objects[name].body == User(cfg.email, true, false, false, false, cfg.uid, None))
            && (name in w.secrets ==> name in d.secrets && d.secrets[name] == w.secrets[name])
            && (name in d.secrets && name !in w.secrets ==>
                  && HasUser(w.pc) && name == SecretName(w.pc.user.uid)
                  && d.secrets[name] == Secret(w.pc.user.uid, Some(w.pc.user.uid), Some(ch.hash), false))
  {
  }

  /** At moment `k` of the run the controller created the account with this UID, and its round has not ended since. */
  ghost predicate CreatedAt(start: World, cfg: Config, trace: seq<Event>, k: nat, uid: Uid) {
    && k < |trace| && trace[k].Controller? && trace[k].choice.uid == uid
    && (forall i :: k < i <= |trace| ==> !Run(start, cfg, trace[..i]).pc.Idle?)
    && var q := Run(start, cfg, trace[..k]);
       && q.pc.CreateUser? && cfg.slug !in q.users.objects
       && Live(Act(q, cfg, trace[k].choice).users, cfg.slug, uid)
  }

  predicate HasUser(pc: Pc) {
    pc.GetSecret? || pc.CreateSecret? || pc.Enable?
  }

  lemma UserComesFromHere(w: World, cfg: Config, e: Event)
    requires HasUser(Next(w, cfg, e).pc) && cfg.uid == ""
    ensures if HasUser(w.pc) then Next(w, cfg, e).pc.user == w.pc.user
            else
              && e.Controller? && w.pc.CreateUser? && cfg.slug !in w.users.objects && e.choice.uid == Next(w, cfg, e).pc.user.uid
              && Live(Act(w, cfg, e.choice).users, cfg.slug, e.choice.uid)
  {
  }

  /** Without an AuthConfig UID no account is ever resumed: the one a round works on is the one it created. */
  lemma {:induction false} WithoutUidItWasCreated(start: World, cfg: Config, trace: seq<Event>) returns (k: nat)
    requires start.pc.Idle? && cfg.uid == "" && HasUser(Run(start, cfg, trace).pc)
    ensures CreatedAt(start, cfg, trace, k, Run(start, cfg, trace).pc.user.uid)
  {
    var n := |trace| - 1;
    var w := Run(start, cfg, trace[..n]);
    UserComesFromHere(w, cfg, trace[n]);
    assert trace[..|trace|] == trace;
    if HasUser(w.pc) {
      k := WithoutUidItWasCreated(start, cfg, trace[..n]);
      assert trace[..n][..k] == trace[..k] && trace[..n][k] == trace[k];
      forall i | k < i <= |trace|
        ensures !Run(start, cfg, trace[..i]).pc.Idle?
      {
        if i <= n {
          assert trace[..n][..i] == trace[..i];
        }
      }
    } else {
      k := n;
    }
  }

  lemma OnlyEnableChanges(w: World, cfg: Config, ch: Choice, name: string)
    requires Inv(w, cfg) && name in w.users.objects && name in Act(w, cfg, ch).users.objects
    requires Act(w, cfg, ch).users.objects[name].body != w.users.objects[name].body
    ensures w.pc.Enable? && name == cfg.slug && w.users.objects[name] == w.pc.user
  {
  }

  /**
   Whatever others do, the controller gives credentials only to the account that, at that very moment, carries
   this AuthConfig's pending mark and is the administrator it would have created; an AuthConfig without a UID has no
   mark to recognise, and then it is the account this very round created. A Secret that exists is never overwritten
   by the controller.
   */
  lemma OnlyPendingAccountsGetCredentials(start: World, cfg: Config, trace: seq<Event>, ch: Choice, name: string)
    requires Inv(start, cfg)
    ensures var w := Run(start, cfg, trace);
            var d := Act(w, cfg, ch);
            && (name in w.users.objects ==> name in d.users.objects && d.users.objects[name].uid == w.users.objects[name].uid)
            && (name in w.users.objects && d.users.objects[name].body != w.users.objects[name].body ==>
                  var before := w.users.objects[name].body;
                  && name == cfg.slug && before.mark == cfg.uid && before.email == cfg.email
                  && before.admin && !before.disabled && !before.deleting && before.auth.None?
                  && d.users.objects[name].body == before.(
                       auth := Some(LocalAuth(true, "kw-password-" + w.users.objects[name].uid)), mark := "")
                  && (cfg.uid == "" && start.pc.Idle? ==> exists k :: CreatedAt(start, cfg, trace, k, w.users.objects[name].uid)))
            && (name in d.users.objects && name !in w.users.objects ==>
                  name == cfg.slug && d.users.objects[name].body == User(cfg.email, true, false, false, false, cfg.uid, None))
            && (name in w.secrets ==> name in d.secrets && d.secrets[name] == w.secrets[name])
            && (name in d.secrets && name !in w.secrets ==>
                  && HasUser(w.pc) && name == "kw-password-" + w.pc.user.uid
                  && d.secrets[name] == Secret(w.pc.user.uid, Some(w.pc.user.uid), Some(ch.hash), false))
  {
    RunKeepsInv(start, cfg, trace);
    var w := Run(start, cfg, trace);
    CallCreatesOnlyPending(w, cfg, ch, name);
    if name in w.users.objects {
      CallGivesOnlyToPending(w, cfg, ch, name);
      if Act(w, cfg, ch).users.objects[name].body != w.users.objects[name].body && cfg.uid == "" && start.pc.Idle? {
        OnlyEnableChanges(w, cfg, ch, name);
        var k := WithoutUidItWasCreated(start, cfg, trace);
      }
    }
  }

  // ---------------------------------------------------------------- recovery after crashes

  /** The controller alone for `calls` API calls, then a crash. */
  function Attempt(w: World, cfg: Config, ch: Choice, calls: nat): World
    decreases calls
  {
    if calls == 0 then w.(pc := Idle) else Attempt(Act(w, cfg, ch), cfg, ch, calls - 1)
  }

  datatype Try = Try(choice: Choice, calls: nat)

  function Attempts(w: World, cfg: Config, tries: seq<Try>): World
    decreases |tries|
  {
    if tries == [] then w else Attempts(Attempt(w, cfg, tries[0].choice, tries[0].calls), cfg, tries[1..])
  }

  /** Secrets whose first hash is remembered still hold it. */
  ghost predicate HashesKept(w: World) {
    forall uid <- w.first :: SecretName(uid) in w.secrets ==> w.secrets[SecretName(uid)].hash == Some(w.first[uid])
  }

  /** The account at the slug is missing or pending and not locked, and its Secret, if any, is its own. */
  ghost predicate Resumable(w: World, cfg: Config) {
    if cfg.slug in w.users.objects then
      var user := w.users.objects[cfg.slug];
      Pending(cfg, user.body) && !user.body.locked && SecretReady(w, user)
    else !w.legacy
  }

  ghost predicate SecretReady(w: World, user: Object<User>) {
    var name := SecretName(user.uid);
    (name in w.secrets ==> OwnedSecret(w.secrets[name], user.uid)) && (user.uid in w.first ==> name in w.secrets)
  }

  /** A round in flight that, left alone, will finish the transaction. */
  ghost predicate OnTrack(w: World, cfg: Config) {
    match w.pc
    case Idle => Resumable(w, cfg)
    case GetUser => Resumable(w, cfg)
    case GetLegacy => cfg.slug !in w.users.objects && !w.legacy
    case CreateUser => cfg.slug !in w.users.objects && !w.legacy
    case GetSecret(user) => Current(w, cfg, user)
    case CreateSecret(user) => Current(w, cfg, user) && SecretName(user.uid) !in w.secrets
    case Enable(user) => Current(w, cfg, user) && SecretName(user.uid) in w.secrets
  }

  ghost predicate Current(w: World, cfg: Config, user: Object<User>) {
    cfg.slug in w.users.objects && w.users.objects[cfg.slug] == user && Resumable(w, cfg)
  }

  ghost predicate Good(w: World, cfg: Config) {
    && cfg.enabled && !cfg.skip && cfg.uid != ""
    && Valid(w.users) && HashesKept(w)
    && (forall uid <- w.first :: uid in w.users.issued)
    && (OnTrack(w, cfg) || (w.pc.Idle? && AnyUsable(w, cfg)))
  }

  /** The slug account's Secret was stored by the bootstrap, and its login, if any, uses that Secret. */
  ghost predicate Traced(w: World, cfg: Config) {
    cfg.slug in w.users.objects ==>
      var user := w.users.objects[cfg.slug];
      && (SecretName(user.uid) in w.secrets ==> user.uid in w.first)
      && (user.body.auth.Some? ==> user.body.auth.value.secret == SecretName(user.uid) && SecretName(user.uid) in w.secrets)
  }

  lemma ActKeepsTraced(w: World, cfg: Config, ch: Choice)
    requires Good(w, cfg) && Serves(w, cfg, ch) && Traced(w, cfg)
    ensures Traced(Act(w, cfg, ch), cfg)
  {
  }

  /** Choices the API server and the random source guarantee: an unused, non-empty UID with no Secret under its name. */
  predicate Unused(w: World, ch: Choice) {
    ch.uid != "" && ch.uid !in w.users.issued && SecretName(ch.uid) !in w.secrets
  }

  lemma EnableMakesUsable(w: World, cfg: Config, ch: Choice)
    requires Good(w, cfg) && w.pc.Enable?
    ensures Good(Act(w, cfg, ch), cfg) && AnyUsable(Act(w, cfg, ch), cfg)
    ensures Usable(w.secrets, cfg, Act(w, cfg, ch).users.objects[cfg.slug])
  {
    var d := Act(w, cfg, ch);
    assert cfg.slug in d.users.objects && Usable(d.secrets, cfg, d.users.objects[cfg.slug]);
  }

  lemma CreateSecretKeepsGood(w: World, cfg: Config, ch: Choice)
    requires Good(w, cfg) && w.pc.CreateSecret?
    ensures Good(Act(w, cfg, ch), cfg)
  {
    var d := Act(w, cfg, ch);
    forall uid | uid in d.first && SecretName(uid) in d.secrets
      ensures d.secrets[SecretName(uid)].hash == Some(d.first[uid])
    {
      if SecretName(uid) == SecretName(w.pc.user.uid) {
        SecretNameInjective(uid, w.pc.user.uid);
      }
    }
  }

  lemma CreateUserKeepsGood(w: World, cfg: Config, ch: Choice)
    requires Good(w, cfg) && w.pc.CreateUser? && Unused(w, ch)
    ensures Good(Act(w, cfg, ch), cfg)
  {
  }

  lemma ActKeepsGood(w: World, cfg: Config, ch: Choice)
    requires Good(w, cfg) && (w.pc.CreateUser? ==> Unused(w, ch))
    ensures Good(Act(w, cfg, ch), cfg)
  {
    if w.pc.Enable? { EnableMakesUsable(w, cfg, ch); }
    else if w.pc.CreateSecret? { CreateSecretKeepsGood(w, cfg, ch); }
    else if w.pc.CreateUser? { CreateUserKeepsGood(w, cfg, ch); }
  }

  lemma CrashKeepsGood(w: World, cfg: Config)
    requires Good(w, cfg)
    ensures Good(w.(pc := Idle), cfg)
  {
    var d := w.(pc := Idle);
    assert AnyUsable(w, cfg) ==> AnyUsable(d, cfg);
  }

  /** API calls left until an administrator is usable. */
  ghost function Remaining(w: World, cfg: Config): nat {
    match w.pc
    case Idle => if AnyUsable(w, cfg) then 0 else 7
    case GetUser => 6
    case GetLegacy => 5
    case CreateUser => 4
    case GetSecret(_) => 3
    case CreateSecret(_) => 2
    case Enable(_) => 1
  }

  /** The choice is still good for the rest of the attempt: not needed yet, already used up, or not needed at all. */
  ghost predicate Serves(w: World, cfg: Config, ch: Choice) {
    Unused(w, ch) || w.pc.GetSecret? || w.pc.CreateSecret? || w.pc.Enable? || (w.pc.Idle? && AnyUsable(w, cfg))
  }

  lemma ActProgresses(w: World, cfg: Config, ch: Choice)
    requires Good(w, cfg) && Serves(w, cfg, ch)
    ensures var d := Act(w, cfg, ch);
            Good(d, cfg) && Serves(d, cfg, ch) && (if Remaining(w, cfg) == 0 then d == w else Remaining(d, cfg) < Remaining(w, cfg))
  {
    ActKeepsGood(w, cfg, ch);
    if w.pc.Enable? {
      EnableMakesUsable(w, cfg, ch);
    }
  }

  /** A choice prepared for a later attempt is not spoiled by this one. */
  lemma OthersStayUnused(w: World, cfg: Config, ch: Choice, other: Choice)
    requires Good(w, cfg) && Unused(w, other) && other.uid != ch.uid
    ensures Unused(Act(w, cfg, ch), other)
  {
    if w.pc.CreateSecret? && SecretName(other.uid) == SecretName(w.pc.user.uid) {
      SecretNameInjective(other.uid, w.pc.user.uid);
    }
  }

  lemma {:induction false} AttemptRecovers(w: World, cfg: Config, ch: Choice, calls: nat, others: set<Choice>)
    requires Good(w, cfg) && Serves(w, cfg, ch)
    requires forall o <- others :: Unused(w, o) && o.uid != ch.uid
    ensures var d := Attempt(w, cfg, ch, calls);
            && Good(d, cfg) && d.pc.Idle?
            && (forall o <- others :: Unused(d, o))
            && (calls >= Remaining(w, cfg) ==> AnyUsable(d, cfg))
            && (Traced(w, cfg) ==> Traced(d, cfg))
    decreases calls
  {
    if calls == 0 {
      CrashKeepsGood(w, cfg);
      assert AnyUsable(w, cfg) ==> AnyUsable(w.(pc := Idle), cfg);
    } else {
      ActProgresses(w, cfg, ch);
      if Traced(w, cfg) {
        ActKeepsTraced(w, cfg, ch);
      }
      forall o | o in others
        ensures Unused(Act(w, cfg, ch), o)
      {
        OthersStayUnused(w, cfg, ch, o);
      }
      AttemptRecovers(Act(w, cfg, ch), cfg, ch, calls - 1, others);
    }
  }

  ghost predicate DistinctTries(tries: seq<Try>) {
    forall i, j :: 0 <= i < j < |tries| ==> tries[i].choice.uid != tries[j].choice.uid
  }

  /**
   However often and wherever the bootstrap crashed, a last complete attempt ends with a usable administrator,
   and every password hash is still the one first stored for its User UID.
   */
  lemma {:induction false} BootstrapRecovers(w: World, cfg: Config, tries: seq<Try>)
    requires Good(w, cfg) && w.pc.Idle? && tries != [] && tries[|tries| - 1].calls >= 7
    requires DistinctTries(tries) && forall t <- tries :: Unused(w, t.choice)
    ensures var d := Attempts(w, cfg, tries); AnyUsable(d, cfg) && HashesKept(d) && d.pc.Idle? && (Traced(w, cfg) ==> Traced(d, cfg))
    decreases |tries|
  {
    var rest := tries[1..];
    var others := set t | t in rest :: t.choice;
    assert tries[0] in tries;
    forall o | o in others
      ensures Unused(w, o) && o.uid != tries[0].choice.uid
    {
      var t :| t in rest && t.choice == o;
      var i :| 0 <= i < |rest| && rest[i] == t;
      assert rest[i] == tries[i + 1] && t in tries;
    }
    AttemptRecovers(w, cfg, tries[0].choice, tries[0].calls, others);
    var d := Attempt(w, cfg, tries[0].choice, tries[0].calls);
    if rest == [] {
      assert Attempts(d, cfg, rest) == d;
    } else {
      forall t | t in rest
        ensures Unused(d, t.choice)
      {
        assert t.choice in others;
      }
      BootstrapRecovers(d, cfg, rest);
    }
  }

  /** Every account but the one at the slug, exactly as it was. */
  ghost predicate OthersUntouched(w: World, d: World, cfg: Config) {
    forall name :: name != cfg.slug ==>
      && (name in w.users.objects <==> name in d.users.objects)
      && (name in w.users.objects ==> d.users.objects[name] == w.users.objects[name])
  }

  lemma {:induction false} AttemptLeavesOthers(w: World, cfg: Config, ch: Choice, calls: nat)
    ensures OthersUntouched(w, Attempt(w, cfg, ch, calls), cfg)
    decreases calls
  {
    if calls > 0 {
      assert OthersUntouched(w, Act(w, cfg, ch), cfg);
      AttemptLeavesOthers(Act(w, cfg, ch), cfg, ch, calls - 1);
    }
  }

  lemma {:induction false} AttemptsLeaveOthers(w: World, cfg: Config, tries: seq<Try>)
    ensures OthersUntouched(w, Attempts(w, cfg, tries), cfg)
    decreases |tries|
  {
    if tries != [] {
      AttemptLeavesOthers(w, cfg, tries[0].choice, tries[0].calls);
      AttemptsLeaveOthers(Attempt(w, cfg, tries[0].choice, tries[0].calls), cfg, tries[1..]);
    }
  }

  /**
   On an installation where nobody else has local credentials, it is the bootstrap account itself that ends up
   usable, with the hash first stored for its UID.
   */
  lemma FreshInstallGetsItsAdmin(w: World, cfg: Config, tries: seq<Try>)
    requires Good(w, cfg) && w.pc.Idle? && tries != [] && tries[|tries| - 1].calls >= 7
    requires DistinctTries(tries) && forall t <- tries :: Unused(w, t.choice)
    requires Traced(w, cfg) && forall name <- w.users.objects :: name != cfg.slug ==> w.users.objects[name].body.auth.None?
    ensures var d := Attempts(w, cfg, tries);
            && cfg.slug in d.users.objects
            && Usable(d.secrets, cfg, d.users.objects[cfg.slug])
            && var user := d.users.objects[cfg.slug];
            && user.body.auth.value.secret == SecretName(user.uid)
            && user.uid in d.first && d.secrets[SecretName(user.uid)].hash == Some(d.first[user.uid])
  {
    BootstrapRecovers(w, cfg, tries);
    AttemptsLeaveOthers(w, cfg, tries);
    var d := Attempts(w, cfg, tries);
    var name :| name in d.users.objects && Usable(d.secrets, cfg, d.users.objects[name]);
    assert name != cfg.slug ==> name in w.users.objects;
  }

  /** The bootstrap may start from any cluster without the account, or resume an account it marked, if that is not locked. */
  lemma ResumableIsGood(w: World, cfg: Config)
    requires cfg.enabled && !cfg.skip && cfg.uid != "" && w.pc.Idle? && Valid(w.users) && Resumable(w, cfg)
    requires HashesKept(w) && forall uid <- w.first :: uid in w.users.issued
    ensures Good(w, cfg)
  {
  }

  /** Without an AuthConfig UID the pending account cannot be recognised again: a crash after the first write is final. */
  lemma NoUidNoResume(w: World, cfg: Config, ch: Choice, calls: nat)
    requires cfg.uid == "" && w.pc.Idle? && cfg.slug in w.users.objects && !AnyUsable(w, cfg)
    ensures Attempt(w, cfg, ch, calls).users == w.users && Attempt(w, cfg, ch, calls).secrets == w.secrets
    decreases calls
  {
    if calls >= 2 {
      var asked := Act(w, cfg, ch);
      var back := Act(asked, cfg, ch);
      assert back.pc.Idle? && back.users == w.users && back.secrets == w.secrets;
      assert AnyUsable(back, cfg) ==> AnyUsable(w, cfg);
      NoUidNoResume(back, cfg, ch, calls - 2);
    } else if calls == 1 {
      assert Attempt(Act(w, cfg, ch), cfg, ch, 0) == Act(w, cfg, ch).(pc := Idle);
    }
  }

  // ---------------------------------------------------------------- exactly when one attempt succeeds

  /** No two Users share a UID. */
  ghost predicate UniqueUids(users: Store<string, User>) {
    forall a, b :: a in users.objects && b in users.objects && users.objects[a].uid == users.objects[b].uid ==> a == b
  }

  /** The account at the slug can be created, or is this AuthConfig's unfinished one, is not locked, and its Secret is absent or its own. */
  predicate CanBootstrap(w: World, cfg: Config) {
    && cfg.enabled && !cfg.skip
    && if cfg.slug in w.users.objects then
         var user := w.users.objects[cfg.slug];
         var name := SecretName(user.uid);
         && cfg.uid != "" && Pending(cfg, user.body) && !user.body.locked
         && (name in w.secrets ==> OwnedSecret(w.secrets[name], user.uid))
       else !w.legacy
  }

  /** The two worlds differ at most in their history. */
  predicate SameButHistory(v: World, w: World) {
    v == w.(first := v.first)
  }

  lemma UsableIgnoresHistory(v: World, w: World, cfg: Config)
    requires v.users == w.users && v.secrets == w.secrets
    ensures AnyUsable(v, cfg) == AnyUsable(w, cfg)
  {
  }

  lemma ReadIgnoresHistory(v: World, w: World, cfg: Config, ch: Choice)
    requires SameButHistory(v, w) && (w.pc.Idle? || w.pc.GetUser? || w.pc.GetLegacy? || w.pc.GetSecret?)
    ensures SameButHistory(Act(v, cfg, ch), Act(w, cfg, ch))
  {
    UsableIgnoresHistory(v, w, cfg);
  }

  lemma CreateIgnoresHistory(v: World, w: World, cfg: Config, ch: Choice)
    requires SameButHistory(v, w) && w.pc.CreateUser?
    ensures SameButHistory(Act(v, cfg, ch), Act(w, cfg, ch))
  {
  }

  lemma SecretIgnoresHistory(v: World, w: World, cfg: Config, ch: Choice)
    requires SameButHistory(v, w) && w.pc.CreateSecret?
    ensures SameButHistory(Act(v, cfg, ch), Act(w, cfg, ch))
  {
  }

  lemma EnableIgnoresHistory(v: World, w: World, cfg: Config, ch: Choice)
    requires SameButHistory(v, w) && w.pc.Enable?
    ensures SameButHistory(Act(v, cfg, ch), Act(w, cfg, ch))
  {
  }

  lemma ActIgnoresHistory(v: World, w: World, cfg: Config, ch: Choice)
    requires SameButHistory(v, w)
    ensures SameButHistory(Act(v, cfg, ch), Act(w, cfg, ch))
  {
    match w.pc
    case CreateUser => CreateIgnoresHistory(v, w, cfg, ch);
    case CreateSecret(_) => SecretIgnoresHistory(v, w, cfg, ch);
    case Enable(_) => EnableIgnoresHistory(v, w, cfg, ch);
    case _ => ReadIgnoresHistory(v, w, cfg, ch);
  }

  lemma {:induction false} HistoryIsIdle(v: World, w: World, cfg: Config, ch: Choice, calls: nat)
    requires SameButHistory(v, w)
    ensures SameButHistory(Attempt(v, cfg, ch, calls), Attempt(w, cfg, ch, calls))
    decreases calls
  {
    if calls > 0 {
      ActIgnoresHistory(v, w, cfg, ch);
      HistoryIsIdle(Act(v, cfg, ch), Act(w, cfg, ch), cfg, ch, calls - 1);
    }
  }

  /** Steps of an attempt that cannot get past the account, or past its Secret. */
  ghost predicate Refusing(w: World, cfg: Config) {
    && !AnyUsable(w, cfg) && !CanBootstrap(w, cfg)
    && (cfg.slug in w.users.objects && Pending(cfg, w.users.objects[cfg.slug].body) ==> !w.users.objects[cfg.slug].body.locked)
    && match w.pc
       case Idle => true
       case GetUser => cfg.enabled && !cfg.skip
       case GetLegacy => cfg.enabled && !cfg.skip && cfg.slug !in w.users.objects
       case GetSecret(user) => cfg.enabled && !cfg.skip && cfg.uid != "" && Pending(cfg, user.body)
                               && cfg.slug in w.users.objects && w.users.objects[cfg.slug] == user
       case _ => false
  }

  lemma RefusingStays(w: World, cfg: Config, ch: Choice)
    requires Refusing(w, cfg)
    ensures Refusing(Act(w, cfg, ch), cfg)
  {
    var d := Act(w, cfg, ch);
    assert d == w.(pc := d.pc);
    assert AnyUsable(d, cfg) ==> AnyUsable(w, cfg);
  }

  /** Steps of an attempt that completes the account but finds it locked. */
  ghost predicate CompletingLocked(w: World, cfg: Config) {
    && cfg.slug in w.users.objects
    && var user := w.users.objects[cfg.slug];
       && user.body.locked
       && (forall name <- w.users.objects :: name != cfg.slug ==> !Usable(w.secrets, cfg, w.users.objects[name]))
       && match w.pc
          case Idle => true
          case GetUser => true
          case GetSecret(u) => u == user
          case CreateSecret(u) => u == user
          case Enable(u) => u == user
          case _ => false
  }

  /** What such a step may change: the login and mark of the account, and a new Secret for its UID. */
  lemma LockedEffect(w: World, cfg: Config, ch: Choice)
    requires CompletingLocked(w, cfg)
    ensures var d, user := Act(w, cfg, ch), w.users.objects[cfg.slug];
            && cfg.slug in d.users.objects && d.users.objects[cfg.slug].body.locked && d.users.objects[cfg.slug].uid == user.uid
            && (forall name :: name != cfg.slug ==> (name in d.users.objects <==> name in w.users.objects)
                                                    && (name in w.users.objects ==> d.users.objects[name] == w.users.objects[name]))
            && (d.secrets == w.secrets || d.secrets == w.secrets[SecretName(user.uid) := Secret(user.uid, Some(user.uid), Some(ch.hash), false)])
  {
    var d := Act(w, cfg, ch);
    if w.pc.Enable? {
      assert d.secrets == w.secrets;
    } else {
      assert d.users == w.users;
    }
  }

  lemma LockedPc(w: World, cfg: Config, ch: Choice)
    requires CompletingLocked(w, cfg)
    ensures var d := Act(w, cfg, ch);
            d.pc.Idle? || d.pc.GetUser? || ((d.pc.GetSecret? || d.pc.CreateSecret? || d.pc.Enable?) && d.users == w.users && d.pc.user == w.users.objects[cfg.slug])
  {
  }

  lemma LockedStays(w: World, cfg: Config, ch: Choice)
    requires CompletingLocked(w, cfg) && UniqueUids(w.users)
    ensures CompletingLocked(Act(w, cfg, ch), cfg) && UniqueUids(Act(w, cfg, ch).users)
  {
    LockedEffect(w, cfg, ch);
    LockedPc(w, cfg, ch);
    var d, user := Act(w, cfg, ch), w.users.objects[cfg.slug];
    forall name | name in d.users.objects && name != cfg.slug
      ensures !Usable(d.secrets, cfg, d.users.objects[name])
    {
      NewSecretHelpsNobody(w.secrets, d.secrets, cfg, w.users.objects[name], user.uid, ch.hash);
    }
  }

  lemma NewSecretHelpsNobody(before: map<string, Secret>, after: map<string, Secret>, cfg: Config, user: Object<User>, uid: Uid, hash: string)
    requires user.uid != uid && !Usable(before, cfg, user)
    requires after == before || after == before[SecretName(uid) := Secret(uid, Some(uid), Some(hash), false)]
    ensures !Usable(after, cfg, user)
  {
  }

  lemma LockedIsNotUsable(w: World, cfg: Config)
    requires CompletingLocked(w, cfg)
    ensures !AnyUsable(w, cfg)
  {
  }

  lemma {:induction false} AttemptFails(w: World, cfg: Config, ch: Choice, calls: nat)
    requires Refusing(w, cfg) || (CompletingLocked(w, cfg) && UniqueUids(w.users))
    ensures !AnyUsable(Attempt(w, cfg, ch, calls), cfg)
    decreases calls
  {
    if calls == 0 {
      var d := w.(pc := Idle);
      if CompletingLocked(w, cfg) {
        LockedIsNotUsable(d, cfg);
      }
      assert AnyUsable(d, cfg) ==> AnyUsable(w, cfg);
    } else {
      if Refusing(w, cfg) {
        RefusingStays(w, cfg, ch);
      } else {
        LockedStays(w, cfg, ch);
      }
      AttemptFails(Act(w, cfg, ch), cfg, ch, calls - 1);
    }
  }

  lemma AttemptSucceeds(w: World, cfg: Config, ch: Choice, calls: nat)
    requires w.pc.Idle? && Valid(w.users) && Unused(w, ch) && calls >= 7
    requires AnyUsable(w, cfg) || CanBootstrap(w, cfg)
    ensures AnyUsable(Attempt(w, cfg, ch, calls), cfg)
    decreases calls
  {
    if AnyUsable(w, cfg) {
      UsableStays(w, cfg, ch, calls);
    } else if cfg.uid != "" {
      var v := w.(first := map[]);
      assert AnyUsable(v, cfg) == AnyUsable(w, cfg) && Resumable(v, cfg) && Good(v, cfg);
      AttemptRecovers(v, cfg, ch, calls, {});
      HistoryIsIdle(v, w, cfg, ch, calls);
      var d, e := Attempt(v, cfg, ch, calls), Attempt(w, cfg, ch, calls);
      assert AnyUsable(d, cfg) ==> AnyUsable(e, cfg);
    } else {
      NewAccountWithoutUid(w, cfg, ch, calls);
    }
  }

  lemma {:induction false} UsableStays(w: World, cfg: Config, ch: Choice, calls: nat)
    requires w.pc.Idle? && AnyUsable(w, cfg)
    ensures Attempt(w, cfg, ch, calls) == w
    decreases calls
  {
    if calls > 0 {
      UsableStays(w, cfg, ch, calls - 1);
    }
  }

  /** Without an AuthConfig UID an uninterrupted attempt can still create the account. */
  lemma NewAccountWithoutUid(w: World, cfg: Config, ch: Choice, calls: nat)
    requires w.pc.Idle? && !AnyUsable(w, cfg) && Unused(w, ch) && calls >= 7
    requires cfg.uid == "" && CanBootstrap(w, cfg)
    ensures AnyUsable(Attempt(w, cfg, ch, calls), cfg)
  {
    var w1 := Act(w, cfg, ch);
    var w2 := Act(w1, cfg, ch);
    var w3 := Act(w2, cfg, ch);
    assert w3 == w.(pc := CreateUser);
    var w4 := Act(w3, cfg, ch);
    var user := Object(ch.uid, w.users.clock, User(cfg.email, true, false, false, false, cfg.uid, None));
    assert w4.pc == GetSecret(user) && w4.secrets == w.secrets && w4.users.objects == w.users.objects[cfg.slug := user];
    var w5 := Act(w4, cfg, ch);
    assert w5 == w4.(pc := CreateSecret(user));
    LastCalls(w5, cfg, ch, user);
    var w7 := Act(Act(w5, cfg, ch), cfg, ch);
    UsableStays(w7, cfg, ch, calls - 7);
    SevenCalls(w, cfg, ch, calls);
  }

  lemma LastCalls(w: World, cfg: Config, ch: Choice, user: Object<User>)
    requires w.pc == CreateSecret(user) && SecretName(user.uid) !in w.secrets
    requires cfg.slug in w.users.objects && w.users.objects[cfg.slug] == user && Pending(cfg, user.body) && !user.body.locked
    ensures var d := Act(Act(w, cfg, ch), cfg, ch); d.pc.Idle? && AnyUsable(d, cfg)
  {
    var d := Act(Act(w, cfg, ch), cfg, ch);
    assert cfg.slug in d.users.objects && Usable(d.secrets, cfg, d.users.objects[cfg.slug]);
  }

  lemma SevenCalls(w: World, cfg: Config, ch: Choice, calls: nat)
    requires calls >= 7
    ensures Attempt(w, cfg, ch, calls) ==
            Attempt(Act(Act(Act(Act(Act(Act(Act(w, cfg, ch), cfg, ch), cfg, ch), cfg, ch), cfg, ch), cfg, ch), cfg, ch), cfg, ch, calls - 7)
  {
    AttemptUnfolds(w, cfg, ch, calls);
    var w1 := Act(w, cfg, ch);
    AttemptUnfolds(w1, cfg, ch, calls - 1);
    var w2 := Act(w1, cfg, ch);
    AttemptUnfolds(w2, cfg, ch, calls - 2);
    var w3 := Act(w2, cfg, ch);
    AttemptUnfolds(w3, cfg, ch, calls - 3);
    var w4 := Act(w3, cfg, ch);
    AttemptUnfolds(w4, cfg, ch, calls - 4);
    var w5 := Act(w4, cfg, ch);
    AttemptUnfolds(w5, cfg, ch, calls - 5);
    AttemptUnfolds(Act(w5, cfg, ch), cfg, ch, calls - 6);
  }

  lemma AttemptUnfolds(w: World, cfg: Config, ch: Choice, calls: nat)
    requires calls > 0
    ensures Attempt(w, cfg, ch, calls) == Attempt(Act(w, cfg, ch), cfg, ch, calls - 1)
  {
  }

  /**
   Exactly when a complete, undisturbed attempt ends with a usable administrator: when one was usable before, or the
   account at the slug can be created or resumed and is not locked. A locked, unmarked or foreign account, a foreign
   Secret under its name and a retained legacy Secret are the failing cases.
   */
  lemma AttemptExactly(w: World, cfg: Config, ch: Choice, calls: nat)
    requires w.pc.Idle? && Valid(w.users) && UniqueUids(w.users) && Unused(w, ch) && calls >= 7
    ensures AnyUsable(Attempt(w, cfg, ch, calls), cfg) <==> AnyUsable(w, cfg) || CanBootstrap(w, cfg)
  {
    if AnyUsable(w, cfg) || CanBootstrap(w, cfg) {
      AttemptSucceeds(w, cfg, ch, calls);
    } else {
      AttemptFails(w, cfg, ch, calls);
    }
  }
}
