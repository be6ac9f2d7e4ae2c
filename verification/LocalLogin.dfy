/**
 What the bootstrap of `LocalAdmin` is for: that somebody can log in locally as an administrator. The login is an
 independent model, check by check; the recovery results are stated through it.
 */
module LocalLogin {
  import opened ApiServer
  import opened LocalAdmin

  datatype Refusal =
    | AccountDisabled | AccountDeleting | NoLocalLogin | NotAdministrator | AccountLocked
    | NoSecret | SecretDeleting | SecretOfAnotherUser | SecretOwnedByAnother | NoValidHash

  datatype Attempted = Granted | Denied(why: Refusal)

  /** A local login of this User as an administrator, one check after the other. */
  function Login(secrets: map<string, Secret>, cfg: Config, user: Object<User>): Attempted {
    var u := user.body;
    if u.disabled then Denied(AccountDisabled)
    else if u.deleting then Denied(AccountDeleting)
    else if u.auth.None? || !u.auth.value.enabled then Denied(NoLocalLogin)
    else if !u.admin && u.email !in cfg.adminEmails then Denied(NotAdministrator)
    else if u.locked then Denied(AccountLocked)
    else if u.auth.value.secret !in secrets then Denied(NoSecret)
    else
      var s := secrets[u.auth.value.secret];
      if s.deleting then Denied(SecretDeleting)
      else if s.userUid != "" && s.userUid != user.uid then Denied(SecretOfAnotherUser)
      else if s.ownerUid.Some? && s.ownerUid.value != user.uid then Denied(SecretOwnedByAnother)
      else if s.hash.None? then Denied(NoValidHash)
      else Granted
  }

  ghost predicate SomebodyCanLogIn(w: World, cfg: Config) {
    exists name <- w.users.objects :: Login(w.secrets, cfg, w.users.objects[name]).Granted?
  }

  /** usableLocalAdmin accepts an account exactly when its login succeeds. */
  lemma UsableIsLogin(secrets: map<string, Secret>, cfg: Config, user: Object<User>)
    ensures Usable(secrets, cfg, user) <==> Login(secrets, cfg, user).Granted?
  {
  }

  /** usableLocalAdmin, one early return after the other. */
  method UsableLocalAdmin(secrets: map<string, Secret>, cfg: Config, user: Object<User>) returns (ok: bool)
    ensures ok <==> Login(secrets, cfg, user).Granted?
  {
    var u := user.body;
    if u.disabled || u.deleting || u.auth.None? || !u.auth.value.enabled {
      return false;
    }
    var admin := u.admin || u.email in cfg.adminEmails;
    if !admin || u.locked {
      return false;
    }
    var name := u.auth.value.secret;
    if name !in secrets || secrets[name].deleting {
      return false;
    }
    if secrets[name].userUid != "" && secrets[name].userUid != user.uid {
      return false;
    }
    if secrets[name].ownerUid.Some? && secrets[name].ownerUid.value != user.uid {
      return false;
    }
    return secrets[name].hash.Some?;
  }

  lemma AnyUsableIsLogin(w: World, cfg: Config)
    ensures AnyUsable(w, cfg) <==> SomebodyCanLogIn(w, cfg)
  {
    forall name | name in w.users.objects
      ensures Usable(w.secrets, cfg, w.users.objects[name]) <==> Login(w.secrets, cfg, w.users.objects[name]).Granted?
    {
      UsableIsLogin(w.secrets, cfg, w.users.objects[name]);
    }
  }

  /** The bootstrap starts exactly when local login is on, not skipped, and nobody can log in. */
  lemma BootstrapStartsExactly(w: World, cfg: Config, ch: Choice)
    requires w.pc.Idle?
    ensures Act(w, cfg, ch) == if cfg.enabled && !cfg.skip && !SomebodyCanLogIn(w, cfg) then w.(pc := GetUser) else w
  {
    AnyUsableIsLogin(w, cfg);
  }

  /** The account at the slug is this AuthConfig's own unfinished administrator and not locked, its Secret absent or its own; or it is absent, and so is a legacy Secret. */
  ghost predicate Recoverable(w: World, cfg: Config) {
    && cfg.enabled && !cfg.skip
    && if cfg.slug in w.users.objects then
         var uid, u := w.users.objects[cfg.slug].uid, w.users.objects[cfg.slug].body;
         var name := "kw-password-" + uid;
         && cfg.uid != "" && u.mark == cfg.uid && u.email == cfg.email && u.admin
         && !u.disabled && !u.deleting && !u.locked && u.auth.None?
         && (name in w.secrets ==>
               w.secrets[name].userUid == uid && w.secrets[name].ownerUid == Some(uid) && !w.secrets[name].deleting && w.secrets[name].hash.Some?)
       else !w.legacy
  }

  /**
   Exactly when a complete, undisturbed attempt ends with somebody able to log in as administrator: when somebody was
   before, or the account at the slug can be created or completed.
   */
  lemma RecoveryExactly(w: World, cfg: Config, ch: Choice, calls: nat)
    requires w.pc.Idle? && Valid(w.users) && UniqueUids(w.users) && Unused(w, ch) && calls >= 7
    ensures SomebodyCanLogIn(Attempt(w, cfg, ch, calls), cfg) <==> SomebodyCanLogIn(w, cfg) || Recoverable(w, cfg)
  {
    AttemptExactly(w, cfg, ch, calls);
    AnyUsableIsLogin(w, cfg);
    AnyUsableIsLogin(Attempt(w, cfg, ch, calls), cfg);
  }

  /** However often it crashed before, a last complete attempt ends with somebody able to log in. */
  lemma CrashesAreRecovered(w: World, cfg: Config, tries: seq<Try>)
    requires Good(w, cfg) && w.pc.Idle? && tries != [] && tries[|tries| - 1].calls >= 7
    requires DistinctTries(tries) && forall t <- tries :: Unused(w, t.choice)
    ensures SomebodyCanLogIn(Attempts(w, cfg, tries), cfg) && HashesKept(Attempts(w, cfg, tries))
  {
    BootstrapRecovers(w, cfg, tries);
    AnyUsableIsLogin(Attempts(w, cfg, tries), cfg);
  }

  /** Where nobody else has local credentials, it is the bootstrap account that can log in, with the hash first stored for its UID. */
  lemma FreshInstallLogsIn(w: World, cfg: Config, tries: seq<Try>)
    requires Good(w, cfg) && w.pc.Idle? && tries != [] && tries[|tries| - 1].calls >= 7
    requires DistinctTries(tries) && forall t <- tries :: Unused(w, t.choice)
    requires Traced(w, cfg) && forall name <- w.users.objects :: name != cfg.slug ==> w.users.objects[name].body.auth.None?
    ensures var d := Attempts(w, cfg, tries);
            && cfg.slug in d.users.objects
            && var user := d.users.objects[cfg.slug];
            && Login(d.secrets, cfg, user).Granted?
            && user.body.auth.value.secret == "kw-password-" + user.uid
            && user.uid in d.first && d.secrets["kw-password-" + user.uid].hash == Some(d.first[user.uid])
  {
    FreshInstallGetsItsAdmin(w, cfg, tries);
    var d := Attempts(w, cfg, tries);
    UsableIsLogin(d.secrets, cfg, d.users.objects[cfg.slug]);
  }
}
