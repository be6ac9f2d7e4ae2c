/**
 reconcileBootstrapAdmin and createLocalAuthSecret of internal/controller/localauth.go as the controller
 runs them, with anybody else changing Users and Secrets before every API call. The methods read and write the
 stores themselves; after each call `Note` demands that the stored objects are exactly as the machine of
 `LocalAdmin` says and advances only its program counter and history. So every execution is a run of that
 machine, and everything proved there about all runs holds for it.
 */
module LocalAdminRounds {
  import opened ApiServer
  import opened LocalAdmin
  import opened LocalLogin

  class ControlPlane {
    var world: World
    /** What the other actors do before each of the controller's calls. */
    var schedule: seq<seq<Event>>
    ghost var trace: seq<Event>
    ghost const start: World
    const cfg: Config

    /** A run from an arbitrary consistent cluster. */
    ghost predicate Valid()
      reads this
    {
      LocalAdmin.Inv(start, cfg) && world == Run(start, cfg, trace)
    }

    /** The machine, too, has given up; or the UID drawn for a new account cannot be handed out. */
    ghost predicate GivenUp(ch: Choice)
      reads this
    {
      world.pc.Idle? || ch.uid == "" || ch.uid in world.users.issued
    }

    /** Something another actor does. */
    method Happen(e: Event)
      requires Valid()
      modifies `world, `trace
      ensures Valid() && trace == old(trace) + [e] && world == Next(old(world), cfg, e)
    {
      assert (trace + [e])[..|trace|] == trace;
      world := Next(world, cfg, e);
      trace := trace + [e];
    }

    /** A call of the controller has been made: its effect on the stored objects is the machine's. */
    method Note(before: World, ch: Choice)
      requires LocalAdmin.Inv(start, cfg) && before == Run(start, cfg, trace)
      requires world.users == Act(before, cfg, ch).users && world.secrets == Act(before, cfg, ch).secrets && world.legacy == before.legacy
      modifies `world, `trace
      ensures Valid() && trace == old(trace) + [Controller(ch)] && world == Act(before, cfg, ch)
    {
      assert (trace + [Controller(ch)])[..|trace|] == trace;
      var next := Act(before, cfg, ch);
      world := world.(first := next.first, pc := next.pc);
      trace := trace + [Controller(ch)];
    }

    method Others()
      requires Valid()
      modifies this
      ensures Valid() && old(trace) <= trace && world.pc == old(world.pc)
      ensures old(world.users.issued) <= world.users.issued
    {
      if schedule == [] {
        return;
      }
      var batch := schedule[0];
      schedule := schedule[1..];
      for i := 0 to |batch|
        invariant Valid() && old(trace) <= trace && world.pc == old(world.pc)
        invariant old(world.users.issued) <= world.users.issued
      {
        if !batch[i].Controller? && !batch[i].Crash? {
          Happen(batch[i]);
        }
      }
    }

    /**
     reconcileBootstrapAdmin. Success means that at this very moment some local administrator is usable, or that
     local login is off, or that the bootstrap account was just enabled with the Secret of its own UID.
     */
    method ReconcileBootstrapAdmin(ch: Choice) returns (ok: bool)
      requires Valid() && world.pc.Idle?
      modifies this
      ensures Valid() && old(trace) <= trace
      ensures ok ==> world.pc.Idle? && (!cfg.enabled || SomebodyCanLogIn(world, cfg) || Enabled(world, cfg))
      ensures !ok ==> GivenUp(ch)
    {
      Others();
      if !cfg.enabled {
        return true;
      }
      var usable := AnyUsable(world, cfg);
      AnyUsableIsLogin(world, cfg);
      Note(world, ch);
      if usable {
        return true;
      }
      if cfg.skip {
        return false;
      }
      ok := Bootstrap(ch);
    }

    /** No administrator is usable: create or resume the account, give it a Secret, enable it. */
    method Bootstrap(ch: Choice) returns (ok: bool)
      requires Valid() && world.pc.GetUser?
      modifies this
      ensures Valid() && old(trace) <= trace
      ensures ok ==> world.pc.Idle? && Enabled(world, cfg)
      ensures !ok ==> GivenUp(ch)
    {
      Others();
      var existing := if cfg.slug in world.users.objects then Some(world.users.objects[cfg.slug]) else None;
      Note(world, ch);
      if existing.None? {
        ok := CreateBootstrapUser(ch);
        if !ok {
          return;
        }
      } else {
        var u := existing.value.body;
        if cfg.uid == "" || u.mark != cfg.uid || u.email != cfg.email || !u.admin || u.disabled || u.deleting || u.auth.Some? {
          return false;
        }
      }
      ok := CreateLocalAuthSecret(ch);
      if ok {
        ok := EnableUser(ch);
      }
    }

    /** The account was not there: create it with the pending mark, unless a legacy Secret is retained. */
    method CreateBootstrapUser(ch: Choice) returns (ok: bool)
      requires Valid() && world.pc.GetLegacy?
      modifies this
      ensures Valid() && old(trace) <= trace
      ensures ok ==> world.pc.GetSecret?
      ensures !ok ==> GivenUp(ch)
    {
      Others();
      var legacy := world.legacy;
      Note(world, ch);
      if legacy {
        return false;
      }
      Others();
      var before := world;
      if ch.uid in world.users.issued || ch.uid == "" {
        return false;
      }
      var user := User(cfg.email, true, false, false, false, cfg.uid, None);
      var reply := Create(world.users, cfg.slug, ch.uid, user);
      world := world.(users := reply.store);
      ok := reply.outcome.Done?;
      Note(before, ch);
    }

    /** createLocalAuthSecret: keep an existing Secret that is verifiably this User's, else create one. */
    method CreateLocalAuthSecret(ch: Choice) returns (ok: bool)
      requires Valid() && world.pc.GetSecret?
      modifies this
      ensures Valid() && old(trace) <= trace
      ensures ok ==> world.pc == Enable(old(world.pc.user))
                     && var name := SecretName(old(world.pc.user.uid));
                     name in world.secrets && OwnedSecret(world.secrets[name], old(world.pc.user.uid))
      ensures !ok ==> GivenUp(ch)
    {
      var user := world.pc.user;
      var name := SecretName(user.uid);
      Others();
      var existing := name in world.secrets;
      var owned := existing && world.secrets[name].userUid == user.uid && world.secrets[name].ownerUid == Some(user.uid)
                   && !world.secrets[name].deleting && world.secrets[name].hash.Some?;
      Note(world, ch);
      if existing {
        return owned;
      }
      Others();
      var before := world;
      ok := name !in world.secrets;
      if ok {
        world := world.(secrets := world.secrets[name := Secret(user.uid, Some(user.uid), Some(ch.hash), false)]);
      }
      Note(before, ch);
    }

    /** The last write, over the version that was read or created. */
    method EnableUser(ch: Choice) returns (ok: bool)
      requires Valid() && world.pc.Enable?
      modifies this
      ensures Valid() && old(trace) <= trace && world.pc.Idle?
      ensures ok ==> Enabled(world, cfg) && world.users.objects[cfg.slug].uid == old(world.pc.user.uid)
    {
      var user := world.pc.user;
      Others();
      RunKeepsInv(start, cfg, trace);
      var before := world;
      var body := user.body;
      body := body.(auth := Some(LocalAuth(true, SecretName(user.uid))));
      body := body.(mark := "");
      var reply := Update(world.users, cfg.slug, user.version, body);
      world := world.(users := reply.store);
      ok := reply.outcome.Done?;
      Note(before, ch);
    }
  }

  /** The bootstrap account has local login with the Secret of its own UID, is an active administrator, and is no longer pending. */
  ghost predicate Enabled(w: World, cfg: Config) {
    && cfg.slug in w.users.objects
    && var user := w.users.objects[cfg.slug];
       && user.body.auth == Some(LocalAuth(true, SecretName(user.uid))) && user.body.mark == ""
       && user.body.email == cfg.email && user.body.admin && !user.body.disabled && !user.body.deleting
  }
}
