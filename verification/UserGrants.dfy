/**
 The RoleBindings that give a User access to namespaces (reconcileNamespaceAccess,
 ensureRoleBinding and cleanupStaleRoleBindings of internal/controller/user_controller.go), for a
 reconcile that runs without other writers of these bindings; the UID/version preconditions of its
 deletes then always hold and are left out.
 */
module UserGrants {
  import opened ApiServer

  datatype Role = Admin | Viewer | Editor

  function ClusterRole(role: Role): string {
    match role
    case Admin => "workspace-admin-role"
    case Viewer => "workspace-viewer-role"
    case Editor => "workspace-editor-role"
  }

  datatype Grant = Grant(namespace: string, role: Role)

  /** `personal` is the namespace recorded in the status, `personalEnabled` the AuthConfig switch. */
  datatype User = User(name: string, email: string, disabled: bool, personal: string, personalEnabled: bool, access: seq<Grant>)

  datatype Key = Key(namespace: string, name: string)

  /** `managed` and `user` are the controller's labels, `subject` the e-mail the role is granted to. */
  datatype Binding = Binding(managed: bool, user: string, subject: string, role: string)

  type Bindings = map<Key, Binding>

  predicate ManagedFor(b: Binding, user: string) {
    b.managed && b.user == user
  }

  function Shared(user: User, namespace: string): Key {
    Key(namespace, user.name + "-shared")
  }

  function Personal(user: User): Key {
    Key(user.personal, user.name + "-personal")
  }

  function Wanted(user: User, role: string): Binding {
    Binding(true, user.name, user.email, role)
  }

  predicate HasPersonal(user: User) {
    user.personalEnabled && user.personal != ""
  }

  // ---------------------------------------------------------------- specification

  /** A binding with another role may only be replaced if it is this user's own. */
  predicate Refused(b: Bindings, user: User, key: Key, role: string) {
    key in b && b[key].role != role && !ManagedFor(b[key], user.name)
  }

  function Ensured(b: Bindings, user: User, key: Key, role: string): Option<Bindings> {
    if Refused(b, user, key, role) then None else Some(b[key := Wanted(user, role)])
  }

  function EnsuredAll(b: Bindings, user: User, access: seq<Grant>): Option<Bindings> {
    if access == [] then Some(b)
    else
      var last := access[|access| - 1];
      var before := EnsuredAll(b, user, access[..|access| - 1]);
      if before.None? then None
      else Ensured(before.value, user, Shared(user, last.namespace), ClusterRole(last.role))
  }

  function DesiredNamespaces(user: User): set<string> {
    if user.disabled then {}
    else (if user.personal != "" then {user.personal} else {}) + set g | g in user.access :: g.namespace
  }

  predicate Stale(user: User, key: Key, b: Binding) {
    ManagedFor(b, user.name) && key.namespace !in DesiredNamespaces(user)
  }

  function Cleaned(b: Bindings, user: User): Bindings {
    map k | k in b && !Stale(user, k, b[k]) :: b[k]
  }

  function Reconciled(b: Bindings, user: User): Option<Bindings> {
    if user.disabled then Some(Cleaned(b, user))
    else
      var personal := if HasPersonal(user) then Ensured(b, user, Personal(user), ClusterRole(Editor)) else Some(b);
      if personal.None? then None
      else
        var shared := EnsuredAll(personal.value, user, user.access);
        if shared.None? then None else Some(Cleaned(shared.value, user))
  }

  // ---------------------------------------------------------------- the controller

  class Cluster {
    var bindings: Bindings

    /** ensureRoleBinding: a role cannot be edited in place, so the old grant is removed first. */
    method EnsureRoleBinding(user: User, key: Key, role: string) returns (ok: bool)
      modifies this
      ensures ok == Ensured(old(bindings), user, key, role).Some?
      ensures bindings == if ok then Ensured(old(bindings), user, key, role).value else old(bindings)
    {
      if key in bindings && bindings[key].role != role {
        if !bindings[key].managed || bindings[key].user != user.name {
          return false;
        }
        bindings := bindings - {key};
      }
      if key in bindings {
        bindings := bindings[key := bindings[key].(managed := true, user := user.name, subject := user.email, role := role)];
      } else {
        bindings := bindings[key := Binding(true, user.name, user.email, role)];
      }
      return true;
    }

    /** The loop over spec.namespaceAccess; it stops at the first refusal. */
    method EnsureShared(user: User) returns (ok: bool)
      modifies this
      ensures ok == EnsuredAll(old(bindings), user, user.access).Some?
      ensures ok ==> bindings == EnsuredAll(old(bindings), user, user.access).value
    {
      for i := 0 to |user.access|
        invariant EnsuredAll(old(bindings), user, user.access[..i]) == Some(bindings)
      {
        var access := user.access[i];
        assert user.access[..i + 1][..i] == user.access[..i];
        ok := EnsureRoleBinding(user, Shared(user, access.namespace), ClusterRole(access.role));
        if !ok {
          RefusalIsFinal(old(bindings), user, user.access, i + 1);
          return;
        }
      }
      assert user.access[..|user.access|] == user.access;
      ok := true;
    }

    /** cleanupStaleRoleBindings: the listed bindings, in any order. */
    method CleanupStaleRoleBindings(user: User)
      modifies this
      ensures bindings == Cleaned(old(bindings), user)
    {
      var desired: set<string> := {};
      if !user.disabled {
        if user.personal != "" {
          desired := desired + {user.personal};
        }
        for i := 0 to |user.access|
          invariant desired == (if user.personal != "" then {user.personal} else {}) + set g | g in user.access[..i] :: g.namespace
        {
          assert user.access[..i + 1] == user.access[..i] + [user.access[i]];
          desired := desired + {user.access[i].namespace};
        }
        assert user.access[..|user.access|] == user.access;
      }
      assert desired == DesiredNamespaces(user);
      var listed := set k | k in bindings && ManagedFor(bindings[k], user.name);
      var rest := listed;
      while rest != {}
        invariant rest <= listed
        invariant bindings == map k | k in old(bindings) && (k in rest || !Stale(user, k, old(bindings)[k])) :: old(bindings)[k]
      {
        var key :| key in rest;
        if key.namespace !in desired {
          bindings := bindings - {key};
        }
        rest := rest - {key};
      }
    }

    /** The grants part of a User reconcile. */
    method Reconcile(user: User) returns (ok: bool)
      modifies this
      ensures ok == Reconciled(old(bindings), user).Some?
      ensures ok ==> bindings == Reconciled(old(bindings), user).value
    {
      if !user.disabled {
        if HasPersonal(user) {
          ok := EnsureRoleBinding(user, Personal(user), ClusterRole(Editor));
          if !ok {
            return;
          }
        }
        ok := EnsureShared(user);
        if !ok {
          return;
        }
      }
      CleanupStaleRoleBindings(user);
      ok := true;
    }
  }

  lemma {:induction false} RefusalIsFinal(b: Bindings, user: User, access: seq<Grant>, i: nat)
    requires i <= |access| && EnsuredAll(b, user, access[..i]).None?
    ensures EnsuredAll(b, user, access).None?
  {
    if i < |access| {
      var before := access[..|access| - 1];
      assert before[..i] == access[..i];
      RefusalIsFinal(b, user, before, i);
      RefusalStays(b, user, access);
    } else {
      assert access[..i] == access;
    }
  }

  lemma RefusalStays(b: Bindings, user: User, access: seq<Grant>)
    requires access != [] && EnsuredAll(b, user, access[..|access| - 1]).None?
    ensures EnsuredAll(b, user, access).None?
  {
  }

  // ---------------------------------------------------------------- what a successful reconcile means

  /** `role` is the role of the last entry for this namespace. */
  ghost predicate LastRole(access: seq<Grant>, namespace: string, role: Role) {
    exists i :: 0 <= i < |access| && access[i] == Grant(namespace, role)
                && forall j :: i < j < |access| ==> access[j].namespace != namespace
  }

  lemma {:induction false} SharedBindings(b: Bindings, user: User, access: seq<Grant>, k: Key)
    requires EnsuredAll(b, user, access).Some?
    ensures var r := EnsuredAll(b, user, access).value;
            if k.name == user.name + "-shared" && exists g <- access :: g.namespace == k.namespace then
              && k in r && ManagedFor(r[k], user.name) && r[k].subject == user.email
              && forall role :: LastRole(access, k.namespace, role) ==> r[k].role == ClusterRole(role)
            else (k in r <==> k in b) && (k in b ==> r[k] == b[k])
  {
    if access != [] {
      var n := |access| - 1;
      var last := access[n];
      SharedBindings(b, user, access[..n], k);
      assert access == access[..n] + [last];
      forall role | LastRole(access, k.namespace, role)
        ensures last.namespace == k.namespace ==> role == last.role
        ensures last.namespace != k.namespace ==> LastRole(access[..n], k.namespace, role)
      {
        var i :| 0 <= i < |access| && access[i] == Grant(k.namespace, role) && forall j :: i < j < |access| ==> access[j].namespace != k.namespace;
        if i < n {
          assert access[..n][i] == access[i];
        }
      }
    }
  }

  /** The keys this User's reconcile may write. */
  ghost predicate Target(user: User, k: Key) {
    || (HasPersonal(user) && k == Personal(user))
    || (k.name == user.name + "-shared" && exists g <- user.access :: g.namespace == k.namespace)
  }

  lemma NamesDiffer(user: User)
    ensures user.name + "-shared" != user.name + "-personal"
  {
    assert |user.name + "-shared"| == |user.name| + 7 && |user.name + "-personal"| == |user.name| + 9;
  }

  /** Every binding after a successful reconcile of an enabled User, key by key. */
  lemma ReconciledAt(b: Bindings, user: User, k: Key)
    requires !user.disabled && Reconciled(b, user).Some?
    ensures var r := Reconciled(b, user).value;
            if Target(user, k) then
              && k in r && ManagedFor(r[k], user.name) && r[k].subject == user.email
              && (HasPersonal(user) && k == Personal(user) ==> r[k].role == ClusterRole(Editor))
              && (k.name == user.name + "-shared" ==>
                    forall role :: LastRole(user.access, k.namespace, role) ==> r[k].role == ClusterRole(role))
            else if k in b && Stale(user, k, b[k]) then k !in r
            else (k in r <==> k in b) && (k in b ==> r[k] == b[k])
  {
    var start := if HasPersonal(user) then b[Personal(user) := Wanted(user, ClusterRole(Editor))] else b;
    SharedBindings(start, user, user.access, k);
    NamesDiffer(user);
  }

  // ---------------------------------------------------------------- the same, spelt out on names and roles

  function RoleText(role: Role): string {
    match role
    case Admin => "workspace-admin-role"
    case Viewer => "workspace-viewer-role"
    case Editor => "workspace-editor-role"
  }

  ghost predicate Listed(user: User, namespace: string) {
    exists i :: 0 <= i < |user.access| && user.access[i].namespace == namespace
  }

  ghost predicate IsPersonalKey(user: User, k: Key) {
    user.personalEnabled && user.personal != "" && k == Key(user.personal, user.name + "-personal")
  }

  ghost predicate IsSharedKey(user: User, k: Key) {
    k.name == user.name + "-shared" && Listed(user, k.namespace)
  }

  ghost predicate Wants(user: User, namespace: string) {
    !user.disabled && ((user.personal != "" && namespace == user.personal) || Listed(user, namespace))
  }

  ghost predicate SameAt(b: Bindings, r: Bindings, k: Key) {
    (k in r <==> k in b) && (k in b && k in r ==> r[k] == b[k])
  }

  /** `i` is the last, or the first, entry for its namespace. */
  ghost predicate LastEntry(access: seq<Grant>, i: nat) {
    i < |access| && forall j :: i < j < |access| ==> access[j].namespace != access[i].namespace
  }

  ghost predicate FirstEntry(access: seq<Grant>, i: nat) {
    i < |access| && forall j :: 0 <= j < i ==> access[j].namespace != access[i].namespace
  }

  lemma WantedNamespaces(user: User, namespace: string)
    ensures namespace in DesiredNamespaces(user) <==> Wants(user, namespace)
  {
    if Listed(user, namespace) {
      var i :| 0 <= i < |user.access| && user.access[i].namespace == namespace;
      assert user.access[i] in user.access;
    }
  }

  lemma TargetKeys(user: User, k: Key)
    ensures Target(user, k) <==> IsPersonalKey(user, k) || IsSharedKey(user, k)
  {
    if Listed(user, k.namespace) {
      var i :| 0 <= i < |user.access| && user.access[i].namespace == k.namespace;
      assert user.access[i] in user.access;
    }
  }

  lemma LastEntryRole(user: User, i: nat)
    requires LastEntry(user.access, i)
    ensures LastRole(user.access, user.access[i].namespace, user.access[i].role)
  {
    assert user.access[i] == Grant(user.access[i].namespace, user.access[i].role);
  }

  /**
   Every binding after a successful reconcile, key by key. An enabled User has exactly the personal binding, if that is
   switched on, and one shared binding per listed namespace, with the role of its last entry; every other binding
   managed for the User goes if its namespace is not wanted, and nothing else is touched.
   */
  lemma GrantsExactly(b: Bindings, user: User, k: Key)
    requires Reconciled(b, user).Some?
    ensures var r := Reconciled(b, user).value;
            if !user.disabled && IsPersonalKey(user, k) then
              k in r && r[k] == Binding(true, user.name, user.email, "workspace-editor-role")
            else if !user.disabled && IsSharedKey(user, k) then
              && k in r && r[k].managed && r[k].user == user.name && r[k].subject == user.email
              && forall i: nat :: LastEntry(user.access, i) && user.access[i].namespace == k.namespace ==> r[k].role == RoleText(user.access[i].role)
            else if k in b && b[k].managed && b[k].user == user.name && !Wants(user, k.namespace) then k !in r
            else SameAt(b, r, k)
  {
    WantedNamespaces(user, k.namespace);
    TargetKeys(user, k);
    if user.disabled {
      DisabledLeavesNone(b, user, k);
    } else {
      ReconciledAt(b, user, k);
      PersonalIsExact(b, user, k);
      forall i: nat | LastEntry(user.access, i) && user.access[i].namespace == k.namespace
        ensures LastRole(user.access, k.namespace, user.access[i].role)
      {
        LastEntryRole(user, i);
      }
    }
  }

  lemma PersonalIsExact(b: Bindings, user: User, k: Key)
    requires !user.disabled && Reconciled(b, user).Some?
    ensures var r := Reconciled(b, user).value;
            IsPersonalKey(user, k) ==> k in r && r[k] == Binding(true, user.name, user.email, "workspace-editor-role")
  {
    if IsPersonalKey(user, k) {
      var start := b[Personal(user) := Wanted(user, ClusterRole(Editor))];
      SharedBindings(start, user, user.access, k);
      NamesDiffer(user);
      WantedNamespaces(user, k.namespace);
    }
  }

  /** A binding stands in the way: somebody else's, with another role. */
  ghost predicate InTheWay(b: Bindings, user: User, k: Key, role: string) {
    k in b && b[k].role != role && !(b[k].managed && b[k].user == user.name)
  }

  /** Entry `i` is the first for its namespace, and a binding stands in its way. */
  ghost predicate Obstructed(b: Bindings, user: User, access: seq<Grant>, i: nat) {
    FirstEntry(access, i) && InTheWay(b, user, Key(access[i].namespace, user.name + "-shared"), RoleText(access[i].role))
  }

  ghost predicate NoneObstructed(b: Bindings, user: User, access: seq<Grant>) {
    forall i: nat :: !Obstructed(b, user, access, i)
  }

  lemma ObstructedPrefix(b: Bindings, user: User, access: seq<Grant>, i: nat)
    requires i < |access| - 1
    ensures Obstructed(b, user, access[..|access| - 1], i) == Obstructed(b, user, access, i)
  {
    var before := access[..|access| - 1];
    assert forall j :: 0 <= j <= i ==> before[j] == access[j];
  }

  lemma NoneSnoc(b: Bindings, user: User, access: seq<Grant>)
    requires access != []
    ensures NoneObstructed(b, user, access) <==>
            NoneObstructed(b, user, access[..|access| - 1]) && !Obstructed(b, user, access, |access| - 1)
  {
    var n := |access| - 1;
    forall i: nat | i < n
      ensures Obstructed(b, user, access[..n], i) == Obstructed(b, user, access, i)
    {
      ObstructedPrefix(b, user, access, i);
    }
    assert forall i: nat :: i >= n ==> !Obstructed(b, user, access[..n], i);
  }

  lemma LastIsRefused(b: Bindings, user: User, access: seq<Grant>)
    requires access != [] && EnsuredAll(b, user, access[..|access| - 1]).Some?
    ensures EnsuredAll(b, user, access).None? <==> Obstructed(b, user, access, |access| - 1)
  {
    var n := |access| - 1;
    var before, last := access[..n], access[n];
    SharedBindings(b, user, before, Shared(user, last.namespace));
    if FirstEntry(access, n) {
      assert forall g <- before :: g.namespace != last.namespace;
    } else {
      var j :| 0 <= j < n && access[j].namespace == last.namespace;
      assert before[j] in before;
    }
  }

  lemma {:induction false} SharedAccepted(b: Bindings, user: User, access: seq<Grant>)
    ensures EnsuredAll(b, user, access).Some? <==> NoneObstructed(b, user, access)
  {
    if access != [] {
      var before := access[..|access| - 1];
      SharedAccepted(b, user, before);
      NoneSnoc(b, user, access);
      if EnsuredAll(b, user, before).Some? {
        LastIsRefused(b, user, access);
      }
    }
  }

  /**
   Exactly when a reconcile succeeds: always for a disabled User; otherwise if no binding of somebody else with another
   role stands in the way of the personal binding, or of the first entry for a namespace.
   */
  lemma SuccessExactly(b: Bindings, user: User)
    ensures Reconciled(b, user).Some? <==>
            || user.disabled
            || (&& (forall k :: IsPersonalKey(user, k) ==> !InTheWay(b, user, k, "workspace-editor-role"))
                && forall i: nat :: !Obstructed(b, user, user.access, i))
  {
    if !user.disabled {
      var personal := if HasPersonal(user) then Ensured(b, user, Personal(user), ClusterRole(Editor)) else Some(b);
      if HasPersonal(user) {
        assert IsPersonalKey(user, Personal(user));
      }
      if personal.Some? {
        NamesDiffer(user);
        forall i: nat
          ensures Obstructed(personal.value, user, user.access, i) == Obstructed(b, user, user.access, i)
        {
        }
        SharedAccepted(personal.value, user, user.access);
      }
    }
  }

  /** Access as the spec says: one managed shared binding per namespace, with the role of its last entry, and none elsewhere. */
  lemma AccessAsSpecified(b: Bindings, user: User)
    requires !user.disabled && Reconciled(b, user).Some?
    ensures var r := Reconciled(b, user).value;
            && (forall i: nat :: LastEntry(user.access, i) ==>
                  var k := Key(user.access[i].namespace, user.name + "-shared");
                  k in r && r[k] == Binding(true, user.name, user.email, RoleText(user.access[i].role)))
            && (forall k <- r :: r[k].managed && r[k].user == user.name ==> Wants(user, k.namespace))
  {
    var r := Reconciled(b, user).value;
    forall i: nat | LastEntry(user.access, i)
      ensures var k := Key(user.access[i].namespace, user.name + "-shared");
              k in r && r[k] == Binding(true, user.name, user.email, RoleText(user.access[i].role))
    {
      var k := Key(user.access[i].namespace, user.name + "-shared");
      assert IsSharedKey(user, k);
      SuffixDecides(user.name, user.name);
      GrantsExactly(b, user, k);
    }
    forall k | k in r && r[k].managed && r[k].user == user.name
      ensures Wants(user, k.namespace)
    {
      GrantsExactly(b, user, k);
      if IsSharedKey(user, k) {
        assert Listed(user, k.namespace);
      }
    }
  }

  /** Somebody else's binding is left alone exactly when it does not sit under a name this User's reconcile writes. */
  lemma ForeignBindings(b: Bindings, user: User, k: Key)
    requires !user.disabled && Reconciled(b, user).Some? && k in b && !ManagedFor(b[k], user.name)
    ensures var r := Reconciled(b, user).value;
            (k in r && r[k] == b[k]) <==> !IsPersonalKey(user, k) && !IsSharedKey(user, k)
  {
    TargetKeys(user, k);
    ReconciledAt(b, user, k);
  }

  /** A binding somebody made by hand, with the role this User is about to get, is taken over. */
  lemma HandMadeBindingIsAdopted(user: User, subject: string)
    requires !user.disabled && !HasPersonal(user) && user.access == [Grant("team", Viewer)]
    ensures var byHand := Binding(false, "", subject, ClusterRole(Viewer));
            Reconciled(map[Shared(user, "team") := byHand], user) == Some(map[Shared(user, "team") := Wanted(user, ClusterRole(Viewer))])
  {
    var k, byHand := Shared(user, "team"), Binding(false, "", subject, ClusterRole(Viewer));
    var b := map[k := byHand];
    assert user.access[..0] == [] && user.access[0] in user.access;
    assert EnsuredAll(b, user, []) == Some(b);
    assert EnsuredAll(b, user, user.access) == Ensured(b, user, k, ClusterRole(Viewer));
    var r := map[k := Wanted(user, ClusterRole(Viewer))];
    assert b[k := Wanted(user, ClusterRole(Viewer))] == r;
    assert "team" in DesiredNamespaces(user);
    assert Cleaned(r, user) == r;
  }

  // ---------------------------------------------------------------- several Users

  lemma SuffixDecides(a: string, b: string)
    ensures a + "-shared" == b + "-shared" ==> a == b
    ensures a + "-personal" == b + "-personal" ==> a == b
    ensures a + "-shared" != b + "-personal"
  {
    var x, y := a + "-shared", b + "-personal";
    assert x[|x| - 1] == 'd' && y[|y| - 1] == 'l';
    assert a == (a + "-shared")[..|a|] && b == (b + "-shared")[..|b|];
    assert a == (a + "-personal")[..|a|] && b == (b + "-personal")[..|b|];
  }

  /** Users with different names write different bindings. */
  lemma TargetsDisjoint(u: User, v: User, k: Key)
    requires u.name != v.name
    ensures !(Target(u, k) && Target(v, k))
  {
    SuffixDecides(u.name, v.name);
    SuffixDecides(v.name, u.name);
  }

  /** A reconcile of one User, enabled or disabled, leaves every binding another User's reconcile made, exactly as it made it. */
  lemma OtherUsersKeepTheirs(b: Bindings, other: User, user: User, k: Key)
    requires other.name != user.name && !other.disabled && Reconciled(b, other).Some? && Target(other, k)
    requires Reconciled(Reconciled(b, other).value, user).Some?
    ensures var made := Reconciled(b, other).value;
            var after := Reconciled(made, user).value;
            k in made && ManagedFor(made[k], other.name) && k in after && after[k] == made[k]
  {
    var made := Reconciled(b, other).value;
    ReconciledAt(b, other, k);
    if user.disabled {
      DisabledLeavesNone(made, user, k);
    } else {
      TargetsDisjoint(other, user, k);
      ReconciledAt(made, user, k);
    }
  }

  /** Under the names this User writes, `c` has nothing but this User's own bindings and bindings of `b`. */
  ghost predicate NoNewObstacle(b: Bindings, c: Bindings, user: User) {
    forall k <- c :: k.name == user.name + "-shared" || k.name == user.name + "-personal" ==>
      ManagedFor(c[k], user.name) || (k in b && b[k] == c[k])
  }

  lemma {:induction false} AcceptedStays(b: Bindings, c: Bindings, user: User, access: seq<Grant>)
    requires NoNewObstacle(b, c, user) && EnsuredAll(b, user, access).Some?
    ensures EnsuredAll(c, user, access).Some? && NoNewObstacle(EnsuredAll(b, user, access).value, EnsuredAll(c, user, access).value, user)
  {
    if access != [] {
      AcceptedStays(b, c, user, access[..|access| - 1]);
    }
  }

  lemma OtherUsersAddNoObstacle(b: Bindings, other: User, user: User)
    requires other.name != user.name && Reconciled(b, other).Some?
    ensures NoNewObstacle(b, Reconciled(b, other).value, user)
  {
    var c := Reconciled(b, other).value;
    SuffixDecides(user.name, other.name);
    SuffixDecides(other.name, user.name);
    forall k | k in c && (k.name == user.name + "-shared" || k.name == user.name + "-personal")
      ensures k in b && b[k] == c[k]
    {
      if other.disabled {
        DisabledLeavesNone(b, other, k);
      } else {
        assert !Target(other, k);
        ReconciledAt(b, other, k);
      }
    }
  }

  /** Nor can another User's reconcile, enabled or disabled, make this one's fail where it would have succeeded. */
  lemma OtherUsersRefuseNothing(b: Bindings, other: User, user: User)
    requires other.name != user.name && Reconciled(b, other).Some? && Reconciled(b, user).Some?
    ensures Reconciled(Reconciled(b, other).value, user).Some?
  {
    var c := Reconciled(b, other).value;
    OtherUsersAddNoObstacle(b, other, user);
    if !user.disabled {
      var x := if HasPersonal(user) then Ensured(b, user, Personal(user), ClusterRole(Editor)) else Some(b);
      var y := if HasPersonal(user) then Ensured(c, user, Personal(user), ClusterRole(Editor)) else Some(c);
      assert y.Some? && NoNewObstacle(x.value, y.value, user);
      AcceptedStays(x.value, y.value, user, user.access);
    }
  }

  /** Cleanup goes by namespace only: another binding managed for the User survives exactly in the desired namespaces. */
  lemma CleanupIsPerNamespace(b: Bindings, user: User, k: Key)
    requires !user.disabled && Reconciled(b, user).Some? && k in b && b[k].managed && b[k].user == user.name
    requires !IsPersonalKey(user, k) && !IsSharedKey(user, k)
    ensures k in Reconciled(b, user).value <==> Wants(user, k.namespace)
  {
    GrantsExactly(b, user, k);
  }

  /** A disabled User keeps no managed binding, and nothing else is touched. */
  lemma DisabledLeavesNone(b: Bindings, user: User, k: Key)
    requires user.disabled
    ensures Reconciled(b, user).Some?
    ensures var r := Reconciled(b, user).value;
            if k in b && ManagedFor(b[k], user.name) then k !in r
            else (k in r <==> k in b) && (k in b ==> r[k] == b[k])
  {
  }

  /** No binding of this User, and nothing of anybody's under the names it will use. */
  ghost predicate Unused(b: Bindings, user: User) {
    && (forall k <- b :: !ManagedFor(b[k], user.name))
    && (forall k <- b :: !Target(user, k))
  }

  /** From an empty start, disabling removes exactly what enabling created, so enabling again restores the same bindings. */
  lemma DisableThenEnable(b: Bindings, user: User)
    requires !user.disabled && Unused(b, user) && Reconciled(b, user).Some?
    ensures var off := user.(disabled := true);
            var r := Reconciled(b, user).value;
            && Reconciled(r, off) == Some(b)
            && Reconciled(Reconciled(r, off).value, user) == Some(r)
  {
    var off := user.(disabled := true);
    var r := Reconciled(b, user).value;
    forall k
      ensures k in Cleaned(r, off) <==> k in b
      ensures k in b && k in Cleaned(r, off) ==> Cleaned(r, off)[k] == b[k]
    {
      ReconciledAt(b, user, k);
      DisabledLeavesNone(r, off, k);
    }
    assert Cleaned(r, off) == b;
  }

  /** An empty start is never refused. */
  lemma {:induction false} UnusedIsAccepted(b: Bindings, user: User, access: seq<Grant>)
    requires forall k <- b :: k.name == user.name + "-shared" ==> ManagedFor(b[k], user.name)
    ensures EnsuredAll(b, user, access).Some?
    ensures forall k <- EnsuredAll(b, user, access).value :: k.name == user.name + "-shared" ==>
              ManagedFor(EnsuredAll(b, user, access).value[k], user.name)
  {
    if access != [] {
      UnusedIsAccepted(b, user, access[..|access| - 1]);
    }
  }
}
