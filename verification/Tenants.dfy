/** Organizations over whole runs: who may change what, and who finds whom. */
module Tenants {
  import opened Wrappers
  import opened Environment
  import opened Naming
  import opened Tokens
  import opened Tables
  import opened Calls
  import opened Runs
  import opened Shapes
  import opened Frames
  import opened Accounts
  import Password

  /** The calls that change an organization named by its slug. */
  predicate Scoped(call: Call) {
    call.AddsMember? || call.ChangesRole? || call.CreatesKey? || call.RevokesKey?
  }

  function SlugOf(call: Call): string
    requires Scoped(call)
  {
    match call
    case AddsMember(_, i) => i.slug
    case ChangesRole(_, i) => i.slug
    case CreatesKey(_, i) => i.slug
    case RevokesKey(_, i) => i.slug
  }

  function Needed(call: Call): Permission
    requires Scoped(call)
  {
    if call.AddsMember? || call.ChangesRole? then MEMBERSHIP_WRITE else API_KEY_WRITE
  }

  /** Only rows of this organization differ, and the one new audit entry is its own. */
  ghost predicate OnlyIn(t: Tables, t': Tables, org: Id) {
    && t' == t.(members := t'.members, keys := t'.keys, prefixes := t'.prefixes, keyHashes := t'.keyHashes,
        audit := t'.audit)
    && (forall o, u :: o != org ==> ((o, u) in t'.members <==> (o, u) in t.members))
    && (forall o, u :: o != org && (o, u) in t.members ==> t'.members[(o, u)] == t.members[(o, u)])
    && (forall id :: id in t.keys && t.keys[id].org != org ==> id in t'.keys && t'.keys[id] == t.keys[id])
    && (forall id :: id in t'.keys && id !in t.keys ==> t'.keys[id].org == org)
    && (forall id :: id in t'.keys && id in t.keys ==> t'.keys[id].org == t.keys[id].org)
    && t'.audit != [] && t'.audit == t.audit + [Entry(t')] && Entry(t').org == Some(org)
  }

  /** Tenant frame: a committed call changes only the organization its slug names, and its caller
      holds the permission it needs there. */
  lemma TenantFrame(env: Env, t: Tables, call: Call) returns (org: Id)
    requires Scoped(call) && Effect(env, t, call).Some?
    ensures OrgBySlug(t, NormalizeSlug(env, SlugOf(call))) == Some(org)
    ensures org in call.p.permissions && Needed(call) in call.p.permissions[org]
    ensures OnlyIn(t, Effect(env, t, call).value, org)
  {
    hide AddMembership, UpdateMembership, Calls.CreateApiKey, Calls.RevokeApiKey, NormalizeSlug, NormalizeEmail,
        Scopes, RawKey, OnlyIn;
    match call
    case AddsMember(p, i) =>
      var o, user := AddShape(env, t, p, i);
      org := o;
      MemberOnlyIn(t, org, user, i.role, OrgAudit(org, p, MembershipCreate(i.role, t.users[user].email), user));
    case ChangesRole(p, i) =>
      var o, user := ChangeShape(env, t, p, i);
      org := o;
      MemberOnlyIn(t, org, user, i.role, OrgAudit(org, p, MembershipUpdateRole(i.role), user));
    case CreatesKey(p, i) =>
      var key := CreateKeyShape(env, t, p, i);
      org := key.org;
      NewKeyOnlyIn(t, p, i.id, key);
    case RevokesKey(p, i) =>
      var id := RevokeKeyShape(env, t, p, i);
      org := t.keys[id].org;
      RevokedOnlyIn(t, p, id);
  }

  lemma MemberOnlyIn(t: Tables, org: Id, user: Id, role: string, entry: Audit)
    requires entry.org == Some(org)
    ensures OnlyIn(t, t.(members := t.members[(org, user) := role], audit := t.audit + [entry]), org)
  {}

  lemma NewKeyOnlyIn(t: Tables, p: Principal, id: Id, key: ApiKey)
    requires id !in t.keys
    ensures OnlyIn(t, WithKey(t, p, id, key), key.org)
  {}

  lemma RevokedOnlyIn(t: Tables, p: Principal, id: Id)
    requires id in t.keys
    ensures OnlyIn(t, t.(keys := t.keys[id := t.keys[id].(revoked := true)],
                         audit := t.audit + [OrgAudit(t.keys[id].org, p, ApiKeyRevoke(t.keys[id].prefix), id)]),
                   t.keys[id].org)
  {}

  // Principals

  /** The permissions are one entry for each membership, with the role table's set, and there is one. */
  ghost predicate IsJoin(t: Tables, user: Id) {
    var roles := RolesOf(t, user);
    && (forall o :: o in roles <==> (o, user) in t.members)
    && (forall o :: o in roles ==> roles[o] == t.members[(o, user)] && ValidRole(roles[o]))
    && (forall o :: o in roles ==> ORGANIZATION_READ in RolePermissions(roles[o]))
    && (forall o :: o in PermissionsOf(roles) <==> o in roles)
    && (forall o :: o in roles ==> PermissionsOf(roles)[o] == RolePermissions(roles[o]))
    && roles != map[]
  }

  /** At every point of a history the principal of a user is the join of the memberships: it has an entry
      for exactly the organizations the user is a member of, each the role table's set for a role
      of that table, and there is at least one. */
  lemma PrincipalIsJoin(env: Env, run: seq<Call>, ts: seq<Tables>, k: nat, user: Id)
    requires History(env, run, ts) && k <= |run| && user in ts[k].users
    ensures IsJoin(ts[k], user)
  {
    hide IsJoin, Sound;
    AlwaysSound(env, run, ts, k);
    SoundMembers(ts[k], user);
    JoinOfMembers(ts[k], user);
  }

  lemma SoundMembers(t: Tables, user: Id)
    requires Sound(t) && user in t.users
    ensures MembersAgree(t.members, t.orgs.Keys, t.users.Keys) && Joined(t.members, user)
  {
    hide MembersAgree, Joined;
  }

  lemma JoinOfMembers(t: Tables, user: Id)
    requires MembersAgree(t.members, t.orgs.Keys, t.users.Keys) && Joined(t.members, user)
    ensures IsJoin(t, user)
  {
    hide ValidRole, RolePermissions;
    var o :| (o, user) in t.members;
    assert o in RolesOf(t, user);
    forall role | ValidRole(role) {
      EveryRoleReads(role);
    }
  }

  lemma EveryRoleReads(role: string)
    requires ValidRole(role)
    ensures ORGANIZATION_READ in RolePermissions(role)
  {}

  /** A user may change an organization only as its owner or one of its admins. */
  lemma OnlyOwnersAndAdmins(env: Env, t: Tables, user: Id, slug: string, permission: Permission)
    requires permission in {MEMBERSHIP_WRITE, API_KEY_WRITE}
    ensures
      var p := Principal(true, Some(user), None, PermissionsOf(RolesOf(t, user)));
      var r := Authorized(env, t, p, slug, permission);
      r.Ok? <==>
        exists org :: && OrgBySlug(t, NormalizeSlug(env, slug)) == Some(org)
                      && (org, user) in t.members && t.members[(org, user)] in {"owner", "admin"}
  {
    hide NormalizeSlug;
    var org := OrgBySlug(t, NormalizeSlug(env, slug));
    if org.Some? && (org.value, user) in t.members {
      WritersAreOwnersAndAdmins(t.members[(org.value, user)], permission);
    }
  }

  lemma WritersAreOwnersAndAdmins(role: string, permission: Permission)
    requires permission in {MEMBERSHIP_WRITE, API_KEY_WRITE}
    ensures permission in RolePermissions(role) <==> role in {"owner", "admin"}
  {}

  /** What the user may do where, once the principal is built anew. */
  function Powers(t: Tables, user: Id): map<Id, set<Permission>> {
    PermissionsOf(RolesOf(t, user))
  }

  lemma RolesWritten(t: Tables, t': Tables, org: Id, user: Id, role: string, u: Id)
    requires t'.members == t.members[(org, user) := role]
    requires org in t'.orgs && forall o :: (o, u) in t.members ==> (o in t'.orgs <==> o in t.orgs)
    ensures RolesOf(t', u) == if u == user then RolesOf(t, u)[org := role] else RolesOf(t, u)
  {
    var l, r := RolesOf(t', u), if u == user then RolesOf(t, u)[org := role] else RolesOf(t, u);
    forall o: Id ensures o in l <==> o in r {
      assert (o, u) in t'.members <==> (o, u) in t.members || (o == org && u == user);
    }
    forall o | o in l ensures l[o] == r[o] {
      assert (o, u) in t'.members;
    }
  }

  lemma PermissionsWritten(roles: map<Id, string>, org: Id, role: string)
    ensures PermissionsOf(roles[org := role]) == PermissionsOf(roles)[org := RolePermissions(role)]
  {
    hide RolePermissions;
  }

  /** Writing one membership changes one user's powers in one organization. */
  lemma RoleWritten(t: Tables, t': Tables, org: Id, user: Id, role: string)
    requires t'.members == t.members[(org, user) := role]
    requires org in t'.orgs && forall o, u :: (o, u) in t.members ==> (o in t'.orgs <==> o in t.orgs)
    ensures Powers(t', user) == Powers(t, user)[org := RolePermissions(role)]
    ensures forall u :: u != user ==> Powers(t', u) == Powers(t, u)
  {
    hide RolePermissions, RolesOf, PermissionsOf;
    PermissionsWritten(RolesOf(t, user), org, role);
    forall u ensures RolesOf(t', u) == if u == user then RolesOf(t, u)[org := role] else RolesOf(t, u) {
      RolesWritten(t, t', org, user, role, u);
    }
  }

  /** A committed AddMembership gives the user with that address, who had no powers in the organization
      before, exactly those of the role; UpdateMembership replaces a member's powers by those of the
      new role. No other user's powers change, nor this user's anywhere else. */
  lemma RoleTakesEffect(env: Env, t: Tables, call: Call) returns (org: Id, user: Id)
    requires (call.AddsMember? || call.ChangesRole?) && Effect(env, t, call).Some?
    ensures OrgBySlug(t, NormalizeSlug(env, SlugOf(call))) == Some(org)
    ensures call.AddsMember? ==>
              UserByEmail(t, NormalizeEmail(env, call.add.email)) == Some(user) && org !in Powers(t, user)
    ensures call.ChangesRole? ==> call.update.user == Some(user) && org in Powers(t, user)
    ensures
      var t', role := Effect(env, t, call).value, if call.AddsMember? then call.add.role else call.update.role;
      && Powers(t', user) == Powers(t, user)[org := RolePermissions(role)]
      && forall u :: u != user ==> Powers(t', u) == Powers(t, u)
  {
    hide AddMembership, UpdateMembership, NormalizeSlug, NormalizeEmail, RolePermissions;
    var t' := Effect(env, t, call).value;
    match call
    case AddsMember(p, i) =>
      org, user := AddShape(env, t, p, i);
      RoleWritten(t, t', org, user, i.role);
    case ChangesRole(p, i) =>
      org, user := ChangeShape(env, t, p, i);
      RoleWritten(t, t', org, user, i.role);
  }

  /** A registration makes its user the owner of its new organization, a member of no other, and nobody
      else anything there. */
  lemma OwnerTakesEffect(env: Env, run: seq<Call>, ts: seq<Tables>, k: nat)
    requires History(env, run, ts) && k < |run| && run[k].Registers?
    ensures Powers(ts[k + 1], run[k].register.user) == map[run[k].register.org := RolePermissions("owner")]
    ensures forall u :: u != run[k].register.user ==> Powers(ts[k + 1], u) == Powers(ts[k], u)
  {
    hide Effect, Sound, Powers, RolePermissions;
    At(env, run, ts, k);
    AlwaysSound(env, run, ts, k);
    SoundMemberships(ts[k]);
    OwnerWritten(env, ts[k], run[k]);
  }

  lemma SoundMemberships(t: Tables)
    requires Sound(t)
    ensures MembersAgree(t.members, t.orgs.Keys, t.users.Keys)
  {
    hide MembersAgree;
  }

  lemma OwnerWritten(env: Env, t: Tables, call: Call)
    requires MembersAgree(t.members, t.orgs.Keys, t.users.Keys) && call.Registers? && Effect(env, t, call).Some?
    ensures
      var t', i := Effect(env, t, call).value, call.register;
      && Powers(t', i.user) == map[i.org := RolePermissions("owner")]
      && forall u :: u != i.user ==> Powers(t', u) == Powers(t, u)
  {
    hide Register, Enroll, RolePermissions, RolesOf, PermissionsOf, NormalizeEmail, NormalizeSlug,
        Password.HashPassword;
    var i := call.register;
    var email, slug, hash := RegisterShape(env, t, i);
    var t' := Register(env, t, i).value.0;
    RoleWritten(t, t', i.org, i.user, "owner");
    NoPowersYet(t, i.user);
  }

  lemma NoPowersYet(t: Tables, user: Id)
    requires MembersAgree(t.members, t.orgs.Keys, t.users.Keys) && user !in t.users
    ensures Powers(t, user) == map[]
  {
    hide RolePermissions;
    forall o ensures (o, user) !in t.members {}
  }

  // Names

  /** Every spelling that normalizes to an organization's slug finds it, no other does, and the
      stored slug is valid and its own normal form. */
  lemma AnySpellingFinds(env: Env, run: seq<Call>, ts: seq<Tables>, k: nat, org: Id, spelling: string)
    requires env.CaseMapping() && History(env, run, ts) && k <= |run| && org in ts[k].orgs
    ensures
      var t := ts[k];
      && (OrgBySlug(t, NormalizeSlug(env, spelling)) == Some(org) <==> NormalizeSlug(env, spelling) == t.orgs[org])
      && ValidSlug(t.orgs[org]) && NormalizeSlug(env, t.orgs[org]) == t.orgs[org]
  {
    hide NormalizeSlug, ValidSlug;
    AlwaysSound(env, run, ts, k);
    ValidSlugIsNormal(env, ts[k].orgs[org]);
  }

  /** The account a registration made is found under its address by every later call, with the record
      of its own password. */
  lemma RegisteredAccount(env: Env, run: seq<Call>, ts: seq<Tables>, n: nat, k: nat)
    requires History(env, run, ts) && n < k <= |run| && run[n].Registers?
    ensures
      var t, i := ts[k], run[n].register;
      && UserByEmail(t, NormalizeEmail(env, i.email)) == Some(i.user)
      && t.users[i.user].passwordHash == Password.HashPassword(env, i.password, i.salt)
      && env.validEmail(NormalizeEmail(env, i.email))
  {
    hide Effect, NormalizeEmail, Password.HashPassword;
    At(env, run, ts, n);
    AccountCreated(env, ts[n], run[n]);
    AccountsLast(env, run, ts, n + 1, k);
    AlwaysSound(env, run, ts, k);
  }

  lemma AccountCreated(env: Env, t: Tables, call: Call)
    requires Effect(env, t, call).Some? && call.Registers?
    ensures
      var users, i := Effect(env, t, call).value.users, call.register;
      && i.user in users
      && users[i.user].email == NormalizeEmail(env, i.email)
      && users[i.user].passwordHash == Password.HashPassword(env, i.password, i.salt)
      && env.validEmail(NormalizeEmail(env, i.email))
  {
    hide Register, Enroll, NormalizeEmail, NormalizeSlug, Password.HashPassword;
    var email, slug, hash := RegisterShape(env, t, call.register);
  }

  /** Logging in to a registered account, at any later point of the run and under any spelling of its
      address: another password is refused, and with its own password, or one with the same Argon2
      output, only the TOTP check and the session's constraints remain. */
  lemma LoginToAccount(env: Env, run: seq<Call>, ts: seq<Tables>, n: nat, k: nat, i: LoginIn)
    requires env.ArgonLength() && !env.validEmail("")
    requires History(env, run, ts) && n < k <= |run| && run[n].Registers?
    requires i.password != [] && NormalizeEmail(env, i.email) == NormalizeEmail(env, run[n].register.email)
    ensures
      var t, account := ts[k], run[n].register;
      var r := Login(env, t, i);
      var own := Password.SameOutput(env, i.password, account.password, account.salt);
      && (!own ==> r == Err(InvalidCredentials))
      && (own ==>
            match TotpCheck(env, t, account.user, i.code, i.now)
            case Some(e) => r == Err(e)
            case None => if CanIssue(env, t, account.user, i.session)
                         then r.Ok? && r.value.1 == SessionOf(env, t, account.user, i.session)
                         else r == Err(Internal))
  {
    hide NormalizeEmail, Password.HashPassword, Password.VerifyPassword, TotpCheck;
    RegisteredAccount(env, run, ts, n, k);
    var account := run[n].register;
    Password.VerifyHashed(env, account.password, account.salt, i.password);
  }
}
