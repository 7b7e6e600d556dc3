/** The calls on an organization, at any point of a history: exactly when they succeed, what they then
    write, and that an owner is never turned away without one of these reasons. */
module Admission {
  import opened Wrappers
  import opened Text
  import opened Environment
  import opened Naming
  import opened Tokens
  import opened Tables
  import opened Calls
  import opened Runs
  import opened Shapes
  import opened Accounts
  import opened Tenants
  import KeyLife
  import Authority

  /** The user or key an audit entry would name exists. */
  predicate KnownActor(t: Tables, p: Principal) {
    && (p.user.Some? ==> p.user.value in t.users)
    && (p.key.Some? ==> p.key.value in t.keys)
  }

  /** Why a caller is turned away from an organization: no such organization or nothing to do with it, or not
      allowed to do this there. */
  function Refusal(org: Option<Id>, p: Principal, permission: string): Option<Error> {
    if org.None? || org.value !in p.permissions then Some(Unauthorized)
    else if permission !in p.permissions[org.value] then Some(PermissionDenied)
    else None
  }

  /** A principal built from the tables as they are is always a known actor. */
  lemma GenuineIsKnown(env: Env, run: seq<Call>, ts: seq<Tables>, k: nat, p: Principal)
    requires History(env, run, ts) && k <= |run| && Authority.Genuine(env, ts[k], p)
    ensures KnownActor(ts[k], p)
  {
    hide Powers, KeyPrefix;
  }

  lemma FoundAccount(t: Tables, email: string)
    requires Sound(t) && UserByEmail(t, email).Some?
    ensures t.users[UserByEmail(t, email).value].email == email
  {
    hide HandlesAgree, SlugsAgree, TokensAgree, KeysAgree, MembersAgree, NobodyAlone, KeyHashesAgree,
        References.Referential;
  }

  // Memberships

  /** AddMembership in full. */
  lemma AddExactly(env: Env, run: seq<Call>, ts: seq<Tables>, k: nat, p: Principal, i: AddIn)
    requires History(env, run, ts) && k <= |run|
    ensures
      var t, r := ts[k], AddMembership(env, ts[k], p, i);
      var email := NormalizeEmail(env, i.email);
      var org, user := OrgBySlug(t, NormalizeSlug(env, i.slug)), UserByEmail(t, email);
      var refusal := Refusal(org, p, "membership:write");
      if refusal.Some? then r == Err(refusal.value)
      else if !env.validEmail(email) || i.role !in ["owner", "admin", "operator", "viewer", "billing"] || user.None?
      then r == Err(InvalidInput)
      else if (org.value, user.value) in t.members then r == Err(MembershipExists)
      else if !KnownActor(t, p) then r == Err(Internal)
      else r == Ok((t.(members := t.members[(org.value, user.value) := i.role],
                       audit := t.audit + [Audit(Some(org.value), if p.isUser then "user" else "api_key", p.user, p.key,
                                                 MembershipCreate(i.role, email), user.value)]),
                    user.value in t.totp && t.totp[user.value].enabled))
  {
    hide Effect, Sound, NormalizeEmail, NormalizeSlug;
    AlwaysSound(env, run, ts, k);
    if UserByEmail(ts[k], NormalizeEmail(env, i.email)).Some? {
      FoundAccount(ts[k], NormalizeEmail(env, i.email));
    }
  }

  /** UpdateMembership in full: whoever is not a member there is answered like a stranger. */
  lemma UpdateExactly(env: Env, run: seq<Call>, ts: seq<Tables>, k: nat, p: Principal, i: UpdateIn)
    requires History(env, run, ts) && k <= |run|
    ensures
      var t, r := ts[k], UpdateMembership(env, ts[k], p, i);
      var org := OrgBySlug(t, NormalizeSlug(env, i.slug));
      var refusal := Refusal(org, p, "membership:write");
      if refusal.Some? then r == Err(refusal.value)
      else if i.role !in ["owner", "admin", "operator", "viewer", "billing"] || i.user.None? then r == Err(InvalidInput)
      else if (org.value, i.user.value) !in t.members then r == Err(Unauthorized)
      else if !KnownActor(t, p) then r == Err(Internal)
      else r == Ok((t.(members := t.members[(org.value, i.user.value) := i.role],
                       audit := t.audit + [Audit(Some(org.value), if p.isUser then "user" else "api_key", p.user, p.key,
                                                 MembershipUpdateRole(i.role), i.user.value)]),
                    i.user.value in t.totp && t.totp[i.user.value].enabled))
  {
    hide Effect, Sound, NormalizeSlug;
    AlwaysSound(env, run, ts, k);
    SoundMemberships(ts[k]);
  }

  // API keys

  /** A new key must not repeat an identifier, a prefix an earlier creation drew, or a stored hash. */
  ghost predicate NewKey(env: Env, run: seq<Call>, k: nat, t: Tables, i: CreateKeyIn) {
    && i.id !in t.keys
    && (forall n :: 0 <= n < k && n < |run| && run[n].CreatesKey? ==> run[n].create.prefix != i.prefix)
    && env.secretHash(RawKey(i.prefix, i.secret)) !in t.keyHashes
  }

  /** CreateAPIKey in full. The text it answers with is the one whose hash it stores. */
  lemma CreateExactly(env: Env, run: seq<Call>, ts: seq<Tables>, k: nat, p: Principal, i: CreateKeyIn)
    requires History(env, run, ts) && k <= |run|
    ensures
      var t, r := ts[k], Calls.CreateApiKey(env, ts[k], p, i);
      var org := OrgBySlug(t, NormalizeSlug(env, i.slug));
      var refusal, scopes := Refusal(org, p, "api_key:write"), Scopes(i.scopes);
      if refusal.Some? then r == Err(refusal.value)
      else if scopes.Err? || TrimSpace(i.name) == "" then r == Err(InvalidInput)
      else if !NewKey(env, run, k, t, i) || (p.user.Some? && p.user.value !in t.users) then r == Err(Internal)
      else
        var raw := "duk" + "_" + (Hex(i.prefix) + "_" + Hex(i.secret));
        var name, prefix, hash := TrimSpace(i.name), Hex(i.prefix), env.secretHash(raw);
        var key := ApiKey(org.value, p.user, name, prefix, hash, scopes.value, false);
        r == Ok((t.(keys := t.keys[i.id := key],
                    prefixes := t.prefixes[prefix := i.id],
                    keyHashes := t.keyHashes + {hash},
                    audit := t.audit + [Audit(Some(org.value), if p.isUser then "user" else "api_key", p.user, None,
                                              ApiKeyCreate(name, scopes.value, prefix), i.id)]),
                 raw))
  {
    hide Effect, NormalizeSlug, Scopes, TrimSpace, Hex;
    KeyLife.PrefixTaken(env, run, ts, k, i.prefix);
    if Scopes(i.scopes).Err? {
      ScopesExactly(i.scopes);
    }
  }

  /** RevokeAPIKey in full: whoever created it, a key is revoked by a caller allowed to in its own organization, and
      only once. */
  lemma RevokeExactly(env: Env, run: seq<Call>, ts: seq<Tables>, k: nat, p: Principal, i: RevokeKeyIn)
    requires History(env, run, ts) && k <= |run|
    ensures
      var t, r := ts[k], Calls.RevokeApiKey(env, ts[k], p, i);
      var org := OrgBySlug(t, NormalizeSlug(env, i.slug));
      var refusal := Refusal(org, p, "api_key:write");
      if refusal.Some? then r == Err(refusal.value)
      else if i.key.None? then r == Err(InvalidInput)
      else if !KeyLife.Created(run[..k], i.key.value) || KeyLife.Revoked(run[..k], i.key.value)
      then r == Err(Unauthorized)
      else
        i.key.value in t.keys &&
        var key := t.keys[i.key.value];
        if key.org != org.value then r == Err(Unauthorized)
        else if !KnownActor(t, p) then r == Err(Internal)
        else r == Ok((t.(keys := t.keys[i.key.value :=
                           ApiKey(key.org, key.createdBy, key.name, key.prefix, key.hash, key.scopes, true)],
                         audit := t.audit + [Audit(Some(org.value), if p.isUser then "user" else "api_key", p.user,
                                                   p.key, ApiKeyRevoke(key.prefix), i.key.value)]),
                      i.key.value))
  {
    hide Effect, NormalizeSlug, KeyLife.Created, KeyLife.Revoked, KeyLife.RowsKnown;
    KeyLife.KeysAlwaysKnown(env, run, ts, k);
  }

  // Owners get in

  /** What an access token of the user stands for now. */
  ghost function UserPrincipal(t: Tables, user: Id): Principal {
    Principal(true, Some(user), None, Powers(t, user))
  }

  /** The user may change this organization. */
  predicate Manages(t: Tables, org: Id, user: Id) {
    (org, user) in t.members && (t.members[(org, user)] == "owner" || t.members[(org, user)] == "admin")
  }

  lemma ManagersMay(t: Tables, org: Id, user: Id, permission: string)
    requires Sound(t) && Manages(t, org, user) && permission in ["membership:write", "api_key:write"]
    ensures Refusal(Some(org), UserPrincipal(t, user), permission).None? && KnownActor(t, UserPrincipal(t, user))
    ensures org in t.orgs
  {
    hide Sound, RolePermissions;
    SoundMemberships(t);
    RoleTable(t.members[(org, user)], permission);
  }

  lemma RegisteredOrg(env: Env, run: seq<Call>, ts: seq<Tables>, n: nat, k: nat)
    requires History(env, run, ts) && n < k <= |run| && run[n].Registers?
    ensures OrgBySlug(ts[k], NormalizeSlug(env, run[n].register.slug)) == Some(run[n].register.org)
  {
    hide Effect, NormalizeSlug, OrgBySlug;
    At(env, run, ts, n);
    OrgCreated(env, ts[n], run[n]);
    Authority.SlugsStay(env, run, ts, n + 1, k);
    Authority.SameHome(ts[n + 1], ts[k], NormalizeSlug(env, run[n].register.slug));
  }

  lemma OrgCreated(env: Env, t: Tables, call: Call)
    requires call.Registers? && Effect(env, t, call).Some?
    ensures OrgBySlug(Effect(env, t, call).value, NormalizeSlug(env, call.register.slug)) == Some(call.register.org)
  {
    hide Register, Enroll, NormalizeEmail, NormalizeSlug;
    var email, slug, hash := RegisterShape(env, t, call.register);
  }

  /** An owner or admin of the organization registered by call n adds the account registered by call m, under any
      spelling of the slug and the address and with any of the five roles, unless it is a member already;
      the account then has that role's permissions there. */
  lemma OwnerAdmits(env: Env, run: seq<Call>, ts: seq<Tables>, n: nat, m: nat, k: nat, owner: Id, i: AddIn)
    requires History(env, run, ts) && n < k <= |run| && m < k && run[n].Registers? && run[m].Registers?
    requires Manages(ts[k], run[n].register.org, owner)
    requires NormalizeSlug(env, i.slug) == NormalizeSlug(env, run[n].register.slug)
    requires NormalizeEmail(env, i.email) == NormalizeEmail(env, run[m].register.email)
    requires i.role in ["owner", "admin", "operator", "viewer", "billing"]
    ensures
      var t, org, user := ts[k], run[n].register.org, run[m].register.user;
      var r := AddMembership(env, t, UserPrincipal(t, owner), i);
      if (org, user) in t.members then r == Err(MembershipExists)
      else
        && r.Ok? && r.value.0.members == t.members[(org, user) := i.role]
        && org in Powers(r.value.0, user) && Powers(r.value.0, user)[org] == RolePermissions(i.role)
  {
    hide Effect, Sound, NormalizeEmail, NormalizeSlug, RolePermissions, AddMembership, UserPrincipal, Manages,
        OrgBySlug, UserByEmail, Powers, Refusal;
    var t, org, user := ts[k], run[n].register.org, run[m].register.user;
    var p := UserPrincipal(t, owner);
    AlwaysSound(env, run, ts, k);
    ManagersMay(t, org, owner, "membership:write");
    RegisteredOrg(env, run, ts, n, k);
    RegisteredAccount(env, run, ts, m, k);
    AddExactly(env, run, ts, k, p, i);
    if (org, user) !in t.members {
      RoleWritten(t, AddMembership(env, t, p, i).value.0, org, user, i.role);
    }
  }

  /** One more call after the first k of a history. */
  lemma Extended(env: Env, run: seq<Call>, ts: seq<Tables>, k: nat, call: Call)
    returns (run': seq<Call>, ts': seq<Tables>)
    requires History(env, run, ts) && k <= |run| && Effect(env, ts[k], call).Some?
    ensures run' == run[..k] + [call] && ts' == ts[..k + 1] + [Effect(env, ts[k], call).value]
    ensures History(env, run', ts')
  {
    hide Effect;
    var before, states := run[..k], ts[..k + 1];
    forall m | 0 <= m < k ensures Leads(env, before, states, m) {
      assert Leads(env, run, ts, m);
    }
    run', ts' := before + [call], states + [Effect(env, ts[k], call).value];
    Longer(env, before, states, call, Effect(env, ts[k], call).value);
  }

  /** An owner or admin of the organization creates a key with any accepted scopes and a name that is not blank; the
      text of the answer authenticates at once, for this organization alone and with just these scopes. */
  lemma OwnerCreates(env: Env, run: seq<Call>, ts: seq<Tables>, k: nat, org: Id, owner: Id, i: CreateKeyIn)
    requires History(env, run, ts) && k <= |run|
    requires OrgBySlug(ts[k], NormalizeSlug(env, i.slug)) == Some(org) && Manages(ts[k], org, owner)
    requires Scopes(i.scopes).Ok? && TrimSpace(i.name) != "" && NewKey(env, run, k, ts[k], i)
    ensures
      var r := Calls.CreateApiKey(env, ts[k], UserPrincipal(ts[k], owner), i);
      && r.Ok?
      && AuthenticateApiKey(env, r.value.0, r.value.1) ==
         Ok(Principal(false, None, Some(i.id), map[org := set s | s in Scopes(i.scopes).value]))
  {
    hide Effect, Sound, NormalizeSlug, Calls.CreateApiKey, UserPrincipal, Manages, OrgBySlug, Refusal, Scopes, Hex,
        NewKey, TrimSpace, AuthenticateApiKey;
    var p := UserPrincipal(ts[k], owner);
    AlwaysSound(env, run, ts, k);
    ManagersMay(ts[k], org, owner, "api_key:write");
    CreateExactly(env, run, ts, k, p, i);
    CreatedWorks(env, run, ts, k, p, i, org);
  }

  lemma CreatedWorks(env: Env, run: seq<Call>, ts: seq<Tables>, k: nat, p: Principal, i: CreateKeyIn, org: Id)
    requires History(env, run, ts) && k <= |run| && Calls.CreateApiKey(env, ts[k], p, i).Ok? && Scopes(i.scopes).Ok?
    requires OrgBySlug(ts[k], NormalizeSlug(env, i.slug)) == Some(org)
    ensures
      var (t', raw) := Calls.CreateApiKey(env, ts[k], p, i).value;
      AuthenticateApiKey(env, t', raw) ==
      Ok(Principal(false, None, Some(i.id), map[org := set s | s in Scopes(i.scopes).value]))
  {
    hide Calls.CreateApiKey, RawKey, AuthenticateApiKey, NormalizeSlug, Scopes, OrgBySlug, KeyLife.Revoked;
    var run', ts' := Extended(env, run, ts, k, CreatesKey(p, i));
    var key := CreateKeyShape(env, ts[k], p, i);
    KeyLife.KeyWorks(env, run', ts', k, k + 1);
    assert run'[..k + 1] == run[..k] + [CreatesKey(p, i)];
    KeyLife.HistorySnoc(run[..k], CreatesKey(p, i), i.id);
    NeverRevoked(env, run, ts, k, i.id);
    KeyLife.SlugsLast(env, ts[k], CreatesKey(p, i));
    Authority.SameHome(ts[k], ts'[k + 1], NormalizeSlug(env, i.slug));
  }

  lemma NeverRevoked(env: Env, run: seq<Call>, ts: seq<Tables>, k: nat, id: Id)
    requires History(env, run, ts) && k <= |run|
    ensures id !in ts[k].keys ==> !KeyLife.Revoked(run[..k], id)
  {
    hide Effect, KeyLife.RowsKnown, KeyLife.Created, KeyLife.Revoked;
    KeyLife.KeysAlwaysKnown(env, run, ts, k);
  }

  /** An owner or admin of the organization revokes any of its keys, whoever created it, and from then on the key's
      text does not authenticate. */
  lemma OwnerRevokes(env: Env, run: seq<Call>, ts: seq<Tables>, n: nat, k: nat, org: Id, owner: Id, i: RevokeKeyIn)
    requires History(env, run, ts) && n < k <= |run| && run[n].CreatesKey? && i.key == Some(run[n].create.id)
    requires OrgBySlug(ts[k], NormalizeSlug(env, run[n].create.slug)) == Some(org) && Manages(ts[k], org, owner)
    requires NormalizeSlug(env, i.slug) == NormalizeSlug(env, run[n].create.slug)
    ensures
      var t, id := ts[k], run[n].create.id;
      var r := Calls.RevokeApiKey(env, t, UserPrincipal(t, owner), i);
      if KeyLife.Revoked(run[..k], id) then r == Err(Unauthorized)
      else
        && r.Ok? && r.value.1 == id
        && AuthenticateApiKey(env, r.value.0, KeyLife.KeyText(run[n].create)) == Err(ApiKeyInvalid)
  {
    hide Effect, Sound, NormalizeSlug, Calls.RevokeApiKey, UserPrincipal, Manages, OrgBySlug, Refusal, RawKey,
        KeyLife.Revoked, KeyLife.KeyFrom, AuthenticateApiKey;
    var t, id := ts[k], run[n].create.id;
    var p := UserPrincipal(t, owner);
    AlwaysSound(env, run, ts, k);
    ManagersMay(t, org, owner, "api_key:write");
    KeyLife.KeysAlwaysKnown(env, run, ts, k);
    KeyLife.KnownRow(env, run[..k], t, n);
    assert KeyLife.Creates(run[..k], n, id);
    RevokeExactly(env, run, ts, k, p, i);
    var r := Calls.RevokeApiKey(env, t, p, i);
    if r.Ok? {
      RevokedIsDead(env, run, ts, n, k, p, i);
    }
  }

  lemma RevokedIsDead(env: Env, run: seq<Call>, ts: seq<Tables>, n: nat, k: nat, p: Principal, i: RevokeKeyIn)
    requires History(env, run, ts) && n < k <= |run| && run[n].CreatesKey? && i.key == Some(run[n].create.id)
    requires Calls.RevokeApiKey(env, ts[k], p, i).Ok?
    ensures AuthenticateApiKey(env, Calls.RevokeApiKey(env, ts[k], p, i).value.0, KeyLife.KeyText(run[n].create)) ==
            Err(ApiKeyInvalid)
  {
    hide Calls.RevokeApiKey, RawKey, AuthenticateApiKey, NormalizeSlug, Scopes;
    var run', ts' := Extended(env, run, ts, k, RevokesKey(p, i));
    assert KeyLife.Revokes(run'[..k + 1], k, run[n].create.id);
    KeyLife.KeyWorks(env, run', ts', n, k + 1);
  }
}
