/** What the constraints of the schema add up to over whole runs: every index agrees with its
    table, every reference points to a row, accounts are never changed or lost. */
module Accounts {
  import opened Wrappers
  import opened Text
  import opened Environment
  import opened Naming
  import opened Tokens
  import opened Tables
  import opened Calls
  import opened Ceremonies
  import opened Runs
  import opened Shapes
  import opened Frames
  import opened References
  import Password

  // Users

  /** Every user of t is still there, with the same e-mail address and password record, and with
      the same handle once it has one. */
  ghost predicate Kept(users: map<Id, User>, users': map<Id, User>) {
    forall u :: u in users ==>
      && u in users'
      && users'[u].email == users[u].email
      && users'[u].passwordHash == users[u].passwordHash
      && (users[u].handle != [] ==> users'[u].handle == users[u].handle)
  }

  predicate SetsHandle(
    users: map<Id, User>, handles: set<seq<byte>>, users': map<Id, User>, handles': set<seq<byte>>, u: Id, h: Handle)
  {
    && u in users && users[u].handle == [] && h !in handles
    && users' == users[u := users[u].(handle := h)]
    && handles' == handles - {[]} + {h}
  }

  /** What a call other than a registration does to the users: at most one handle that was unset. */
  ghost predicate HandleOnly(users: map<Id, User>, handles: set<seq<byte>>, users': map<Id, User>,
      handles': set<seq<byte>>) {
    || (users' == users && handles' == handles)
    || exists u: Id, h: Handle :: SetsHandle(users, handles, users', handles', u, h)
  }

  lemma Handled(t: Tables, user: Id, handle: Handle)
    requires WithHandle(t, user, handle).Some?
    ensures var t' := WithHandle(t, user, handle).value; HandleOnly(t.users, t.handles, t'.users, t'.handles)
  {
    var t' := WithHandle(t, user, handle).value;
    if t.users[user].handle == [] {
      assert SetsHandle(t.users, t.handles, t'.users, t'.handles, user, handle);
    }
  }

  lemma CeremonyHandles(env: Env, t: Tables, call: Call)
    requires IsCeremony(call) && Effect(env, t, call).Some?
    ensures var t' := Effect(env, t, call).value; HandleOnly(t.users, t.handles, t'.users, t'.handles)
  {
    hide HandleOnly, WithHandle, BeginRegistration, FinishRegistration, BeginLogin, FinishLogin, Validated, Planted;
    match call
    case BeginsRegistration(p, i) =>
      var user, c := BeginRegistrationShape(env, t, p, i);
      Handled(t, user, i.handle);
    case FinishesRegistration(p, i) =>
      var user, ceremony, c := FinishRegistrationShape(env, t, p, i);
      Handled(t, user, i.handle);
    case PlantsHandle(email, handle) =>
      PlantShape(env, t, email, handle);
      if Planted(env, t, email, handle) == t {
        HandleUntouched(t.users, t.handles);
      } else {
        var user :| WithHandle(t, user, handle) == Some(Planted(env, t, email, handle));
        Handled(t, user, handle);
      }
    case BeginsLogin(email, i) =>
      var user, c := BeginLoginShape(env, t, email, i);
      Handled(t, user, i.handle);
    case FinishesLogin(i) =>
      var user, ceremony, cs := FinishLoginShape(env, t, i);
      Handled(t, user, i.handle);
      var user', c, row := ValidatedShape(env, WithHandle(t, user, i.handle).value, ceremony, cs, i);
  }

  lemma HandleUntouched(users: map<Id, User>, handles: set<seq<byte>>)
    ensures HandleOnly(users, handles, users, handles)
  {}

  /** Any call but a registration leaves the accounts as they are. */
  lemma Handles(env: Env, t: Tables, call: Call)
    requires Effect(env, t, call).Some? && !call.Registers?
    ensures var t' := Effect(env, t, call).value; HandleOnly(t.users, t.handles, t'.users, t'.handles)
  {
    hide Effect;
    if IsCeremony(call) {
      CeremonyHandles(env, t, call);
    } else {
      Frame(env, t, call);
    }
  }

  // The invariant, one table and its index at a time

  ghost predicate UsersAgree(users: map<Id, User>, emails: map<string, Id>) {
    && (forall u :: u in users ==> users[u].email in emails && emails[users[u].email] == u)
    && (forall e :: e in emails ==> emails[e] in users && users[emails[e]].email == e)
  }

  ghost predicate HasHandle(users: map<Id, User>, h: seq<byte>) {
    exists u :: u in users && users[u].handle == h
  }

  /** The handles are those of the users that have one, and no two users share one. */
  ghost predicate HandlesAgree(users: map<Id, User>, handles: set<seq<byte>>) {
    && (forall u :: u in users && users[u].handle != [] ==> users[u].handle in handles)
    && (forall h :: h in handles ==> h != [] && HasHandle(users, h))
    && (forall u, v :: u in users && v in users && u != v && users[u].handle != [] ==>
        users[u].handle != users[v].handle)
  }

  /** Stored slugs are valid and found under themselves. */
  ghost predicate SlugsAgree(orgs: map<Id, string>, slugs: map<string, Id>) {
    && (forall o :: o in orgs ==> ValidSlug(orgs[o]) && orgs[o] in slugs && slugs[orgs[o]] == o)
    && (forall s :: s in slugs ==> slugs[s] in orgs && orgs[slugs[s]] == s)
  }

  ghost predicate TokensAgree(tokens: Table, hashes: map<string, Id>, users: set<Id>) {
    && (forall id :: id in tokens ==> tokens[id].hash in hashes && hashes[tokens[id].hash] == id)
    && (forall id :: id in tokens ==> tokens[id].user in users)
    && (forall h :: h in hashes ==> hashes[h] in tokens && tokens[hashes[h]].hash == h)
    && (forall id :: id in tokens && tokens[id].replacedBy.Some? ==> tokens[id].replacedBy.value in tokens)
  }

  ghost predicate KeysAgree(keys: map<Id, ApiKey>, prefixes: map<string, Id>, orgs: set<Id>) {
    && (forall id :: id in keys ==> keys[id].prefix in prefixes && prefixes[keys[id].prefix] == id)
    && (forall id :: id in keys ==> keys[id].org in orgs)
    && (forall p :: p in prefixes ==> prefixes[p] in keys && keys[prefixes[p]].prefix == p)
  }

  ghost predicate HasKeyHash(keys: map<Id, ApiKey>, hash: string) {
    exists id :: id in keys && keys[id].hash == hash
  }

  /** The key hashes are those of the keys, no two keys share one, and creators exist. */
  ghost predicate KeyHashesAgree(keys: map<Id, ApiKey>, hashes: set<string>, users: set<Id>) {
    && (forall id :: id in keys ==> keys[id].hash in hashes)
    && (forall a, b :: a in keys && b in keys && a != b ==> keys[a].hash != keys[b].hash)
    && (forall h :: h in hashes ==> HasKeyHash(keys, h))
    && (forall id :: id in keys && keys[id].createdBy.Some? ==> keys[id].createdBy.value in users)
  }

  /** Memberships join users and organizations and hold valid roles. */
  ghost predicate MembersAgree(members: map<(Id, Id), string>, orgs: set<Id>, users: set<Id>) {
    forall o, u :: (o, u) in members ==> o in orgs && u in users && ValidRole(members[(o, u)])
  }

  ghost predicate Joined(members: map<(Id, Id), string>, user: Id) {
    exists o :: (o, user) in members
  }

  ghost predicate Peopled(members: map<(Id, Id), string>, org: Id) {
    exists u :: (org, u) in members
  }

  /** Nobody is left out. */
  ghost predicate NobodyAlone(members: map<(Id, Id), string>, orgs: set<Id>, users: set<Id>) {
    && (forall u :: u in users ==> Joined(members, u))
    && (forall o :: o in orgs ==> Peopled(members, o))
  }

  ghost predicate Agreed(t: Tables) {
    && UsersAgree(t.users, t.emails)
    && HandlesAgree(t.users, t.handles)
    && SlugsAgree(t.orgs, t.slugs)
    && TokensAgree(t.tokens, t.tokenHashes, t.users.Keys)
    && KeysAgree(t.keys, t.prefixes, t.orgs.Keys)
    && MembersAgree(t.members, t.orgs.Keys, t.users.Keys)
    && NobodyAlone(t.members, t.orgs.Keys, t.users.Keys)
  }

  /** All of the schema: every unique column agrees with its index in both directions, every value is one the
      checks allow, every reference names a row, and nobody is left out. */
  ghost predicate Sound(t: Tables) {
    Agreed(t) && KeyHashesAgree(t.keys, t.keyHashes, t.users.Keys) && Referential(t)
  }

  // Users and organizations

  lemma HandleKeepsUsers(
    users: map<Id, User>, emails: map<string, Id>, handles: set<seq<byte>>,
    users': map<Id, User>, handles': set<seq<byte>>)
    requires UsersAgree(users, emails) && HandleOnly(users, handles, users', handles')
    ensures UsersAgree(users', emails) && Kept(users, users') && users'.Keys == users.Keys
  {}

  lemma HandleKeepsHandles(
    users: map<Id, User>, handles: set<seq<byte>>, users': map<Id, User>, handles': set<seq<byte>>, u: Id, h: Handle)
    requires HandlesAgree(users, handles) && SetsHandle(users, handles, users', handles', u, h)
    ensures HandlesAgree(users', handles')
  {
    forall g | g in handles' ensures g != [] && HasHandle(users', g) {
      if g in handles {
        var v :| v in users && users[v].handle == g;
        assert users'[v].handle == g;
      } else {
        assert users'[u].handle == g;
      }
    }
  }

  lemma HandlesKept(users: map<Id, User>, handles: set<seq<byte>>, users': map<Id, User>, handles': set<seq<byte>>)
    requires HandlesAgree(users, handles) && HandleOnly(users, handles, users', handles')
    ensures HandlesAgree(users', handles')
  {
    hide HandlesAgree;
    if users' != users || handles' != handles {
      var u: Id, h: Handle :| SetsHandle(users, handles, users', handles', u, h);
      HandleKeepsHandles(users, handles, users', handles', u, h);
    }
  }

  lemma EnrollUsers(users: map<Id, User>, emails: map<string, Id>, handles: set<seq<byte>>, user: Id, email: string,
      hash: string)
    requires UsersAgree(users, emails) && HandlesAgree(users, handles) && user !in users && email !in emails
    ensures UsersAgree(users[user := User(email, hash, [])], emails[email := user])
    ensures HandlesAgree(users[user := User(email, hash, [])], handles)
    ensures Kept(users, users[user := User(email, hash, [])])
  {
    forall h | h in handles ensures HasHandle(users[user := User(email, hash, [])], h) {
      var u :| u in users && users[u].handle == h;
      assert users[user := User(email, hash, [])][u].handle == h;
    }
  }

  lemma EnrollSlug(orgs: map<Id, string>, slugs: map<string, Id>, org: Id, slug: string)
    requires SlugsAgree(orgs, slugs) && org !in orgs && slug !in slugs && ValidSlug(slug)
    ensures SlugsAgree(orgs[org := slug], slugs[slug := org])
  {}

  lemma MemberKeepsMembers(members: map<(Id, Id), string>, orgs: set<Id>, users: set<Id>, org: Id, user: Id,
      role: string)
    requires MembersAgree(members, orgs, users) && ValidRole(role)
    ensures MembersAgree(members[(org, user) := role], orgs + {org}, users + {user})
  {}

  lemma MemberKeepsCompany(members: map<(Id, Id), string>, orgs: set<Id>, users: set<Id>, org: Id, user: Id,
      role: string)
    requires NobodyAlone(members, orgs, users)
    ensures NobodyAlone(members[(org, user) := role], orgs + {org}, users + {user})
  {
    var members' := members[(org, user) := role];
    assert (org, user) in members';
    forall u | u in users + {user} ensures Joined(members', u) {
      if u != user {
        var o :| (o, u) in members;
        assert (o, u) in members';
      }
    }
    forall o | o in orgs + {org} ensures Peopled(members', o) {
      if o != org {
        var u :| (o, u) in members;
        assert (o, u) in members';
      }
    }
  }

  lemma IssueKeepsTokens(tokens: Table, hashes: map<string, Id>, users: set<Id>, id: Id, row: Row)
    requires TokensAgree(tokens, hashes, users) && id !in tokens && row.hash !in hashes && row.user in users
    requires row.replacedBy.None?
    ensures TokensAgree(tokens[id := row], hashes[row.hash := id], users)
  {}

  lemma ClaimKeepsTokens(tokens: Table, hashes: map<string, Id>, users: set<Id>, id: Id, row: Row)
    requires TokensAgree(tokens, hashes, users) && id in tokens && row.hash == tokens[id].hash
        && row.user == tokens[id].user
    requires row.replacedBy.Some? ==> row.replacedBy.value in tokens
    ensures TokensAgree(tokens[id := row], hashes, users)
  {}

  lemma NewKeyKeepsKeys(keys: map<Id, ApiKey>, prefixes: map<string, Id>, orgs: set<Id>, id: Id, key: ApiKey)
    requires KeysAgree(keys, prefixes, orgs) && id !in keys && key.prefix !in prefixes && key.org in orgs
    ensures KeysAgree(keys[id := key], prefixes[key.prefix := id], orgs)
  {}

  lemma RevokeKeepsKeys(keys: map<Id, ApiKey>, prefixes: map<string, Id>, orgs: set<Id>, id: Id)
    requires KeysAgree(keys, prefixes, orgs) && id in keys
    ensures KeysAgree(keys[id := keys[id].(revoked := true)], prefixes, orgs)
  {}

  // Each call keeps the invariant

  lemma RegisterAgreed(env: Env, t: Tables, i: RegisterIn)
    requires Agreed(t) && Register(env, t, i).Ok?
    ensures Agreed(Register(env, t, i).value.0)
    ensures Kept(t.users, Register(env, t, i).value.0.users)
  {
    hide UsersAgree, HandlesAgree, SlugsAgree, TokensAgree, KeysAgree, MembersAgree, NobodyAlone, Kept;
    hide Register, Enroll, ValidSlug, NormalizeEmail, NormalizeSlug, Password.HashPassword, ValidRegistration;
    var email, slug, hash := RegisterShape(env, t, i);
    ValidSlugOf(env, i);
    var t' := Register(env, t, i).value.0;
    EnrollUsers(t.users, t.emails, t.handles, i.user, email, hash);
    EnrollSlug(t.orgs, t.slugs, i.org, slug);
    MemberKeepsMembers(t.members, t.orgs.Keys, t.users.Keys, i.org, i.user, "owner");
    MemberKeepsCompany(t.members, t.orgs.Keys, t.users.Keys, i.org, i.user, "owner");
    assert t'.users.Keys == t.users.Keys + {i.user} && t'.orgs.Keys == t.orgs.Keys + {i.org};
    MoreOrgs(t.keys, t.prefixes, t.orgs.Keys, t'.orgs.Keys);
    RegisterKeepsTokens(env, t, i);
  }

  lemma RegisterKeepsTokens(env: Env, t: Tables, i: RegisterIn)
    requires TokensAgree(t.tokens, t.tokenHashes, t.users.Keys) && Register(env, t, i).Ok?
    ensures var t' := Register(env, t, i).value.0; TokensAgree(t'.tokens, t'.tokenHashes, t.users.Keys + {i.user})
  {
    hide Register, Enroll, TokensAgree, ValidRegistration, NormalizeEmail, NormalizeSlug, Password.HashPassword;
    var email, slug, hash := RegisterShape(env, t, i);
    MoreUsers(t.tokens, t.tokenHashes, t.users.Keys, t.users.Keys + {i.user});
    IssueKeepsTokens(t.tokens, t.tokenHashes, t.users.Keys + {i.user}, i.session.tokenId,
                     NewRow(i.user, env.refreshHash(i.session.raw), i.session.issuedAt + env.refreshTtl));
  }

  lemma ValidSlugOf(env: Env, i: RegisterIn)
    ensures ValidRegistration(env, i) ==> ValidSlug(NormalizeSlug(env, i.slug))
    ensures ValidRole("owner")
  {}

  lemma MoreUsers(tokens: Table, hashes: map<string, Id>, users: set<Id>, users': set<Id>)
    requires TokensAgree(tokens, hashes, users) && users <= users'
    ensures TokensAgree(tokens, hashes, users')
  {}

  lemma MoreOrgs(keys: map<Id, ApiKey>, prefixes: map<string, Id>, orgs: set<Id>, orgs': set<Id>)
    requires KeysAgree(keys, prefixes, orgs) && orgs <= orgs'
    ensures KeysAgree(keys, prefixes, orgs')
  {}

  /** The token half of Agreed after any call but a registration. */
  lemma TokensAgreed(env: Env, t: Tables, call: Call)
    requires TokensAgree(t.tokens, t.tokenHashes, t.users.Keys) && Effect(env, t, call).Some? && !call.Registers?
    ensures var t' := Effect(env, t, call).value; TokensAgree(t'.tokens, t'.tokenHashes, t.users.Keys)
  {
    hide TokensAgree, Login, Refresh, FinishLogin;
    match call
    case LogsIn(i) => LoginKeepsTokens(env, t, i);
    case FinishesLogin(i) => FinishKeepsTokens(env, t, i);
    case Refreshes(i) => RefreshKeepsTokens(env, t, i);
    case _ =>
      hide Effect;
      Frame(env, t, call);
  }

  lemma LoginKeepsTokens(env: Env, t: Tables, i: LoginIn)
    requires TokensAgree(t.tokens, t.tokenHashes, t.users.Keys) && Login(env, t, i).Ok?
    ensures var t' := Login(env, t, i).value.0; TokensAgree(t'.tokens, t'.tokenHashes, t.users.Keys)
  {
    hide TokensAgree, Login, TotpCheck, Password.VerifyPassword, NormalizeEmail;
    var user := LoginShape(env, t, i);
    IssueKeepsTokens(t.tokens, t.tokenHashes, t.users.Keys, i.session.tokenId,
                     NewRow(user, env.refreshHash(i.session.raw), i.session.issuedAt + env.refreshTtl));
  }

  lemma FinishKeepsTokens(env: Env, t: Tables, i: FinishIn)
    requires TokensAgree(t.tokens, t.tokenHashes, t.users.Keys) && FinishLogin(env, t, i).Ok?
    ensures var t' := FinishLogin(env, t, i).value.0; TokensAgree(t'.tokens, t'.tokenHashes, t.users.Keys)
  {
    hide TokensAgree, FinishLogin, Validated, WithHandle, OpenAll, Index, PasskeysOf;
    var user, ceremony, cs := FinishLoginShape(env, t, i);
    HandleShape(t, user, i.handle);
    var user', c, row := ValidatedShape(env, WithHandle(t, user, i.handle).value, ceremony, cs, i);
    IssueKeepsTokens(t.tokens, t.tokenHashes, t.users.Keys, i.session.tokenId,
                     NewRow(user, env.refreshHash(i.session.raw), i.session.issuedAt + env.refreshTtl));
  }

  lemma RefreshKeepsTokens(env: Env, t: Tables, i: RefreshIn)
    requires TokensAgree(t.tokens, t.tokenHashes, t.users.Keys) && Refresh(env, t, i).Ok?
    ensures var t' := Refresh(env, t, i).value.0; TokensAgree(t'.tokens, t'.tokenHashes, t.users.Keys)
  {
    hide TokensAgree, Refresh;
    var id := RefreshShape(env, t, i);
    var row := NewRow(t.tokens[id].user, env.refreshHash(i.session.raw), i.session.issuedAt + env.refreshTtl);
    IssueKeepsTokens(t.tokens, t.tokenHashes, t.users.Keys, i.session.tokenId, row);
    ClaimKeepsTokens(t.tokens[i.session.tokenId := row], t.tokenHashes[row.hash := i.session.tokenId], t.users.Keys,
                     id, Claimed(t.tokens[id], i.start, i.session.tokenId));
  }

  /** The organization half of Agreed after any call but a registration. */
  lemma OrganizationsAgreed(env: Env, t: Tables, call: Call)
    requires Agreed(t) && Effect(env, t, call).Some? && !call.Registers?
    ensures
      var t' := Effect(env, t, call).value;
      && KeysAgree(t'.keys, t'.prefixes, t.orgs.Keys)
      && MembersAgree(t'.members, t.orgs.Keys, t.users.Keys)
      && NobodyAlone(t'.members, t.orgs.Keys, t.users.Keys)
  {
    hide UsersAgree, HandlesAgree, SlugsAgree, TokensAgree, KeysAgree, NobodyAlone;
    hide AddMembership, UpdateMembership, Calls.CreateApiKey, Calls.RevokeApiKey, ValidRole, Scopes;
    match call
    case AddsMember(p, i) =>
      var org, user := AddShape(env, t, p, i);
      SameKeys(t.orgs, org);
      SameKeys(t.users, user);
      MemberKeepsMembers(t.members, t.orgs.Keys, t.users.Keys, org, user, i.role);
      MemberKeepsCompany(t.members, t.orgs.Keys, t.users.Keys, org, user, i.role);
    case ChangesRole(p, i) =>
      var org, user := ChangeShape(env, t, p, i);
      SameKeys(t.orgs, org);
      SameKeys(t.users, user);
      MemberKeepsMembers(t.members, t.orgs.Keys, t.users.Keys, org, user, i.role);
      MemberKeepsCompany(t.members, t.orgs.Keys, t.users.Keys, org, user, i.role);
    case CreatesKey(p, i) =>
      var key := CreateKeyShape(env, t, p, i);
      NewKeyKeepsKeys(t.keys, t.prefixes, t.orgs.Keys, i.id, key);
    case RevokesKey(p, i) =>
      var id := RevokeKeyShape(env, t, p, i);
      RevokeKeepsKeys(t.keys, t.prefixes, t.orgs.Keys, id);
    case _ =>
      hide Effect;
      Frame(env, t, call);
  }

  lemma SameKeys<T>(m: map<Id, T>, id: Id)
    ensures id in m ==> m.Keys + {id} == m.Keys
  {}

  lemma AgreedStep(env: Env, t: Tables, call: Call)
    requires Agreed(t) && Effect(env, t, call).Some?
    ensures Agreed(Effect(env, t, call).value) && Kept(t.users, Effect(env, t, call).value.users)
    ensures !call.Registers? ==> Effect(env, t, call).value.users.Keys == t.users.Keys
  {
    if call.Registers? {
      RegisterAgreed(env, t, call.register);
    } else {
      hide Effect, HandleOnly, UsersAgree, HandlesAgree, SlugsAgree, TokensAgree, KeysAgree, MembersAgree,
          NobodyAlone, Kept;
      var t' := Effect(env, t, call).value;
      Frame(env, t, call);
      Handles(env, t, call);
      HandleKeepsUsers(t.users, t.emails, t.handles, t'.users, t'.handles);
      HandlesKept(t.users, t.handles, t'.users, t'.handles);
      TokensAgreed(env, t, call);
      OrganizationsAgreed(env, t, call);
    }
  }

  lemma NewKeyKeepsHashes(keys: map<Id, ApiKey>, hashes: set<string>, users: set<Id>, id: Id, key: ApiKey)
    requires KeyHashesAgree(keys, hashes, users) && id !in keys && key.hash !in hashes
    requires key.createdBy.Some? ==> key.createdBy.value in users
    ensures KeyHashesAgree(keys[id := key], hashes + {key.hash}, users)
  {
    var keys' := keys[id := key];
    forall h | h in hashes + {key.hash} ensures HasKeyHash(keys', h) {
      if h in hashes {
        var k :| k in keys && keys[k].hash == h;
        assert keys'[k].hash == h;
      } else {
        assert keys'[id].hash == h;
      }
    }
  }

  lemma RevokeKeepsHashes(keys: map<Id, ApiKey>, hashes: set<string>, users: set<Id>, id: Id)
    requires KeyHashesAgree(keys, hashes, users) && id in keys
    ensures KeyHashesAgree(keys[id := keys[id].(revoked := true)], hashes, users)
  {
    var keys' := keys[id := keys[id].(revoked := true)];
    forall h | h in hashes ensures HasKeyHash(keys', h) {
      var k :| k in keys && keys[k].hash == h;
      assert keys'[k].hash == h;
    }
  }

  lemma MoreCreators(keys: map<Id, ApiKey>, hashes: set<string>, users: set<Id>, users': set<Id>)
    requires KeyHashesAgree(keys, hashes, users) && users <= users'
    ensures KeyHashesAgree(keys, hashes, users')
  {}

  /** The API keys after any call. */
  lemma KeysStep(env: Env, t: Tables, call: Call)
    requires KeyHashesAgree(t.keys, t.keyHashes, t.users.Keys) && Effect(env, t, call).Some?
    ensures
      var t' := Effect(env, t, call).value;
      KeyHashesAgree(t'.keys, t'.keyHashes, t.users.Keys) && t.keys.Keys <= t'.keys.Keys
  {
    hide KeyHashesAgree, Calls.CreateApiKey, Calls.RevokeApiKey, Authorized, Scopes, NormalizeSlug;
    match call
    case CreatesKey(p, i) =>
      var key := CreateKeyShape(env, t, p, i);
      NewKeyKeepsHashes(t.keys, t.keyHashes, t.users.Keys, i.id, key);
    case RevokesKey(p, i) =>
      var id := RevokeKeyShape(env, t, p, i);
      RevokeKeepsHashes(t.keys, t.keyHashes, t.users.Keys, id);
    case _ =>
      hide Effect;
      Frame(env, t, call);
  }

  lemma OrgsGrow(env: Env, t: Tables, call: Call)
    requires Effect(env, t, call).Some?
    ensures t.orgs.Keys <= Effect(env, t, call).value.orgs.Keys
  {
    if call.Registers? {
      hide Register, Enroll, NormalizeEmail, NormalizeSlug, Password.HashPassword;
      var email, slug, hash := RegisterShape(env, t, call.register);
    } else {
      hide Effect;
      Frame(env, t, call);
    }
  }

  lemma KeptKeys(users: map<Id, User>, users': map<Id, User>)
    requires Kept(users, users')
    ensures users.Keys <= users'.Keys
  {}

  /** Every call keeps the tables sound and the accounts it finds. */
  lemma SoundStep(env: Env, t: Tables, call: Call)
    requires Sound(t) && Effect(env, t, call).Some?
    ensures Sound(Effect(env, t, call).value) && Kept(t.users, Effect(env, t, call).value.users)
  {
    hide Effect, Agreed, KeyHashesAgree, Referential, Kept;
    var t' := Effect(env, t, call).value;
    AgreedStep(env, t, call);
    KeptKeys(t.users, t'.users);
    KeysStep(env, t, call);
    MoreCreators(t'.keys, t'.keyHashes, t.users.Keys, t'.users.Keys);
    OrgsGrow(env, t, call);
    ReferencesStep(env, t, call);
  }

  lemma NothingUnsound()
    ensures Sound(EMPTY)
  {}

  /** At every point of a history all constraints of the schema hold. */
  lemma {:induction false} AlwaysSound(env: Env, run: seq<Call>, ts: seq<Tables>, k: nat)
    requires History(env, run, ts) && k <= |run|
    ensures Sound(ts[k])
  {
    hide Effect, Sound;
    if k == 0 {
      NothingUnsound();
    } else {
      AlwaysSound(env, run, ts, k - 1);
      At(env, run, ts, k - 1);
      SoundStep(env, ts[k - 1], run[k - 1]);
    }
  }

  /** Accounts last: e-mail address and password record never change, and a handle, once set, is
      never written again. */
  lemma {:induction false} AccountsLast(env: Env, run: seq<Call>, ts: seq<Tables>, j: nat, k: nat)
    requires History(env, run, ts) && j <= k <= |run|
    ensures Kept(ts[j].users, ts[k].users)
  {
    if j < k {
      hide Effect, Sound, Kept;
      AccountsLast(env, run, ts, j, k - 1);
      AlwaysSound(env, run, ts, k - 1);
      At(env, run, ts, k - 1);
      SoundStep(env, ts[k - 1], run[k - 1]);
      KeptTwice(ts[j].users, ts[k - 1].users, ts[k].users);
    }
  }

  ghost predicate EmailsKept(t: Tables, t': Tables) {
    forall email :: UserByEmail(t, email).Some? ==> UserByEmail(t', email) == UserByEmail(t, email)
  }

  /** An e-mail address once found leads to the same user ever after. */
  lemma EmailsLast(env: Env, t: Tables, call: Call)
    requires Effect(env, t, call).Some?
    ensures EmailsKept(t, Effect(env, t, call).value)
  {
    if call.Registers? {
      hide Register, Enroll;
      var email, slug, hash := RegisterShape(env, t, call.register);
    } else {
      hide Effect;
      Frame(env, t, call);
      Handles(env, t, call);
    }
  }

  lemma KeptTwice(a: map<Id, User>, b: map<Id, User>, c: map<Id, User>)
    requires Kept(a, b) && Kept(b, c)
    ensures Kept(a, c)
  {}
}
