/** The identity tables and the SQL statements over them. A statement answers None when a
    constraint rejects it or when it returns no row. The unique indexes are kept as maps
    from the indexed column to the row. */
module Tables {
  import opened Wrappers
  import opened Text
  import opened Tokens
  import opened Naming
  import opened Environment

  /** What ensureWebAuthnUserHandle draws; a user without a handle has the empty one. */
  type Handle = s: seq<byte> | |s| == 32 witness seq(32, _ => 0)

  datatype User = User(email: string, passwordHash: string, handle: seq<byte>)

  datatype ApiKey = ApiKey(
    org: Id, createdBy: Option<Id>, name: string, prefix: string, hash: string, scopes: seq<string>, revoked: bool)

  datatype TotpRow = TotpRow(ciphertext: seq<byte>, nonce: Nonce, enabled: bool)

  datatype Flow = Registration | Authentication

  datatype Ceremony = Ceremony(user: Id, flow: Flow, data: string, expires: int)

  /** A row of auth_webauthn_credentials. */
  datatype Passkey = Passkey(id: Id, user: Id, credentialId: seq<byte>, ciphertext: seq<byte>, nonce: Nonce)

  /** action, target_type and metadata of an audit row. */
  datatype Action =
    | AuthRegister(slug: string)
    | AuthLogin
    | AuthRefresh
    | TotpSetup
    | TotpEnable
    | TotpDisable
    | MembershipCreate(role: string, email: string)
    | MembershipUpdateRole(role: string)
    | ApiKeyCreate(name: string, scopes: seq<string>, prefix: string)
    | ApiKeyRevoke(prefix: string)
    | WebAuthnRegister(credentialId: seq<byte>)
    | WebAuthnLogin(credentialId: seq<byte>)

  datatype Audit = Audit(
    org: Option<Id>, actorType: string, actorUser: Option<Id>, actorKey: Option<Id>, action: Action, target: Id)

  datatype Tables = Tables(
    users: map<Id, User>,
    emails: map<string, Id>,            // UNIQUE (users.email)
    handles: set<seq<byte>>,            // UNIQUE (users.webauthn_user_handle)
    orgs: map<Id, string>,
    slugs: map<string, Id>,             // UNIQUE (organizations.slug)
    members: map<(Id, Id), string>,     // UNIQUE (organization_id, user_id)
    tokens: Table,
    tokenHashes: map<string, Id>,       // UNIQUE (auth_refresh_tokens.token_hash)
    keys: map<Id, ApiKey>,
    prefixes: map<string, Id>,          // UNIQUE (api_keys.key_prefix)
    keyHashes: set<string>,             // UNIQUE (api_keys.key_hash)
    totp: map<Id, TotpRow>,
    passkeys: seq<Passkey>,             // in order of creation
    ceremonies: map<Id, Ceremony>,
    audit: seq<Audit>)

  const EMPTY := Tables(map[], map[], {}, map[], map[], map[], map[], map[], map[], map[], {}, map[], [], map[], [])

  // SELECT

  function UserByEmail(t: Tables, email: string): (r: Option<Id>)
    ensures r.Some? ==> r.value in t.users
  {
    if email in t.emails && t.emails[email] in t.users then Some(t.emails[email]) else None
  }

  function OrgBySlug(t: Tables, slug: string): (r: Option<Id>)
    ensures r.Some? ==> r.value in t.orgs
  {
    if slug in t.slugs && t.slugs[slug] in t.orgs then Some(t.slugs[slug]) else None
  }

  function TokenByHash(t: Tables, hash: string): (r: Option<Id>)
    ensures r.Some? ==> r.value in t.tokens
  {
    if hash in t.tokenHashes && t.tokenHashes[hash] in t.tokens then Some(t.tokenHashes[hash]) else None
  }

  function KeyByPrefix(t: Tables, prefix: string): (r: Option<Id>)
    ensures r.Some? ==> r.value in t.keys
  {
    if prefix in t.prefixes && t.prefixes[prefix] in t.keys then Some(t.prefixes[prefix]) else None
  }

  function TotpEnabled(t: Tables, user: Id): bool {
    user in t.totp && t.totp[user].enabled
  }

  /** The user's passkeys in order of creation. */
  function PasskeysOf(rows: seq<Passkey>, user: Id): (r: seq<Passkey>)
    ensures forall p :: p in r <==> p in rows && p.user == user
  {
    if rows == [] then []
    else
      var r := PasskeysOf(rows[..|rows| - 1], user);
      if rows[|rows| - 1].user == user then r + [rows[|rows| - 1]] else r
  }

  // INSERT, UPDATE, DELETE

  function CreateUser(t: Tables, id: Id, email: string, passwordHash: string): Option<Tables> {
    if id in t.users || email in t.emails then None
    else Some(t.(users := t.users[id := User(email, passwordHash, [])], emails := t.emails[email := id]))
  }

  function CreateOrganization(t: Tables, id: Id, slug: string): Option<Tables> {
    if id in t.orgs || slug in t.slugs then None
    else Some(t.(orgs := t.orgs[id := slug], slugs := t.slugs[slug := id]))
  }

  function CreateMembership(t: Tables, org: Id, user: Id, role: string): Option<Tables> {
    if (org, user) in t.members || org !in t.orgs || user !in t.users || !ValidRole(role) then None
    else Some(t.(members := t.members[(org, user) := role]))
  }

  function UpdateMembershipRole(t: Tables, org: Id, user: Id, role: string): Option<Tables> {
    if (org, user) !in t.members || !ValidRole(role) then None
    else Some(t.(members := t.members[(org, user) := role]))
  }

  function CreateToken(t: Tables, id: Id, user: Id, hash: string, expires: int): Option<Tables> {
    if id in t.tokens || hash in t.tokenHashes || user !in t.users then None
    else Some(t.(tokens := t.tokens[id := NewRow(user, hash, expires)], tokenHashes := t.tokenHashes[hash := id]))
  }

  function RotateToken(t: Tables, id: Id, next: Id, at: int): Option<Tables> {
    if id !in t.tokens || !Unclaimed(t.tokens[id]) || next !in t.tokens then None
    else Some(t.(tokens := t.tokens[id := Claimed(t.tokens[id], at, next)]))
  }

  function CreateApiKey(t: Tables, id: Id, key: ApiKey): Option<Tables> {
    if id in t.keys || key.prefix in t.prefixes || key.hash in t.keyHashes || key.org !in t.orgs
       || (key.createdBy.Some? && key.createdBy.value !in t.users) then None
    else Some(t.(keys := t.keys[id := key], prefixes := t.prefixes[key.prefix := id],
        keyHashes := t.keyHashes + {key.hash}))
  }

  function RevokeApiKey(t: Tables, id: Id): Option<Tables> {
    if id !in t.keys || t.keys[id].revoked then None
    else Some(t.(keys := t.keys[id := t.keys[id].(revoked := true)]))
  }

  /** INSERT ... ON CONFLICT: a new secret always starts disabled. */
  function UpsertTotp(t: Tables, user: Id, ciphertext: seq<byte>, nonce: Nonce): Option<Tables> {
    if user !in t.users then None
    else Some(t.(totp := t.totp[user := TotpRow(ciphertext, nonce, false)]))
  }

  function EnableTotp(t: Tables, user: Id): Option<Tables> {
    if user !in t.totp then None
    else Some(t.(totp := t.totp[user := t.totp[user].(enabled := true)]))
  }

  function DeleteTotp(t: Tables, user: Id): Tables {
    t.(totp := t.totp - {user})
  }

  function SetHandle(t: Tables, user: Id, handle: Handle): Option<Tables> {
    if user !in t.users || handle in t.handles then None
    else Some(t.(users := t.users[user := t.users[user].(handle := handle)],
                 handles := t.handles - {t.users[user].handle} + {handle}))
  }

  function CreateCeremony(t: Tables, id: Id, c: Ceremony): Option<Tables> {
    if id in t.ceremonies || c.user !in t.users then None
    else Some(t.(ceremonies := t.ceremonies[id := c]))
  }

  function DeleteCeremony(t: Tables, id: Id): Tables {
    t.(ceremonies := t.ceremonies - {id})
  }

  predicate PasskeyTaken(rows: seq<Passkey>, id: Id, credentialId: seq<byte>) {
    exists i :: 0 <= i < |rows| && (rows[i].id == id || rows[i].credentialId == credentialId)
  }

  function CreatePasskey(t: Tables, p: Passkey): Option<Tables> {
    if PasskeyTaken(t.passkeys, p.id, p.credentialId) || p.user !in t.users then None
    else Some(t.(passkeys := t.passkeys + [p]))
  }

  function Resealed(rows: seq<Passkey>, id: Id, ciphertext: seq<byte>, nonce: Nonce): (r: seq<Passkey>)
    ensures |r| == |rows|
  {
    seq(|rows|, i requires 0 <= i < |rows| =>
      if rows[i].id == id then rows[i].(ciphertext := ciphertext, nonce := nonce) else rows[i])
  }

  function UpdatePasskey(t: Tables, id: Id, ciphertext: seq<byte>, nonce: Nonce): Option<Tables> {
    if !exists i :: 0 <= i < |t.passkeys| && t.passkeys[i].id == id then None
    else Some(t.(passkeys := Resealed(t.passkeys, id, ciphertext, nonce)))
  }

  /** The foreign keys of an audit row. */
  predicate Attributable(t: Tables, a: Audit) {
    && (a.org.Some? ==> a.org.value in t.orgs)
    && (a.actorUser.Some? ==> a.actorUser.value in t.users)
    && (a.actorKey.Some? ==> a.actorKey.value in t.keys)
    && a.actorType in {"user", "api_key", "system"}
  }

  function CreateAuditLog(t: Tables, a: Audit): Option<Tables> {
    if !Attributable(t, a) then None else Some(t.(audit := t.audit + [a]))
  }
}
