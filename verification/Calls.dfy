/** What each call of the identity service answers and leaves behind, as a function of the tables
    it finds when no round trip fails. */
module Calls {
  import opened Wrappers
  import opened Text
  import opened Environment
  import opened Naming
  import opened Tokens
  import opened Tables
  import Password
  import Totp

  /** The random values and the second clock reading of a call that issues a session. */
  datatype Fresh = Fresh(tokenId: Id, raw: string, issuedAt: int)

  datatype AuthResult = AuthResult(user: Id, refreshToken: string, refreshExpires: int, totpEnabled: bool)

  /** Who calls: an access token's user or an API key, with what it may do in which organization. */
  datatype Principal = Principal(
    isUser: bool, user: Option<Id>, key: Option<Id>, permissions: map<Id, set<Permission>>)

  function ActorType(p: Principal): string {
    if p.isUser then "user" else "api_key"
  }

  function UserAudit(user: Id, action: Action, target: Id): Audit {
    Audit(None, "user", Some(user), None, action, target)
  }

  function OrgAudit(org: Id, p: Principal, action: Action, target: Id): Audit {
    Audit(Some(org), ActorType(p), p.user, p.key, action, target)
  }

  // Sessions

  /** The clock is kept in nanoseconds; TOTP counts seconds. */
  function Unix(now: int): int {
    now / 1_000_000_000
  }

  /** The token row a session inserts is acceptable to the table. */
  predicate CanIssue(env: Env, t: Tables, user: Id, f: Fresh) {
    f.tokenId !in t.tokens && env.refreshHash(f.raw) !in t.tokenHashes && user in t.users
  }

  function WithSession(env: Env, t: Tables, user: Id, f: Fresh): Tables {
    t.(tokens := t.tokens[f.tokenId := NewRow(user, env.refreshHash(f.raw), f.issuedAt + env.refreshTtl)],
       tokenHashes := t.tokenHashes[env.refreshHash(f.raw) := f.tokenId])
  }

  function SessionOf(env: Env, t: Tables, user: Id, f: Fresh): AuthResult {
    AuthResult(user, f.raw, f.issuedAt + env.refreshTtl, TotpEnabled(t, user))
  }

  datatype RegisterIn = RegisterIn(
    email: string, password: seq<byte>, displayName: string, orgName: string, slug: string,
    salt: seq<byte>, user: Id, org: Id, session: Fresh)

  predicate ValidRegistration(env: Env, i: RegisterIn) {
    && env.validEmail(NormalizeEmail(env, i.email))
    && |i.password| >= 10
    && TrimSpace(i.displayName) != ""
    && TrimSpace(i.orgName) != ""
    && ValidSlug(NormalizeSlug(env, i.slug))
  }

  function Register(env: Env, t: Tables, i: RegisterIn): Result<(Tables, AuthResult)> {
    if !ValidRegistration(env, i) then Err(InvalidInput)
    else
      Enroll(env, t, i, NormalizeEmail(env, i.email), NormalizeSlug(env, i.slug),
             Password.HashPassword(env, i.password, i.salt))
  }

  /** A valid registration under its normalized names. */
  function Enroll(env: Env, t: Tables, i: RegisterIn, email: string, slug: string, hash: string)
    : Result<(Tables, AuthResult)>
  {
    var f := i.session;
    if i.user in t.users || email in t.emails then Err(EmailTaken)
    else if i.org in t.orgs || slug in t.slugs then Err(OrganizationSlugTaken)
    else if (i.org, i.user) in t.members || f.tokenId in t.tokens || env.refreshHash(f.raw) in t.tokenHashes
    then Err(Internal)
    else
      Ok((WithSession(env, NewAccount(t, i, email, slug, hash), i.user, f).(
            audit := t.audit + [Audit(Some(i.org), "user", Some(i.user), None, AuthRegister(slug), i.user)]),
          SessionOf(env, t, i.user, f)))
  }

  /** The user, the organization and the owner's membership, with their unique columns. */
  function NewAccount(t: Tables, i: RegisterIn, email: string, slug: string, hash: string): Tables {
    t.(users := t.users[i.user := User(email, hash, [])],
       emails := t.emails[email := i.user],
       orgs := t.orgs[i.org := slug],
       slugs := t.slugs[slug := i.org],
       members := t.members[(i.org, i.user) := "owner"])
  }

  datatype LoginIn = LoginIn(email: string, password: seq<byte>, code: string, now: int, session: Fresh)

  /** verifyTOTPIfEnabled. */
  ghost function TotpCheck(env: Env, t: Tables, user: Id, code: string, now: int): Option<Error> {
    if !TotpEnabled(t, user) then None
    else if TrimSpace(code) == "" then Some(TotpRequired)
    else
      match env.decrypt(t.totp[user].ciphertext, t.totp[user].nonce)
      case None => Some(Internal)
      case Some(secret) => if Totp.Accepts(env, secret, code, Unix(now)) then None else Some(TotpInvalid)
  }

  ghost function Login(env: Env, t: Tables, i: LoginIn): Result<(Tables, AuthResult)> {
    var email := NormalizeEmail(env, i.email);
    if email == "" || i.password == [] then Err(InvalidInput)
    else
      match UserByEmail(t, email)
      case None => Err(InvalidCredentials)
      case Some(user) =>
        match Password.VerifyPassword(env, t.users[user].passwordHash, i.password)
        case Err(e) => Err(e)
        case Ok(false) => Err(InvalidCredentials)
        case Ok(true) =>
          match TotpCheck(env, t, user, i.code, i.now)
          case Some(e) => Err(e)
          case None =>
            if !CanIssue(env, t, user, i.session) then Err(Internal)
            else
              Ok((WithSession(env, t, user, i.session).(audit := t.audit + [UserAudit(user, AuthLogin, user)]),
                  SessionOf(env, t, user, i.session)))
  }

  datatype RefreshIn = RefreshIn(raw: string, now: int, start: int, session: Fresh)

  function Refresh(env: Env, t: Tables, i: RefreshIn): Result<(Tables, AuthResult)> {
    if TrimSpace(i.raw) == "" then Err(InvalidInput)
    else
      match TokenByHash(t, env.refreshHash(i.raw))
      case None => Err(RefreshTokenInvalid)
      case Some(id) =>
        var row := t.tokens[id];
        if !Live(row, i.now) then Err(RefreshTokenInvalid)
        else if !CanIssue(env, t, row.user, i.session) then Err(Internal)
        else
          var issued := WithSession(env, t, row.user, i.session);
          Ok((issued.(tokens := issued.tokens[id := Claimed(row, i.start, i.session.tokenId)],
                      audit := t.audit + [UserAudit(row.user, AuthRefresh, id)]),
              SessionOf(env, t, row.user, i.session)))
  }

  // TOTP

  datatype SetupIn = SetupIn(user: Option<Id>, random: Mac, nonce: Nonce)

  function SetupTotp(env: Env, t: Tables, i: SetupIn): Result<(Tables, string)> {
    if i.user.None? then Err(InvalidInput)
    else if i.user.value !in t.users then Err(Internal)
    else
      var user := i.user.value;
      Ok((t.(totp := t.totp[user := TotpRow(env.encrypt(Totp.SecretText(i.random), i.nonce), i.nonce, false)],
             audit := t.audit + [UserAudit(user, TotpSetup, user)]),
          Totp.SecretText(i.random)))
  }

  datatype CodeIn = CodeIn(user: Option<Id>, code: string, now: int)

  ghost function EnableTotp(env: Env, t: Tables, i: CodeIn): Result<(Tables, bool)> {
    if i.user.None? || i.user.value !in t.totp then Err(InvalidInput)
    else
      var user := i.user.value;
      match env.decrypt(t.totp[user].ciphertext, t.totp[user].nonce)
      case None => Err(Internal)
      case Some(secret) =>
        if !Totp.Accepts(env, secret, i.code, Unix(i.now)) then Err(TotpInvalid)
        else if user !in t.users then Err(Internal)
        else
          Ok((t.(totp := t.totp[user := t.totp[user].(enabled := true)],
                 audit := t.audit + [UserAudit(user, TotpEnable, user)]),
              true))
  }

  ghost function DisableTotp(env: Env, t: Tables, i: CodeIn): Result<(Tables, bool)> {
    if i.user.None? || !TotpEnabled(t, i.user.value) then Err(InvalidInput)
    else
      var user := i.user.value;
      match env.decrypt(t.totp[user].ciphertext, t.totp[user].nonce)
      case None => Err(Internal)
      case Some(secret) =>
        if !Totp.Accepts(env, secret, i.code, Unix(i.now)) then Err(TotpInvalid)
        else if user !in t.users then Err(Internal)
        else
          Ok((t.(totp := t.totp - {user}, audit := t.audit + [UserAudit(user, TotpDisable, user)]), false))
  }

  // Organizations

  /** requirePermission, after the organization has been looked up by its slug. */
  function Authorized(env: Env, t: Tables, p: Principal, slug: string, permission: Permission): Result<Id> {
    match OrgBySlug(t, NormalizeSlug(env, slug))
    case None => Err(Unauthorized)
    case Some(org) =>
      if org !in p.permissions then Err(Unauthorized)
      else if permission !in p.permissions[org] then Err(PermissionDenied)
      else Ok(org)
  }

  datatype AddIn = AddIn(slug: string, email: string, role: string)

  function AddMembership(env: Env, t: Tables, p: Principal, i: AddIn): Result<(Tables, bool)> {
    match Authorized(env, t, p, i.slug, MEMBERSHIP_WRITE)
    case Err(e) => Err(e)
    case Ok(org) => AddTo(env, t, p, org, i)
  }

  function AddTo(env: Env, t: Tables, p: Principal, org: Id, i: AddIn): Result<(Tables, bool)> {
    var email := NormalizeEmail(env, i.email);
    if !env.validEmail(email) || !ValidRole(i.role) then Err(InvalidInput)
    else
      match UserByEmail(t, email)
      case None => Err(InvalidInput)
      case Some(user) => Admit(t, p, org, user, i.role)
  }

  function Admit(t: Tables, p: Principal, org: Id, user: Id, role: string): Result<(Tables, bool)>
    requires user in t.users
  {
    var entry := OrgAudit(org, p, MembershipCreate(role, t.users[user].email), user);
    if (org, user) in t.members then Err(MembershipExists)
    else if !Attributable(t, entry) then Err(Internal)
    else Ok((t.(members := t.members[(org, user) := role], audit := t.audit + [entry]), TotpEnabled(t, user)))
  }

  datatype UpdateIn = UpdateIn(slug: string, user: Option<Id>, role: string)

  function UpdateMembership(env: Env, t: Tables, p: Principal, i: UpdateIn): Result<(Tables, bool)> {
    match Authorized(env, t, p, i.slug, MEMBERSHIP_WRITE)
    case Err(e) => Err(e)
    case Ok(org) => ChangeIn(t, p, org, i)
  }

  function ChangeIn(t: Tables, p: Principal, org: Id, i: UpdateIn): Result<(Tables, bool)> {
    if !ValidRole(i.role) || i.user.None? then Err(InvalidInput)
    else
      var user := i.user.value;
      var entry := OrgAudit(org, p, MembershipUpdateRole(i.role), user);
      if (org, user) !in t.members then Err(Unauthorized)
      else if user !in t.users || !Attributable(t, entry) then Err(Internal)
      else Ok((t.(members := t.members[(org, user) := i.role], audit := t.audit + [entry]), TotpEnabled(t, user)))
  }

  // API keys

  datatype CreateKeyIn = CreateKeyIn(
    slug: string, name: string, scopes: seq<string>, id: Id, prefix: seq<byte>, secret: seq<byte>)

  function CreateApiKey(env: Env, t: Tables, p: Principal, i: CreateKeyIn): Result<(Tables, string)> {
    match Authorized(env, t, p, i.slug, API_KEY_WRITE)
    case Err(e) => Err(e)
    case Ok(org) =>
      match Scopes(i.scopes)
      case Err(e) => Err(e)
      case Ok(scopes) =>
        var name, raw, prefix := TrimSpace(i.name), RawKey(i.prefix, i.secret), Hex(i.prefix);
        var key := ApiKey(org, p.user, name, prefix, env.secretHash(raw), scopes, false);
        if name == "" then Err(InvalidInput)
        else if !KeyIsNew(t, p, i.id, key) then Err(Internal)
        else Ok((WithKey(t, p, i.id, key), raw))
  }

  predicate KeyIsNew(t: Tables, p: Principal, id: Id, key: ApiKey) {
    id !in t.keys && key.prefix !in t.prefixes && key.hash !in t.keyHashes && (p.user.Some? ==> p.user.value in t.users)
  }

  function WithKey(t: Tables, p: Principal, id: Id, key: ApiKey): Tables {
    t.(keys := t.keys[id := key],
       prefixes := t.prefixes[key.prefix := id],
       keyHashes := t.keyHashes + {key.hash},
       audit := t.audit + [OrgAudit(key.org, p.(key := None), ApiKeyCreate(key.name, key.scopes, key.prefix), id)])
  }

  datatype RevokeKeyIn = RevokeKeyIn(slug: string, key: Option<Id>)

  function RevokeApiKey(env: Env, t: Tables, p: Principal, i: RevokeKeyIn): Result<(Tables, Id)> {
    match Authorized(env, t, p, i.slug, API_KEY_WRITE)
    case Err(e) => Err(e)
    case Ok(org) =>
      if i.key.None? then Err(InvalidInput)
      else
        var id := i.key.value;
        if id !in t.keys || t.keys[id].revoked || t.keys[id].org != org then Err(Unauthorized)
        else
          var entry := OrgAudit(org, p, ApiKeyRevoke(t.keys[id].prefix), id);
          if !Attributable(t, entry) then Err(Internal)
          else Ok((t.(keys := t.keys[id := t.keys[id].(revoked := true)], audit := t.audit + [entry]), id))
  }

  function AuthenticateApiKey(env: Env, t: Tables, raw: string): Result<Principal> {
    match KeyPrefix(raw)
    case None => Err(ApiKeyInvalid)
    case Some(prefix) =>
      match KeyByPrefix(t, prefix)
      case None => Err(ApiKeyInvalid)
      case Some(id) =>
        var key := t.keys[id];
        if key.revoked || key.hash != env.secretHash(raw) then Err(ApiKeyInvalid)
        else Ok(Principal(false, None, Some(id), map[key.org := set s | s in key.scopes]))
  }

  /** principalForUser: the user's memberships joined with their organizations. */
  function RolesOf(t: Tables, user: Id): map<Id, string> {
    map org | org in t.orgs && (org, user) in t.members :: t.members[(org, user)]
  }

  function PermissionsOf(roles: map<Id, string>): map<Id, set<Permission>> {
    map org | org in roles :: RolePermissions(roles[org])
  }
}
