module Shapes {
  import opened Wrappers
  import opened Text
  import opened Environment
  import opened Naming
  import opened Tokens
  import opened Tables
  import opened Calls
  import opened Ceremonies
  import Totp
  import Password

  lemma RegisterShape(env: Env, t: Tables, i: RegisterIn) returns (email: string, slug: string, hash: string)
    requires Register(env, t, i).Ok?
    ensures ValidRegistration(env, i) && email == NormalizeEmail(env, i.email) && slug == NormalizeSlug(env, i.slug)
    ensures hash == Password.HashPassword(env, i.password, i.salt)
    ensures i.user !in t.users && email !in t.emails && i.org !in t.orgs && slug !in t.slugs
        && (i.org, i.user) !in t.members
    ensures i.session.tokenId !in t.tokens && env.refreshHash(i.session.raw) !in t.tokenHashes
    ensures Register(env, t, i).value.0 ==
            WithSession(env, NewAccount(t, i, email, slug, hash), i.user, i.session).(
              audit := t.audit + [Audit(Some(i.org), "user", Some(i.user), None, AuthRegister(slug), i.user)])
  {
    email, slug := NormalizeEmail(env, i.email), NormalizeSlug(env, i.slug);
    hash := Password.HashPassword(env, i.password, i.salt);
  }

  lemma LoginShape(env: Env, t: Tables, i: LoginIn) returns (user: Id)
    requires Login(env, t, i).Ok?
    ensures UserByEmail(t, NormalizeEmail(env, i.email)) == Some(user)
    ensures Password.VerifyPassword(env, t.users[user].passwordHash, i.password) == Ok(true)
    ensures TotpCheck(env, t, user, i.code, i.now).None?
    ensures CanIssue(env, t, user, i.session)
    ensures Login(env, t, i).value.0 ==
            WithSession(env, t, user, i.session).(audit := t.audit + [UserAudit(user, AuthLogin, user)])
  {
    user := UserByEmail(t, NormalizeEmail(env, i.email)).value;
  }

  lemma RefreshShape(env: Env, t: Tables, i: RefreshIn) returns (id: Id)
    requires Refresh(env, t, i).Ok?
    ensures TokenByHash(t, env.refreshHash(i.raw)) == Some(id) && Live(t.tokens[id], i.now)
    ensures CanIssue(env, t, t.tokens[id].user, i.session)
    ensures Refresh(env, t, i).value.0 ==
      var issued := WithSession(env, t, t.tokens[id].user, i.session);
      issued.(tokens := issued.tokens[id := Claimed(t.tokens[id], i.start, i.session.tokenId)],
              audit := t.audit + [UserAudit(t.tokens[id].user, AuthRefresh, id)])
  {
    id := TokenByHash(t, env.refreshHash(i.raw)).value;
  }

  lemma SetupShape(env: Env, t: Tables, i: SetupIn) returns (user: Id)
    requires SetupTotp(env, t, i).Ok?
    ensures i.user == Some(user) && user in t.users
    ensures SetupTotp(env, t, i) ==
            Ok((t.(totp := t.totp[user := TotpRow(env.encrypt(Totp.SecretText(i.random), i.nonce), i.nonce, false)],
                   audit := t.audit + [UserAudit(user, TotpSetup, user)]),
                Totp.SecretText(i.random)))
  {
    user := i.user.value;
  }

  lemma EnableShape(env: Env, t: Tables, i: CodeIn) returns (user: Id, secret: string)
    requires Calls.EnableTotp(env, t, i).Ok?
    ensures i.user == Some(user) && user in t.totp
        && env.decrypt(t.totp[user].ciphertext, t.totp[user].nonce) == Some(secret)
    ensures Totp.Accepts(env, secret, i.code, Unix(i.now)) && user in t.users
    ensures Calls.EnableTotp(env, t, i).value.0 ==
            t.(totp := t.totp[user := t.totp[user].(enabled := true)],
               audit := t.audit + [UserAudit(user, TotpEnable, user)])
  {
    user := i.user.value;
    secret := env.decrypt(t.totp[user].ciphertext, t.totp[user].nonce).value;
  }

  lemma DisableShape(env: Env, t: Tables, i: CodeIn) returns (user: Id, secret: string)
    requires DisableTotp(env, t, i).Ok?
    ensures i.user == Some(user) && TotpEnabled(t, user)
    ensures env.decrypt(t.totp[user].ciphertext, t.totp[user].nonce) == Some(secret)
    ensures Totp.Accepts(env, secret, i.code, Unix(i.now)) && user in t.users
    ensures DisableTotp(env, t, i).value.0 ==
            t.(totp := t.totp - {user}, audit := t.audit + [UserAudit(user, TotpDisable, user)])
  {
    user := i.user.value;
    secret := env.decrypt(t.totp[user].ciphertext, t.totp[user].nonce).value;
  }

  lemma AddShape(env: Env, t: Tables, p: Principal, i: AddIn) returns (org: Id, user: Id)
    requires AddMembership(env, t, p, i).Ok?
    ensures Authorized(env, t, p, i.slug, MEMBERSHIP_WRITE) == Ok(org)
    ensures UserByEmail(t, NormalizeEmail(env, i.email)) == Some(user)
    ensures ValidRole(i.role) && (org, user) !in t.members
    ensures Attributable(t, OrgAudit(org, p, MembershipCreate(i.role, t.users[user].email), user))
    ensures AddMembership(env, t, p, i).value.0 ==
      t.(members := t.members[(org, user) := i.role],
         audit := t.audit + [OrgAudit(org, p, MembershipCreate(i.role, t.users[user].email), user)])
  {
    org := Authorized(env, t, p, i.slug, MEMBERSHIP_WRITE).value;
    user := UserByEmail(t, NormalizeEmail(env, i.email)).value;
  }

  lemma ChangeShape(env: Env, t: Tables, p: Principal, i: UpdateIn) returns (org: Id, user: Id)
    requires UpdateMembership(env, t, p, i).Ok?
    ensures Authorized(env, t, p, i.slug, MEMBERSHIP_WRITE) == Ok(org)
    ensures i.user == Some(user) && ValidRole(i.role) && (org, user) in t.members
    ensures Attributable(t, OrgAudit(org, p, MembershipUpdateRole(i.role), user))
    ensures UpdateMembership(env, t, p, i).value.0 ==
      t.(members := t.members[(org, user) := i.role],
         audit := t.audit + [OrgAudit(org, p, MembershipUpdateRole(i.role), user)])
  {
    org := Authorized(env, t, p, i.slug, MEMBERSHIP_WRITE).value;
    user := i.user.value;
  }

  lemma CreateKeyShape(env: Env, t: Tables, p: Principal, i: CreateKeyIn) returns (key: ApiKey)
    requires Calls.CreateApiKey(env, t, p, i).Ok?
    ensures Authorized(env, t, p, i.slug, API_KEY_WRITE) == Ok(key.org)
    ensures Scopes(i.scopes) == Ok(key.scopes) && !key.revoked && key.prefix == Hex(i.prefix) && key.createdBy == p.user
    ensures key.hash == env.secretHash(RawKey(i.prefix, i.secret))
    ensures KeyIsNew(t, p, i.id, key)
    ensures Calls.CreateApiKey(env, t, p, i) == Ok((WithKey(t, p, i.id, key), RawKey(i.prefix, i.secret)))
  {
    key := ApiKey(Authorized(env, t, p, i.slug, API_KEY_WRITE).value, p.user, TrimSpace(i.name), Hex(i.prefix),
      env.secretHash(RawKey(i.prefix, i.secret)), Scopes(i.scopes).value, false);
  }

  lemma RevokeKeyShape(env: Env, t: Tables, p: Principal, i: RevokeKeyIn) returns (id: Id)
    requires Calls.RevokeApiKey(env, t, p, i).Ok?
    ensures i.key == Some(id) && id in t.keys && !t.keys[id].revoked
    ensures Authorized(env, t, p, i.slug, API_KEY_WRITE) == Ok(t.keys[id].org)
    ensures Attributable(t, OrgAudit(t.keys[id].org, p, ApiKeyRevoke(t.keys[id].prefix), id))
    ensures Calls.RevokeApiKey(env, t, p, i).value.0 ==
      t.(keys := t.keys[id := t.keys[id].(revoked := true)],
         audit := t.audit + [OrgAudit(t.keys[id].org, p, ApiKeyRevoke(t.keys[id].prefix), id)])
  {
    id := i.key.value;
  }

  /** Ensuring a handle touches nothing but that user's handle, and only when there was none. */
  lemma HandleShape(t: Tables, user: Id, handle: Handle)
    requires WithHandle(t, user, handle).Some?
    ensures user in t.users
    ensures WithHandle(t, user, handle) == Some(t) ||
            (t.users[user].handle == [] &&
             WithHandle(t, user, handle) ==
             Some(t.(users := t.users[user := t.users[user].(handle := handle)],
                     handles := t.handles - {[]} + {handle})))
  {}

  lemma BeginRegistrationShape(env: Env, t: Tables, p: Principal, i: BeginIn) returns (user: Id, c: Ceremony)
    requires BeginRegistration(env, t, p, i).Ok?
    ensures WithHandle(t, user, i.handle).Some? && i.ceremony !in t.ceremonies
    ensures p.isUser && p.user == Some(user)
    ensures i.begun.Some? && c == Ceremony(user, Registration, i.begun.value.0, i.begun.value.1)
    ensures BeginRegistration(env, t, p, i).value.0 ==
            WithHandle(t, user, i.handle).value.(ceremonies := t.ceremonies[i.ceremony := c])
  {
    user := p.user.value;
    c := Ceremony(user, Registration, i.begun.value.0, i.begun.value.1);
  }

  lemma BeginLoginShape(env: Env, t: Tables, email: string, i: BeginIn) returns (user: Id, c: Ceremony)
    requires BeginLogin(env, t, email, i).Ok?
    ensures WithHandle(t, user, i.handle).Some? && i.ceremony !in t.ceremonies
    ensures UserByEmail(t, NormalizeEmail(env, email)) == Some(user)
    ensures i.begun.Some? && c == Ceremony(user, Authentication, i.begun.value.0, i.begun.value.1)
    ensures BeginLogin(env, t, email, i).value.0 ==
            WithHandle(t, user, i.handle).value.(ceremonies := t.ceremonies[i.ceremony := c])
  {
    user := UserByEmail(t, NormalizeEmail(env, email)).value;
    c := Ceremony(user, Authentication, i.begun.value.0, i.begun.value.1);
  }

  lemma PlantShape(env: Env, t: Tables, email: string, handle: Handle)
    ensures Planted(env, t, email, handle) == t ||
            exists user :: WithHandle(t, user, handle) == Some(Planted(env, t, email, handle))
  {
    if Planted(env, t, email, handle) != t {
      var user := UserByEmail(t, NormalizeEmail(env, email)).value;
      assert WithHandle(t, user, handle) == Some(Planted(env, t, email, handle));
    }
  }

  lemma FinishRegistrationShape(env: Env, t: Tables, p: Principal, i: FinishIn)
    returns (user: Id, ceremony: Id, c: Credential)
    requires FinishRegistration(env, t, p, i).Ok?
    ensures i.ceremony == Some(ceremony) && Pending(t, ceremony, Registration, i.now)
    ensures t.ceremonies[ceremony].user == user && p.isUser && p.user == Some(user)
    ensures WithHandle(t, user, i.handle).Some? && !PasskeyTaken(t.passkeys, i.row, c.id)
    ensures FinishRegistration(env, t, p, i).value.0 ==
            WithHandle(t, user, i.handle).value.(
              passkeys := t.passkeys + [Sealed(env, i.row, user, c, i.nonce)],
              ceremonies := t.ceremonies - {ceremony},
              audit := t.audit + [UserAudit(user, WebAuthnRegister(c.id), i.row)])
  {
    user, ceremony := p.user.value, i.ceremony.value;
    var cs := OpenAll(env, PasskeysOf(t.passkeys, user)).value;
    c := env.createCredential(
           WithHandle(t, user, i.handle).value.users[user].handle, cs, t.ceremonies[ceremony].data, i.response).value;
  }

  lemma FinishLoginShape(env: Env, t: Tables, i: FinishIn)
    returns (user: Id, ceremony: Id, cs: seq<Credential>)
    requires FinishLogin(env, t, i).Ok?
    ensures i.ceremony == Some(ceremony) && Pending(t, ceremony, Authentication, i.now)
    ensures t.ceremonies[ceremony].user == user && user in t.users
    ensures OpenAll(env, PasskeysOf(t.passkeys, user)) == Some(cs)
    ensures WithHandle(t, user, i.handle).Some?
    ensures FinishLogin(env, t, i) == Validated(env, WithHandle(t, user, i.handle).value, ceremony, cs, i)
  {
    ceremony := i.ceremony.value;
    user := t.ceremonies[ceremony].user;
    cs := OpenAll(env, PasskeysOf(t.passkeys, user)).value;
  }

  lemma ValidatedShape(env: Env, t: Tables, ceremony: Id, cs: seq<Credential>, i: FinishIn)
    returns (user: Id, c: Credential, row: Passkey)
    requires ceremony in t.ceremonies && t.ceremonies[ceremony].user in t.users
    requires Validated(env, t, ceremony, cs, i).Ok?
    ensures t.ceremonies[ceremony].user == user && CanIssue(env, t, user, i.session)
    ensures env.validateLogin(t.users[user].handle, cs, t.ceremonies[ceremony].data, i.response) == Some(c)
    ensures c.id in Index(PasskeysOf(t.passkeys, user)) && row == Index(PasskeysOf(t.passkeys, user))[c.id]
    ensures Validated(env, t, ceremony, cs, i).value.0 ==
            WithSession(env, t, user, i.session).(
              passkeys := Resealed(t.passkeys, row.id, env.encrypt(env.marshal(c), i.nonce), i.nonce),
              ceremonies := t.ceremonies - {ceremony},
              audit := t.audit + [UserAudit(user, WebAuthnLogin(row.credentialId), row.id)])
  {
    user := t.ceremonies[ceremony].user;
    c := env.validateLogin(t.users[user].handle, cs, t.ceremonies[ceremony].data, i.response).value;
    row := Index(PasskeysOf(t.passkeys, user))[c.id];
  }
}
