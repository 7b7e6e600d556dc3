/** The identity service: transactions over the repository, any round trip of which may fail. */
module Identity {
  import opened Wrappers
  import opened Text
  import opened Environment
  import opened Naming
  import opened Tokens
  import opened Database
  import opened Calls
  import Tables
  import Password
  import Totp

  type State = Tables.Tables

  /** A call behaves as specified: with a failed round trip it answers Internal and commits
      nothing; otherwise it gives the specified answer, and commits the specified
      tables or, when the answer is an error, nothing. */
  ghost predicate Faithful<T>(expected: Result<(State, T)>, r: Result<T>, before: State, after: State, faulted: bool) {
    if faulted then r == Err(Internal) && after == before
    else
      match expected
      case Err(e) => r == Err(e) && after == before
      case Ok((tables, value)) => r == Ok(value) && after == tables
  }

  predicate NoFault(faults: nat -> bool, from: nat, n: nat) {
    forall k :: from <= k < from + n ==> !faults(k)
  }

  lemma NoFaultOne(faults: nat -> bool, from: nat)
    ensures NoFault(faults, from, 1) <==> !faults(from)
  {}

  lemma NoFaultSplit(faults: nat -> bool, from: nat, m: nat, n: nat)
    ensures NoFault(faults, from, m + n) <==> NoFault(faults, from, m) && NoFault(faults, from + m, n)
  {
    if NoFault(faults, from, m) && NoFault(faults, from + m, n) {
      forall k | from <= k < from + m + n ensures !faults(k) {
        assert k < from + m || from + m <= k < from + m + n;
      }
    }
  }

  /** AddMembership and UpdateMembership make six round trips up to and including the commit and
      one more read after it: the change is applied exactly when the first six succeed, the
      call succeeds exactly when all seven do. */
  ghost predicate ReadsAfterCommit<T>(
    expected: Result<(State, T)>, r: Result<T>, before: State, after: State,
    faulted: bool, faults: nat -> bool, from: nat, trips: nat)
  {
    && after == (if expected.Ok? && NoFault(faults, from, trips) then expected.value.0 else before)
    && (r.Ok? <==> expected.Ok? && NoFault(faults, from, trips + 1))
    && r == if faulted then Err(Internal) else match expected case Err(e) => Err(e) case Ok((_, value)) => Ok(value)
  }

  /** All-or-nothing fails for AddMembership and UpdateMembership: whenever either would succeed, and only
      the read after the commit fails, the answer is an error and the change is there. */
  lemma ChangeOutlivesFailure<T>(
    expected: Result<(State, T)>, r: Result<T>, before: State, after: State, faults: nat -> bool, from: nat)
    requires expected.Ok? && NoFault(faults, from, 6) && faults(from + 6)
    requires ReadsAfterCommit(expected, r, before, after, true, faults, from, 6)
    ensures r == Err(Internal) && after == expected.value.0
  {}

  /** One such input: the owner of an organization promotes a second member, and round trip 6 fails. */
  lemma RoleOutlivesFailure(env: Env, r: Result<bool>, after: State)
    requires env.CaseMapping()
    requires
      var t := Tables.EMPTY.(
        users := map[1 := Tables.User("a", "", []), 2 := Tables.User("b", "", [])], orgs := map[0 := "o"],
        slugs := map["o" := 0], members := map[(0, 1) := "owner", (0, 2) := "viewer"]);
      var p := Principal(true, Some(1), None, map[0 := RolePermissions("owner")]);
      var expected := Calls.UpdateMembership(env, t, p, UpdateIn("o", Some(2), "admin"));
      ReadsAfterCommit(expected, r, t, after, true, n => n == 6, 0, 6)
    ensures r == Err(Internal) && (0, 2) in after.members && after.members[(0, 2)] == "admin"
  {
    ValidSlugIsNormal(env, "o");
  }

  /** A session for the new owner is issued and audited under the same conditions as before the
      account was inserted. */
  lemma EnrolledSession(env: Env, t: State, i: RegisterIn, email: string, slug: string, hash: string)
    ensures
      var t1 := NewAccount(t, i, email, slug, hash);
      && (CanIssue(env, t1, i.user, i.session) <==>
            i.session.tokenId !in t.tokens && env.refreshHash(i.session.raw) !in t.tokenHashes)
      && SessionOf(env, t1, i.user, i.session) == SessionOf(env, t, i.user, i.session)
      && Tables.Attributable(t1, Tables.Audit(
           Some(i.org), "user", Some(i.user), None, Tables.AuthRegister(slug), i.user))
      && t1.audit == t.audit
  {}

  class Service {
    const env: Env
    const db: Db
    const totp: Totp.TotpManager

    constructor (env: Env, db: Db)
      ensures this.env == env && this.db == db && Valid()
    {
      this.env := env;
      this.db := db;
      this.totp := new Totp.TotpManager(env);
    }

    ghost predicate Valid() {
      totp.env == env
    }

    // Shared steps of the transactions

    /** issueSessionWithModel: inserts the token row, then reads whether TOTP is enabled. */
    method IssueSession(user: Id, f: Fresh) returns (r: Result<AuthResult>)
      requires db.open
      modifies db
      ensures db.open && db.committed == old(db.committed) && db.failures >= old(db.failures)
      ensures r == if db.failures > old(db.failures) || !CanIssue(env, old(db.pending), user, f) then Err(Internal)
                   else Ok(SessionOf(env, old(db.pending), user, f))
      ensures r.Ok? ==> db.pending == WithSession(env, old(db.pending), user, f)
    {
      var hash, expires := env.refreshHash(f.raw), f.issuedAt + env.refreshTtl;
      var created := db.Execute(Tables.CreateToken(db.View(), f.tokenId, user, hash, expires));
      if created != Done {
        return Err(Internal);
      }
      var ok := db.Query();
      if !ok {
        return Err(Internal);
      }
      var totpEnabled := Tables.TotpEnabled(db.View(), user);
      return Ok(AuthResult(user, f.raw, expires, totpEnabled));
    }

    /** The end of every audited transaction: the audit entry, then the commit. */
    method AuditAndCommit(entry: Tables.Audit) returns (ok: bool)
      requires db.open
      modifies db
      ensures db.failures >= old(db.failures)
      ensures ok <==> db.failures == old(db.failures) && Tables.Attributable(old(db.pending), entry)
      ensures ok <==> NoFault(db.faults, old(db.calls), 2) && Tables.Attributable(old(db.pending), entry)
      ensures ok ==> db.calls == old(db.calls) + 2
      ensures db.committed == if ok then old(db.pending).(audit := old(db.pending).audit + [entry])
          else old(db.committed)
    {
      var audited := db.Execute(Tables.CreateAuditLog(db.View(), entry));
      if audited != Done {
        return false;
      }
      ok := db.Commit();
    }

    /** The end of every transaction that only issues a session. */
    method IssueAndCommit(user: Id, f: Fresh, entry: Tables.Audit) returns (r: Result<AuthResult>)
      requires db.open
      modifies db
      ensures db.failures >= old(db.failures)
      ensures
        var t := old(db.pending);
        r == if db.failures > old(db.failures) || !CanIssue(env, t, user, f) || !Tables.Attributable(t, entry)
            then Err(Internal)
             else Ok(SessionOf(env, t, user, f))
      ensures db.committed ==
              if r.Err? then old(db.committed)
              else WithSession(env, old(db.pending), user, f).(audit := old(db.pending).audit + [entry])
    {
      r := IssueSession(user, f);
      if r.Ok? {
        var ok := AuditAndCommit(entry);
        if !ok {
          r := Err(Internal);
        }
      }
    }

    // Register

    method Register(i: RegisterIn) returns (r: Result<AuthResult>)
      requires Valid() && !db.open
      modifies db
      ensures !db.open
      ensures Faithful(Calls.Register(env, old(db.committed), i), r,
                       old(db.committed), db.committed, db.failures > old(db.failures))
    {
      var email := NormalizeEmail(env, i.email);
      var slug := NormalizeSlug(env, i.slug);
      if !env.validEmail(email) || |i.password| < 10 || TrimSpace(i.displayName) == "" || TrimSpace(i.orgName) == "" {
        return Err(InvalidInput);
      }
      var slugOk := ValidateSlug(slug);
      if !slugOk {
        return Err(InvalidInput);
      }
      var hash := Password.HashPassword(env, i.password, i.salt);
      var ok := db.Begin();
      if !ok {
        return Err(Internal);
      }
      r := RegisterTx(i, email, slug, hash);
      db.Rollback();
    }

    /** The three inserts of an account: the user, the organization, the owner's membership. */
    method CreateAccount(i: RegisterIn, email: string, slug: string, hash: string) returns (err: Option<Error>)
      requires db.open
      modifies db
      ensures db.open && db.committed == old(db.committed) && db.failures >= old(db.failures)
      ensures db.failures > old(db.failures) ==> err == Some(Internal)
      ensures
        var t := old(db.pending);
        db.failures == old(db.failures) ==>
          err == if i.user in t.users || email in t.emails then Some(EmailTaken)
                 else if i.org in t.orgs || slug in t.slugs then Some(OrganizationSlugTaken)
                 else if (i.org, i.user) in t.members then Some(Internal)
                 else None
      ensures err.None? ==> db.pending == NewAccount(old(db.pending), i, email, slug, hash)
    {
      var user := db.Execute(Tables.CreateUser(db.View(), i.user, email, hash));
      if user != Done {
        return Some(if user == Rejected then EmailTaken else Internal);
      }
      var org := db.Execute(Tables.CreateOrganization(db.View(), i.org, slug));
      if org != Done {
        return Some(if org == Rejected then OrganizationSlugTaken else Internal);
      }
      var member := db.Execute(Tables.CreateMembership(db.View(), i.org, i.user, "owner"));
      if member != Done {
        return Some(Internal);
      }
      return None;
    }

    method RegisterTx(i: RegisterIn, email: string, slug: string, hash: string) returns (r: Result<AuthResult>)
      requires db.open && db.pending == db.committed
      modifies db
      ensures db.failures >= old(db.failures)
      ensures Faithful(Enroll(env, old(db.committed), i, email, slug, hash), r,
                       old(db.committed), db.committed, db.failures > old(db.failures))
    {
      hide CanIssue, SessionOf, NewAccount, WithSession, Tables.Attributable;
      var err := CreateAccount(i, email, slug, hash);
      if err.Some? {
        return Err(err.value);
      }
      EnrolledSession(env, db.committed, i, email, slug, hash);
      r := IssueAndCommit(i.user, i.session,
                          Tables.Audit(Some(i.org), "user", Some(i.user), None, Tables.AuthRegister(slug), i.user));
    }

    // Login

    /** verifyTOTPIfEnabled. */
    method VerifyTotpIfEnabled(user: Id, code: string, now: int) returns (err: Option<Error>)
      requires Valid()
      modifies db`calls, db`failures
      ensures db.failures >= old(db.failures)
      ensures err == if db.failures > old(db.failures) then Some(Internal)
          else TotpCheck(env, db.View(), user, code, now)
    {
      var ok := db.Query();
      if !ok {
        return Some(Internal);
      }
      var t := db.View();
      if user !in t.totp || !t.totp[user].enabled {
        return None;
      }
      if TrimSpace(code) == "" {
        return Some(TotpRequired);
      }
      var secret := env.decrypt(t.totp[user].ciphertext, t.totp[user].nonce);
      if secret.None? {
        return Some(Internal);
      }
      var accepted := totp.VerifyCode(secret.value, code, Unix(now));
      return if accepted then None else Some(TotpInvalid);
    }

    method Login(i: LoginIn) returns (r: Result<AuthResult>)
      requires Valid() && !db.open
      modifies db
      ensures !db.open
      ensures Faithful(Calls.Login(env, old(db.committed), i), r,
                       old(db.committed), db.committed, db.failures > old(db.failures))
    {
      var email := NormalizeEmail(env, i.email);
      if email == "" || i.password == [] {
        return Err(InvalidInput);
      }
      var ok := db.Query();
      if !ok {
        return Err(Internal);
      }
      var user := Tables.UserByEmail(db.View(), email);
      if user.None? {
        return Err(InvalidCredentials);
      }
      var verified := Password.VerifyPassword(env, db.View().users[user.value].passwordHash, i.password);
      if verified.Err? {
        return Err(verified.error);
      }
      if !verified.value {
        return Err(InvalidCredentials);
      }
      var err := VerifyTotpIfEnabled(user.value, i.code, i.now);
      if err.Some? {
        return Err(err.value);
      }
      r := OpenSession(user.value, i.session);
    }

    /** The second half of Login: list the organizations, then one transaction. */
    method OpenSession(user: Id, f: Fresh) returns (r: Result<AuthResult>)
      requires Valid() && !db.open
      modifies db
      ensures !db.open && db.failures >= old(db.failures)
      ensures r == if db.failures > old(db.failures) || !CanIssue(env, old(db.committed), user, f) then Err(Internal)
                   else Ok(SessionOf(env, old(db.committed), user, f))
      ensures db.committed ==
              if r.Err? then old(db.committed)
              else WithSession(env, old(db.committed), user, f).(
                     audit := old(db.committed).audit + [UserAudit(user, Tables.AuthLogin, user)])
    {
      var ok := db.Query();
      if !ok {
        return Err(Internal);
      }
      ok := db.Begin();
      if !ok {
        return Err(Internal);
      }
      r := IssueAndCommit(user, f, UserAudit(user, Tables.AuthLogin, user));
      db.Rollback();
    }

    // Refresh

    method Refresh(i: RefreshIn) returns (r: Result<AuthResult>)
      requires Valid() && !db.open
      modifies db
      ensures !db.open
      ensures Faithful(Calls.Refresh(env, old(db.committed), i), r,
                       old(db.committed), db.committed, db.failures > old(db.failures))
    {
      if TrimSpace(i.raw) == "" {
        return Err(InvalidInput);
      }
      var hash := env.refreshHash(i.raw);
      var ok := db.Begin();
      if !ok {
        return Err(Internal);
      }
      r := RefreshTx(i, hash);
      db.Rollback();
    }

    method RefreshTx(i: RefreshIn, hash: string) returns (r: Result<AuthResult>)
      requires Valid() && db.open && db.pending == db.committed
      requires TrimSpace(i.raw) != "" && hash == env.refreshHash(i.raw)
      modifies db
      ensures db.failures >= old(db.failures)
      ensures Faithful(Calls.Refresh(env, old(db.committed), i), r,
                       old(db.committed), db.committed, db.failures > old(db.failures))
    {
      hide TrimSpace, SessionOf;
      var ok := db.Query();
      if !ok {
        return Err(Internal);
      }
      var found := Tables.TokenByHash(db.View(), hash);
      if found.None? {
        return Err(RefreshTokenInvalid);
      }
      var row := db.View().tokens[found.value];
      if row.usedAt.Some? || row.revokedAt.Some? || i.now > row.expires {
        return Err(RefreshTokenInvalid);
      }
      ok := db.Query();
      if !ok || row.user !in db.View().users {
        return Err(Internal);
      }
      ok := db.Query();
      if !ok {
        return Err(Internal);
      }
      r := IssueSession(row.user, i.session);
      if r.Err? {
        return;
      }
      var rotated := db.Execute(Tables.RotateToken(db.View(), found.value, i.session.tokenId, i.start));
      if rotated != Done {
        return Err(if rotated == Rejected then RefreshTokenInvalid else Internal);
      }
      ok := AuditAndCommit(UserAudit(row.user, Tables.AuthRefresh, found.value));
      if !ok {
        return Err(Internal);
      }
    }

    // TOTP

    method SetupTotp(i: SetupIn) returns (r: Result<string>)
      requires Valid() && !db.open
      modifies db
      ensures !db.open
      ensures Faithful(Calls.SetupTotp(env, old(db.committed), i), r,
                       old(db.committed), db.committed, db.failures > old(db.failures))
    {
      if i.user.None? {
        return Err(InvalidInput);
      }
      var secret := totp.GenerateSecret(i.random);
      var ciphertext := env.encrypt(secret, i.nonce);
      var ok := db.Begin();
      if !ok {
        return Err(Internal);
      }
      var saved := db.Execute(Tables.UpsertTotp(db.View(), i.user.value, ciphertext, i.nonce));
      ok := saved == Done;
      if ok {
        ok := AuditAndCommit(UserAudit(i.user.value, Tables.TotpSetup, i.user.value));
      }
      db.Rollback();
      return if ok then Ok(secret) else Err(Internal);
    }

    /** Reads and decrypts the user's credential and checks the code, outside any transaction. */
    method CheckCode(user: Id, code: string, now: int, needEnabled: bool) returns (err: Option<Error>)
      requires Valid() && !db.open
      modifies db`calls, db`failures
      ensures db.failures >= old(db.failures)
      ensures
        var t := db.committed;
        err == if db.failures > old(db.failures) then Some(Internal)
               else if user !in t.totp || (needEnabled && !t.totp[user].enabled) then Some(InvalidInput)
               else
                 match env.decrypt(t.totp[user].ciphertext, t.totp[user].nonce)
                 case None => Some(Internal)
                 case Some(secret) => if Totp.Accepts(env, secret, code, Unix(now)) then None else Some(TotpInvalid)
    {
      var ok := db.Query();
      if !ok {
        return Some(Internal);
      }
      var t := db.View();
      if user !in t.totp || (needEnabled && !t.totp[user].enabled) {
        return Some(InvalidInput);
      }
      var secret := env.decrypt(t.totp[user].ciphertext, t.totp[user].nonce);
      if secret.None? {
        return Some(Internal);
      }
      var accepted := totp.VerifyCode(secret.value, code, Unix(now));
      return if accepted then None else Some(TotpInvalid);
    }

    method EnableTotp(i: CodeIn) returns (r: Result<bool>)
      requires Valid() && !db.open
      modifies db
      ensures !db.open
      ensures Faithful(Calls.EnableTotp(env, old(db.committed), i), r,
                       old(db.committed), db.committed, db.failures > old(db.failures))
    {
      hide Totp.Accepts, Unix;
      if i.user.None? {
        return Err(InvalidInput);
      }
      var err := CheckCode(i.user.value, i.code, i.now, false);
      if err.Some? {
        return Err(err.value);
      }
      var ok := db.Begin();
      if !ok {
        return Err(Internal);
      }
      var enabled := db.Execute(Tables.EnableTotp(db.View(), i.user.value));
      ok := enabled == Done;
      if ok {
        ok := AuditAndCommit(UserAudit(i.user.value, Tables.TotpEnable, i.user.value));
      }
      db.Rollback();
      return if ok then Ok(true) else Err(Internal);
    }

    method DisableTotp(i: CodeIn) returns (r: Result<bool>)
      requires Valid() && !db.open
      modifies db
      ensures !db.open
      ensures Faithful(Calls.DisableTotp(env, old(db.committed), i), r,
                       old(db.committed), db.committed, db.failures > old(db.failures))
    {
      hide Totp.Accepts, Unix;
      if i.user.None? {
        return Err(InvalidInput);
      }
      var err := CheckCode(i.user.value, i.code, i.now, true);
      if err.Some? {
        return Err(err.value);
      }
      var ok := db.Begin();
      if !ok {
        return Err(Internal);
      }
      var deleted := db.Execute(Some(Tables.DeleteTotp(db.View(), i.user.value)));
      ok := deleted == Done;
      if ok {
        ok := AuditAndCommit(UserAudit(i.user.value, Tables.TotpDisable, i.user.value));
      }
      db.Rollback();
      return if ok then Ok(false) else Err(Internal);
    }

    // Organizations

    /** Looks the organization up by its slug and checks the caller's permission in it. */
    method Authorize(p: Principal, slug: string, permission: Permission) returns (r: Result<Id>)
      requires !db.open
      modifies db`calls, db`failures
      ensures db.calls == old(db.calls) + 1
      ensures db.failures == old(db.failures) + (if db.faults(old(db.calls)) then 1 else 0)
      ensures r == if db.faults(old(db.calls)) then Err(Internal)
          else Authorized(env, db.committed, p, slug, permission)
    {
      var ok := db.Query();
      if !ok {
        return Err(Internal);
      }
      var org := Tables.OrgBySlug(db.View(), NormalizeSlug(env, slug));
      if org.None? || org.value !in p.permissions {
        return Err(Unauthorized);
      }
      return if permission in p.permissions[org.value] then Ok(org.value) else Err(PermissionDenied);
    }

    /** The read after the commit in AddMembership and UpdateMembership. */
    method ReadTotpEnabled(user: Id) returns (r: Result<bool>)
      requires !db.open
      modifies db`calls, db`failures
      ensures db.failures == old(db.failures) + (if db.faults(old(db.calls)) then 1 else 0)
      ensures r == if db.faults(old(db.calls)) then Err(Internal) else Ok(Tables.TotpEnabled(db.committed, user))
    {
      var ok := db.Query();
      return if ok then Ok(Tables.TotpEnabled(db.View(), user)) else Err(Internal);
    }

    method AddMembership(p: Principal, i: AddIn) returns (r: Result<bool>)
      requires Valid() && !db.open
      modifies db
      ensures !db.open
      ensures ReadsAfterCommit(Calls.AddMembership(env, old(db.committed), p, i), r, old(db.committed), db.committed,
                               db.failures > old(db.failures), db.faults, old(db.calls), 6)
    {
      var org := Authorize(p, i.slug, MEMBERSHIP_WRITE);
      if org.Err? {
        return Err(org.error);
      }
      NoFaultSplit(db.faults, old(db.calls), 1, 5);
      NoFaultSplit(db.faults, old(db.calls), 1, 6);
      r := AddTo(p, org.value, i);
    }

    method AddTo(p: Principal, org: Id, i: AddIn) returns (r: Result<bool>)
      requires Valid() && !db.open && org in db.committed.orgs
      modifies db
      ensures !db.open && db.failures >= old(db.failures)
      ensures ReadsAfterCommit(Calls.AddTo(env, old(db.committed), p, org, i), r, old(db.committed), db.committed,
                               db.failures > old(db.failures), db.faults, old(db.calls), 5)
    {
      hide NormalizeEmail, ValidRole, Calls.Admit, NoFault;
      NoFaultOne(db.faults, db.calls);
      NoFaultSplit(db.faults, db.calls, 1, 4);
      NoFaultSplit(db.faults, db.calls, 1, 5);
      var email := NormalizeEmail(env, i.email);
      if !env.validEmail(email) || !ValidRole(i.role) {
        return Err(InvalidInput);
      }
      var ok := db.Query();
      if !ok {
        return Err(Internal);
      }
      var user := Tables.UserByEmail(db.View(), email);
      if user.None? {
        return Err(InvalidInput);
      }
      r := Admit(p, org, user.value, i.role);
    }

    method Admit(p: Principal, org: Id, user: Id, role: string) returns (r: Result<bool>)
      requires !db.open && org in db.committed.orgs && user in db.committed.users && ValidRole(role)
      modifies db
      ensures !db.open && db.failures >= old(db.failures)
      ensures ReadsAfterCommit(Calls.Admit(old(db.committed), p, org, user, role), r, old(db.committed), db.committed,
                               db.failures > old(db.failures), db.faults, old(db.calls), 4)
    {
      hide Tables.Attributable, ValidRole, NoFault;
      NoFaultOne(db.faults, db.calls + 4);
      NoFaultSplit(db.faults, db.calls, 4, 1);
      var err := SaveMembership(p, org, user, role);
      if err.Some? {
        return Err(err.value);
      }
      r := ReadTotpEnabled(user);
    }

    /** The transaction of AddMembership: four round trips. */
    method SaveMembership(p: Principal, org: Id, user: Id, role: string) returns (err: Option<Error>)
      requires !db.open && org in db.committed.orgs && user in db.committed.users && ValidRole(role)
      modifies db
      ensures !db.open && db.failures >= old(db.failures)
      ensures
        var t := old(db.committed);
        var entry := OrgAudit(org, p, Tables.MembershipCreate(role, t.users[user].email), user);
        && (err.None? <==>
              (org, user) !in t.members && Tables.Attributable(t, entry) && NoFault(db.faults, old(db.calls), 4))
        && (err.None? ==> db.calls == old(db.calls) + 4)
        && db.committed == (if err.None? then t.(members := t.members[(org, user) := role],
            audit := t.audit + [entry]) else t)
        && err == if db.failures > old(db.failures) then Some(Internal)
                  else if (org, user) in t.members then Some(MembershipExists)
                  else if !Tables.Attributable(t, entry) then Some(Internal)
                  else None
    {
      var ok := db.Begin();
      if !ok {
        return Some(Internal);
      }
      var created := db.Execute(Tables.CreateMembership(db.View(), org, user, role));
      if created == Done {
        ok := AuditAndCommit(OrgAudit(org, p, Tables.MembershipCreate(role, db.View().users[user].email), user));
        err := if ok then None else Some(Internal);
      } else {
        err := Some(if created == Rejected then MembershipExists else Internal);
      }
      db.Rollback();
    }

    method UpdateMembership(p: Principal, i: UpdateIn) returns (r: Result<bool>)
      requires Valid() && !db.open
      modifies db
      ensures !db.open
      ensures ReadsAfterCommit(Calls.UpdateMembership(env, old(db.committed), p, i), r, old(db.committed), db.committed,
                               db.failures > old(db.failures), db.faults, old(db.calls), 6)
    {
      var org := Authorize(p, i.slug, MEMBERSHIP_WRITE);
      if org.Err? {
        return Err(org.error);
      }
      NoFaultSplit(db.faults, old(db.calls), 1, 5);
      NoFaultSplit(db.faults, old(db.calls), 1, 6);
      r := ChangeIn(p, org.value, i);
    }

    method ChangeIn(p: Principal, org: Id, i: UpdateIn) returns (r: Result<bool>)
      requires Valid() && !db.open && org in db.committed.orgs
      modifies db
      ensures !db.open && db.failures >= old(db.failures)
      ensures ReadsAfterCommit(Calls.ChangeIn(old(db.committed), p, org, i), r, old(db.committed), db.committed,
                               db.failures > old(db.failures), db.faults, old(db.calls), 5)
    {
      if !ValidRole(i.role) || i.user.None? {
        return Err(InvalidInput);
      }
      NoFaultSplit(db.faults, old(db.calls), 5, 1);
      var err := ChangeRole(p, org, i.user.value, i.role);
      if err.Some? {
        return Err(err.value);
      }
      r := ReadTotpEnabled(i.user.value);
    }

    /** The transaction of UpdateMembership: five round trips. */
    method ChangeRole(p: Principal, org: Id, user: Id, role: string) returns (err: Option<Error>)
      requires !db.open && ValidRole(role)
      modifies db
      ensures !db.open && db.failures >= old(db.failures)
      ensures
        var t := old(db.committed);
        var entry := OrgAudit(org, p, Tables.MembershipUpdateRole(role), user);
        var allowed := user in t.users && Tables.Attributable(t, entry);
        && (err.None? <==> (org, user) in t.members && allowed && NoFault(db.faults, old(db.calls), 5))
        && (err.None? ==> db.calls == old(db.calls) + 5)
        && db.committed == (if err.None? then t.(members := t.members[(org, user) := role],
            audit := t.audit + [entry]) else t)
        && err == if db.failures > old(db.failures) then Some(Internal)
                  else if (org, user) !in t.members then Some(Unauthorized)
                  else if !allowed then Some(Internal)
                  else None
    {
      var ok := db.Begin();
      if !ok {
        return Some(Internal);
      }
      err := SetRole(org, user, role);
      if err.None? {
        ok := AuditAndCommit(OrgAudit(org, p, Tables.MembershipUpdateRole(role), user));
        err := if ok then None else Some(Internal);
      }
      db.Rollback();
    }

    /** The statements of UpdateMembership: the update and the read of the user. */
    method SetRole(org: Id, user: Id, role: string) returns (err: Option<Error>)
      requires db.open && ValidRole(role)
      modifies db
      ensures db.open && db.committed == old(db.committed) && db.failures >= old(db.failures)
      ensures
        var t := old(db.pending);
        && (err.None? <==> (org, user) in t.members && user in t.users && NoFault(db.faults, old(db.calls), 2))
        && (err.None? ==> db.calls == old(db.calls) + 2 && db.pending == t.(members := t.members[(org, user) := role]))
        && err == if db.failures > old(db.failures) then Some(Internal)
                  else if (org, user) !in t.members then Some(Unauthorized)
                  else if user !in t.users then Some(Internal)
                  else None
    {
      var updated := db.Execute(Tables.UpdateMembershipRole(db.View(), org, user, role));
      if updated != Done {
        return Some(if updated == Rejected then Unauthorized else Internal);
      }
      var ok := db.Query();
      return if ok && user in db.View().users then None else Some(Internal);
    }

    // API keys

    method CreateApiKey(p: Principal, i: CreateKeyIn) returns (r: Result<string>)
      requires Valid() && !db.open
      modifies db
      ensures !db.open
      ensures Faithful(Calls.CreateApiKey(env, old(db.committed), p, i), r,
                       old(db.committed), db.committed, db.failures > old(db.failures))
    {
      var org := Authorize(p, i.slug, API_KEY_WRITE);
      if org.Err? {
        return Err(org.error);
      }
      var scopes := ValidateScopes(i.scopes);
      if scopes.Err? {
        return Err(scopes.error);
      }
      var name := TrimSpace(i.name);
      if name == "" {
        return Err(InvalidInput);
      }
      var raw, prefix := RawKey(i.prefix, i.secret), Hex(i.prefix);
      var key := Tables.ApiKey(org.value, p.user, name, prefix, env.secretHash(raw), scopes.value, false);
      var ok := SaveApiKey(p, i.id, key);
      return if ok then Ok(raw) else Err(Internal);
    }

    method SaveApiKey(p: Principal, id: Id, key: Tables.ApiKey) returns (ok: bool)
      requires !db.open && key.org in db.committed.orgs && key.createdBy == p.user
      modifies db
      ensures !db.open && db.failures >= old(db.failures)
      ensures
        var t := old(db.committed);
        && (ok <==> db.failures == old(db.failures) && KeyIsNew(t, p, id, key))
        && db.committed == if ok then WithKey(t, p, id, key) else t
    {
      ok := db.Begin();
      if !ok {
        return;
      }
      var created := db.Execute(Tables.CreateApiKey(db.View(), id, key));
      ok := created == Done;
      if ok {
        var action := Tables.ApiKeyCreate(key.name, key.scopes, key.prefix);
        ok := AuditAndCommit(OrgAudit(key.org, p.(key := None), action, id));
      }
      db.Rollback();
    }

    method RevokeApiKey(p: Principal, i: RevokeKeyIn) returns (r: Result<Id>)
      requires Valid() && !db.open
      modifies db
      ensures !db.open
      ensures Faithful(Calls.RevokeApiKey(env, old(db.committed), p, i), r,
                       old(db.committed), db.committed, db.failures > old(db.failures))
    {
      var org := Authorize(p, i.slug, API_KEY_WRITE);
      if org.Err? {
        return Err(org.error);
      }
      if i.key.None? {
        return Err(InvalidInput);
      }
      var ok := db.Begin();
      if !ok {
        return Err(Internal);
      }
      // The key is revoked in the transaction before its organization is looked at.
      var revoked := db.Execute(Tables.RevokeApiKey(db.View(), i.key.value));
      if revoked != Done {
        r := Err(if revoked == Rejected then Unauthorized else Internal);
      } else if db.View().keys[i.key.value].org != org.value {
        r := Err(Unauthorized);
      } else {
        var action := Tables.ApiKeyRevoke(db.View().keys[i.key.value].prefix);
        ok := AuditAndCommit(OrgAudit(org.value, p, action, i.key.value));
        r := if ok then Ok(i.key.value) else Err(Internal);
      }
      db.Rollback();
    }

    /** scopesToPermissions: the set of a key's scopes. */
    method ScopesToPermissions(scopes: seq<string>) returns (permissions: set<Permission>)
      ensures permissions == set s | s in scopes
    {
      permissions := {};
      for i := 0 to |scopes|
        invariant permissions == set s | s in scopes[..i]
      {
        assert scopes[..i + 1] == scopes[..i] + [scopes[i]];
        permissions := permissions + {scopes[i]};
      }
      assert scopes[..|scopes|] == scopes;
    }

    method AuthenticateApiKey(raw: string) returns (r: Result<Principal>)
      requires !db.open
      modifies db`calls, db`failures
      ensures r == if db.failures > old(db.failures) then Err(Internal)
          else Calls.AuthenticateApiKey(env, db.committed, raw)
    {
      var prefix := KeyPrefix(raw);
      if prefix.None? {
        return Err(ApiKeyInvalid);
      }
      var ok := db.Query();
      if !ok {
        return Err(Internal);
      }
      var id := Tables.KeyByPrefix(db.View(), prefix.value);
      if id.None? {
        return Err(ApiKeyInvalid);
      }
      var key := db.View().keys[id.value];
      if key.revoked || key.hash != env.secretHash(raw) {
        return Err(ApiKeyInvalid);
      }
      ok := db.Query();
      if !ok {
        return Err(Internal);
      }
      var permissions := ScopesToPermissions(key.scopes);
      return Ok(Principal(false, None, id, map[key.org := permissions]));
    }

    // Principals

    /** The join of the user's memberships with their organizations, row by row. */
    method ListOrganizationsByUser(user: Id) returns (rows: seq<(Id, string)>, ok: bool)
      requires !db.open
      modifies db`calls, db`failures
      ensures ok <==> db.failures == old(db.failures)
      ensures db.failures >= old(db.failures)
      ensures ok ==>
        forall org, role :: (org, role) in rows <==>
                              org in RolesOf(db.committed, user) && RolesOf(db.committed, user)[org] == role
    {
      rows := [];
      ok := db.Query();
      if !ok {
        return;
      }
      var t := db.View();
      var rest := t.orgs.Keys;
      while rest != {}
        invariant rest <= t.orgs.Keys
        invariant forall org, role :: (org, role) in rows <==>
                    org in t.orgs && org !in rest && (org, user) in t.members && t.members[(org, user)] == role
        decreases rest
      {
        var org :| org in rest;
        rest := rest - {org};
        if (org, user) in t.members {
          rows := rows + [(org, t.members[(org, user)])];
        }
      }
    }

    /** The loop of principalForUser, which fills the two maps. */
    method RoleMaps(rows: seq<(Id, string)>, ghost all: map<Id, string>)
      returns (roles: map<Id, string>, permissions: map<Id, set<Permission>>)
      requires forall org, role :: (org, role) in rows <==> org in all && all[org] == role
      ensures roles == all && permissions == PermissionsOf(all)
    {
      roles, permissions := map[], map[];
      for i := 0 to |rows|
        invariant forall k :: 0 <= k < i ==> rows[k].0 in roles
        invariant forall org :: org in roles ==> org in all && roles[org] == all[org]
        invariant permissions.Keys == roles.Keys
        invariant forall org :: org in roles ==> permissions[org] == RolePermissions(roles[org])
      {
        var (org, role) := rows[i];
        assert (org, role) in rows;
        var granted := PermissionsForRole(role);
        roles := roles[org := role];
        permissions := permissions[org := granted];
      }
      forall org | org in all ensures org in roles {
        assert (org, all[org]) in rows;
      }
    }

    /** Builds the role and permission maps of a user's principal. */
    method PrincipalForUser(user: Id) returns (r: Result<(Principal, map<Id, string>)>)
      requires !db.open
      modifies db`calls, db`failures
      ensures
        var roles := RolesOf(db.committed, user);
        r == if db.failures > old(db.failures) then Err(Internal)
             else Ok((Principal(true, Some(user), None, PermissionsOf(roles)), roles))
    {
      var rows, ok := ListOrganizationsByUser(user);
      if !ok {
        return Err(Internal);
      }
      var roles, permissions := RoleMaps(rows, RolesOf(db.committed, user));
      ok := db.Query();
      return if ok then Ok((Principal(true, Some(user), None, permissions), roles)) else Err(Internal);
    }
  }
}
