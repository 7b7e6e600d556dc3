/** What the answer of a session call is worth: the refresh token it carries is the stored one, and it
    works, for the user the session was opened for, until it expires or is presented. */
module SessionAnswers {
  import opened Wrappers
  import opened Text
  import opened Environment
  import opened Naming
  import opened Tokens
  import opened Tables
  import opened Calls
  import opened Ceremonies
  import opened Runs
  import opened Shapes
  import opened Frames
  import opened Accounts
  import Password
  import Sessions

  /** The raw token of the answer is found under its hash, in a row that is the answer's own: of its user, with its
      expiry, one lifetime after the clock reading of the issue, not used and not revoked. */
  ghost predicate Opens(env: Env, t: Tables, a: AuthResult, f: Fresh) {
    && a.refreshToken == f.raw
    && TokenByHash(t, env.refreshHash(a.refreshToken)) == Some(f.tokenId)
    && t.tokens[f.tokenId] == Row(a.user, env.refreshHash(a.refreshToken), a.refreshExpires, None, None, None)
    && a.refreshExpires == f.issuedAt + env.refreshTtl
    && (a.totpEnabled <==> a.user in t.totp && t.totp[a.user].enabled)
  }

  lemma SessionOpens(env: Env, t: Tables, user: Id, f: Fresh, t': Tables)
    requires t'.tokens == WithSession(env, t, user, f).tokens
    requires t'.tokenHashes == WithSession(env, t, user, f).tokenHashes && t'.totp == t.totp
    ensures Opens(env, t', SessionOf(env, t, user, f), f) && SessionOf(env, t, user, f).user == user
  {}

  lemma RegisterOpens(env: Env, t: Tables, i: RegisterIn)
    requires Register(env, t, i).Ok?
    ensures var (t', a) := Register(env, t, i).value; Opens(env, t', a, i.session) && a.user == i.user
  {
    hide ValidRegistration, NormalizeEmail, NormalizeSlug, Password.HashPassword, Opens, WithSession, SessionOf;
    var email, slug, hash := NormalizeEmail(env, i.email), NormalizeSlug(env, i.slug),
        Password.HashPassword(env, i.password, i.salt);
    NewAccountHasNoSession(env, t, i, email, slug, hash);
    SessionOpens(env, t, i.user, i.session, Register(env, t, i).value.0);
  }

  lemma NewAccountHasNoSession(env: Env, t: Tables, i: RegisterIn, email: string, slug: string, hash: string)
    ensures
      var n := NewAccount(t, i, email, slug, hash);
      var s, s' := WithSession(env, t, i.user, i.session), WithSession(env, n, i.user, i.session);
      s'.tokens == s.tokens && s'.tokenHashes == s.tokenHashes && s'.totp == t.totp
  {}

  lemma LoginOpens(env: Env, t: Tables, i: LoginIn)
    requires Login(env, t, i).Ok?
    ensures
      var (t', a) := Login(env, t, i).value;
      Opens(env, t', a, i.session) && UserByEmail(t, NormalizeEmail(env, i.email)) == Some(a.user)
  {
    hide NormalizeEmail, Password.VerifyPassword, TotpCheck, Opens, SessionOf;
    var user := UserByEmail(t, NormalizeEmail(env, i.email)).value;
    SessionOpens(env, t, user, i.session, Login(env, t, i).value.0);
  }

  lemma RefreshOpens(env: Env, t: Tables, i: RefreshIn)
    requires Refresh(env, t, i).Ok?
    ensures
      var (t', a) := Refresh(env, t, i).value;
      var id := TokenByHash(t, env.refreshHash(i.raw));
      && Opens(env, t', a, i.session) && id.Some? && a.user == t.tokens[id.value].user
  {
    hide TrimSpace;
    var id := TokenByHash(t, env.refreshHash(i.raw)).value;
  }

  lemma FinishLoginOpens(env: Env, t: Tables, i: FinishIn)
    requires FinishLogin(env, t, i).Ok?
    ensures
      var (t', a) := FinishLogin(env, t, i).value;
      && Opens(env, t', a, i.session)
      && i.ceremony.Some? && i.ceremony.value in t.ceremonies && a.user == t.ceremonies[i.ceremony.value].user
  {
    hide FinishLogin, Validated, WithHandle, OpenAll, Opens, SessionOf;
    var user, ceremony, cs := FinishLoginShape(env, t, i);
    HandleShape(t, user, i.handle);
    ValidatedOpens(env, WithHandle(t, user, i.handle).value, ceremony, cs, i);
  }

  lemma ValidatedOpens(env: Env, t: Tables, ceremony: Id, cs: seq<Credential>, i: FinishIn)
    requires ceremony in t.ceremonies && t.ceremonies[ceremony].user in t.users
    requires Validated(env, t, ceremony, cs, i).Ok?
    ensures
      var (t', a) := Validated(env, t, ceremony, cs, i).value;
      Opens(env, t', a, i.session) && a.user == t.ceremonies[ceremony].user
  {
    hide Answered, Index, PasskeysOf, Resealed, Opens, SessionOf;
    SessionOpens(env, t, t.ceremonies[ceremony].user, i.session, Validated(env, t, ceremony, cs, i).value.0);
  }

  // Over runs

  predicate HasAnswer(call: Call) {
    IssuesSession(call) || call.Refreshes?
  }

  function SessionIn(call: Call): Fresh
    requires HasAnswer(call)
  {
    match call
    case Registers(i) => i.session
    case LogsIn(i) => i.session
    case Refreshes(i) => i.session
    case FinishesLogin(i) => i.session
  }

  ghost function Given<T>(r: Result<(Tables, T)>): Option<T> {
    match r
    case Err(_) => None
    case Ok((_, a)) => Some(a)
  }

  /** What the caller of a session call is given. */
  ghost function Answer(env: Env, t: Tables, call: Call): Option<AuthResult>
    requires HasAnswer(call)
  {
    match call
    case Registers(i) => Given(Register(env, t, i))
    case LogsIn(i) => Given(Login(env, t, i))
    case Refreshes(i) => Given(Refresh(env, t, i))
    case FinishesLogin(i) => Given(FinishLogin(env, t, i))
  }

  /** Every session call that commits answers with the token it has stored. */
  lemma AnswerOpens(env: Env, t: Tables, call: Call)
    requires HasAnswer(call) && Effect(env, t, call).Some?
    ensures Answer(env, t, call).Some?
    ensures Opens(env, Effect(env, t, call).value, Answer(env, t, call).value, SessionIn(call))
  {
    hide Opens, Register, Login, Refresh, FinishLogin;
    match call
    case Registers(i) => RegisterOpens(env, t, i);
    case LogsIn(i) => LoginOpens(env, t, i);
    case Refreshes(i) => RefreshOpens(env, t, i);
    case FinishesLogin(i) => FinishLoginOpens(env, t, i);
  }

  /** Call m presents this hash to Refresh. */
  predicate Presents(env: Env, run: seq<Call>, m: int, hash: string) {
    0 <= m < |run| && run[m].Refreshes? && env.refreshHash(run[m].refresh.raw) == hash
  }

  ghost predicate Presented(env: Env, run: seq<Call>, n: int, k: int, hash: string) {
    exists m :: n < m < k && Presents(env, run, m, hash)
  }

  /** A row is used by a refresh that presents its hash, and by no other call. */
  ghost predicate UsedOnly(env: Env, t: Tables, call: Call, t': Tables, id: Id)
    requires id in t.tokens
  {
    && id in t'.tokens && SameToken(t.tokens[id], t'.tokens[id])
    && t'.tokens[id].revokedAt == t.tokens[id].revokedAt
    && (t'.tokens[id].usedAt.Some? <==>
        t.tokens[id].usedAt.Some? || (call.Refreshes? && env.refreshHash(call.refresh.raw) == t.tokens[id].hash))
  }

  predicate SameToken(a: Row, b: Row) {
    a.user == b.user && a.hash == b.hash && a.expires == b.expires
  }

  lemma TokenStep(env: Env, t: Tables, call: Call, id: Id)
    requires TokensAgree(t.tokens, t.tokenHashes, t.users.Keys) && Effect(env, t, call).Some? && id in t.tokens
    ensures UsedOnly(env, t, call, Effect(env, t, call).value, id)
  {
    hide Effect, TokensAgree, UsedOnly;
    if call.Refreshes? {
      RefreshStep(env, t, call, id);
    } else {
      OtherStep(env, t, call, id);
    }
  }

  lemma RefreshStep(env: Env, t: Tables, call: Call, id: Id)
    requires TokensAgree(t.tokens, t.tokenHashes, t.users.Keys) && Effect(env, t, call).Some? && id in t.tokens
    requires call.Refreshes?
    ensures UsedOnly(env, t, call, Effect(env, t, call).value, id)
  {
    hide Refresh, TokensAgree, UsedOnly;
    RefreshUses(env, t, call.refresh, id);
  }

  lemma OtherStep(env: Env, t: Tables, call: Call, id: Id)
    requires !call.Refreshes? && Effect(env, t, call).Some? && id in t.tokens
    ensures UsedOnly(env, t, call, Effect(env, t, call).value, id)
  {
    hide Effect;
    if IssuesSession(call) {
      IssueAdds(env, t, call, id);
    } else {
      Frame(env, t, call);
    }
  }

  lemma RefreshUses(env: Env, t: Tables, i: RefreshIn, id: Id)
    requires TokensAgree(t.tokens, t.tokenHashes, t.users.Keys) && Refresh(env, t, i).Ok? && id in t.tokens
    ensures UsedOnly(env, t, Refreshes(i), Refresh(env, t, i).value.0, id)
  {
    hide Refresh;
    var target := RefreshShape(env, t, i);
  }

  lemma IssueAdds(env: Env, t: Tables, call: Call, id: Id)
    requires IssuesSession(call) && Effect(env, t, call).Some? && id in t.tokens
    ensures var t' := Effect(env, t, call).value; id in t'.tokens && t'.tokens[id] == t.tokens[id]
  {
    hide Register, Login, FinishLogin, NormalizeEmail, NormalizeSlug, Password.HashPassword,
        Password.VerifyPassword, TotpCheck, ValidRegistration;
    match call
    case Registers(i) => var email, slug, hash := RegisterShape(env, t, i);
    case LogsIn(i) => var user := LoginShape(env, t, i);
    case FinishesLogin(i) => FinishAdds(env, t, i, id);
  }

  lemma FinishAdds(env: Env, t: Tables, i: FinishIn, id: Id)
    requires FinishLogin(env, t, i).Ok? && id in t.tokens
    ensures var t' := FinishLogin(env, t, i).value.0; id in t'.tokens && t'.tokens[id] == t.tokens[id]
  {
    hide FinishLogin, Validated, WithHandle, OpenAll, Index, PasskeysOf, Resealed;
    var user, ceremony, cs := FinishLoginShape(env, t, i);
    HandleShape(t, user, i.handle);
    var user', c, row := ValidatedShape(env, WithHandle(t, user, i.handle).value, ceremony, cs, i);
  }

  /** The row of an answer at a later point: still there, and used exactly if its hash was presented since. */
  ghost predicate Standing(env: Env, run: seq<Call>, n: nat, k: nat, t: Tables, a: AuthResult, id: Id) {
    && id in t.tokens
    && SameToken(Row(a.user, env.refreshHash(a.refreshToken), a.refreshExpires, None, None, None), t.tokens[id])
    && t.tokens[id].revokedAt.None?
    && (t.tokens[id].usedAt.Some? <==> Presented(env, run, n, k, env.refreshHash(a.refreshToken)))
  }

  lemma PresentedNext(env: Env, run: seq<Call>, n: nat, k: nat, hash: string)
    requires n < k < |run|
    ensures Presented(env, run, n, k + 1, hash) <==> Presented(env, run, n, k, hash) || Presents(env, run, k, hash)
  {}

  lemma FirstStanding(env: Env, run: seq<Call>, n: nat, t: Tables, a: AuthResult, f: Fresh)
    requires Opens(env, t, a, f)
    ensures Standing(env, run, n, n + 1, t, a, f.tokenId)
  {}

  lemma NextStanding(env: Env, run: seq<Call>, n: nat, k: nat, t: Tables, t': Tables, a: AuthResult, id: Id)
    requires n < k < |run| && Standing(env, run, n, k, t, a, id)
    requires TokensAgree(t.tokens, t.tokenHashes, t.users.Keys) && Effect(env, t, run[k]) == Some(t')
    ensures Standing(env, run, n, k + 1, t', a, id)
  {
    hide Effect, TokensAgree, Presented;
    TokenStep(env, t, run[k], id);
    PresentedNext(env, run, n, k, env.refreshHash(a.refreshToken));
  }

  lemma {:induction false} AlwaysStanding(env: Env, run: seq<Call>, ts: seq<Tables>, n: nat, k: nat)
    requires History(env, run, ts) && n < k <= |run| && HasAnswer(run[n])
    ensures Answer(env, ts[n], run[n]).Some?
    ensures Standing(env, run, n, k, ts[k], Answer(env, ts[n], run[n]).value, SessionIn(run[n]).tokenId)
  {
    hide Effect, Answer, Sound, TokensAgree, Presented, Standing, Opens, UsedOnly;
    At(env, run, ts, n);
    AnswerOpens(env, ts[n], run[n]);
    var a, id := Answer(env, ts[n], run[n]).value, SessionIn(run[n]).tokenId;
    if k == n + 1 {
      FirstStanding(env, run, n, ts[k], a, SessionIn(run[n]));
    } else {
      AlwaysStanding(env, run, ts, n, k - 1);
      AlwaysSound(env, run, ts, k - 1);
      Sessions.SoundTokens(ts[k - 1]);
      At(env, run, ts, k - 1);
      NextStanding(env, run, n, k - 1, ts[k - 1], ts[k], a, id);
    }
  }

  /** The token a session call answered with, at any later point of the run: presenting it, or any text with its hash,
      is refused exactly if that has been done since or the expiry in the answer is over. Otherwise it
      opens a new session of the answer's user, unless the random values of that session collide. */
  lemma TokenWorks(env: Env, run: seq<Call>, ts: seq<Tables>, n: nat, k: nat, i: RefreshIn)
    requires History(env, run, ts) && n < k <= |run| && HasAnswer(run[n]) && TrimSpace(i.raw) != ""
    ensures Answer(env, ts[n], run[n]).Some?
    ensures
      var a, t := Answer(env, ts[n], run[n]).value, ts[k];
      env.refreshHash(i.raw) == env.refreshHash(a.refreshToken) ==>
        var r := Refresh(env, t, i);
        if Presented(env, run, n, k, env.refreshHash(i.raw)) || i.now > a.refreshExpires
        then r == Err(RefreshTokenInvalid)
        else if i.session.tokenId in t.tokens || env.refreshHash(i.session.raw) in t.tokenHashes then r == Err(Internal)
        else r.Ok? && r.value.1.user == a.user && r.value.1.refreshToken == i.session.raw
  {
    hide Effect, Answer, Sound, Presented, TrimSpace;
    AlwaysStanding(env, run, ts, n, k);
    AlwaysSound(env, run, ts, k);
    Sessions.SoundTokens(ts[k]);
    if env.refreshHash(i.raw) == env.refreshHash(Answer(env, ts[n], run[n]).value.refreshToken) {
      assert TokenByHash(ts[k], env.refreshHash(i.raw)) == Some(SessionIn(run[n]).tokenId);
    }
  }

  /** Refresh in full, at any point of a history: a blank text, a token no row accepts at this clock reading, a
      collision of random values, in this order; otherwise the row is used and linked to the new one,
      which is the same user's. */
  lemma RefreshExactly(env: Env, run: seq<Call>, ts: seq<Tables>, k: nat, i: RefreshIn)
    requires History(env, run, ts) && k <= |run|
    ensures
      var t, r, hash := ts[k], Refresh(env, ts[k], i), env.refreshHash(i.raw);
      if TrimSpace(i.raw) == "" then r == Err(InvalidInput)
      else if !Acceptable(t.tokens, hash, i.now) then r == Err(RefreshTokenInvalid)
      else if i.session.tokenId in t.tokens || env.refreshHash(i.session.raw) in t.tokenHashes then r == Err(Internal)
      else
        exists id :: && id in t.tokens && t.tokens[id].hash == hash && t.tokens[id].usedAt.None?
                     && t.tokens[id].revokedAt.None? && i.now <= t.tokens[id].expires
                     && r.Ok? && r.value.1.user == t.tokens[id].user && Rotated(env, t, id, i, r.value.0)
  {
    hide Effect, Sound, Acceptable, TrimSpace, Rotated;
    AlwaysSound(env, run, ts, k);
    Sessions.SoundTokens(ts[k]);
    if TrimSpace(i.raw) != "" {
      Sessions.RefusalIsDenial(env, ts[k], i);
    }
    if Refresh(env, ts[k], i).Ok? {
      RefreshDoes(env, ts[k], i);
    }
  }

  /** What a refresh does to the row it was given and to the table. */
  ghost predicate Rotated(env: Env, t: Tables, id: Id, i: RefreshIn, t': Tables)
    requires id in t.tokens
  {
    var f, row := i.session, t.tokens[id];
    t' == t.(tokens := t.tokens
               [f.tokenId := Row(row.user, env.refreshHash(f.raw), f.issuedAt + env.refreshTtl, None, None, None)]
               [id := Row(row.user, row.hash, row.expires, Some(i.start), None, Some(f.tokenId))],
             tokenHashes := t.tokenHashes[env.refreshHash(f.raw) := f.tokenId],
             audit := t.audit + [Audit(None, "user", Some(row.user), None, AuthRefresh, id)])
  }

  lemma RefreshDoes(env: Env, t: Tables, i: RefreshIn)
    requires Refresh(env, t, i).Ok?
    ensures
      var id := TokenByHash(t, env.refreshHash(i.raw));
      && id.Some? && Live(t.tokens[id.value], i.now) && Refresh(env, t, i).value.1.user == t.tokens[id.value].user
      && Rotated(env, t, id.value, i, Refresh(env, t, i).value.0)
  {
    hide TrimSpace;
  }
}
