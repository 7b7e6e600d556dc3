/** Who can register and who can log in, over whole runs: what decides is which registrations have
    gone before, and for a login the password, the code and the clock. */
module Enrolment {
  import opened Wrappers
  import opened Text
  import opened Environment
  import opened Naming
  import opened Tokens
  import opened Tables
  import opened Calls
  import opened Runs
  import opened Shapes
  import opened Frames
  import opened Accounts
  import opened Tenants
  import Password
  import TotpLife
  import TotpAnswers

  // What has been registered

  predicate TakesEmail(env: Env, run: seq<Call>, n: int, email: string) {
    0 <= n < |run| && run[n].Registers? && NormalizeEmail(env, run[n].register.email) == email
  }

  predicate TakesSlug(env: Env, run: seq<Call>, n: int, slug: string) {
    0 <= n < |run| && run[n].Registers? && NormalizeSlug(env, run[n].register.slug) == slug
  }

  predicate TakesUser(run: seq<Call>, n: int, user: Id) {
    0 <= n < |run| && run[n].Registers? && run[n].register.user == user
  }

  predicate TakesOrg(run: seq<Call>, n: int, org: Id) {
    0 <= n < |run| && run[n].Registers? && run[n].register.org == org
  }

  ghost predicate EmailUsed(env: Env, run: seq<Call>, k: nat, email: string) {
    exists n :: n < k && TakesEmail(env, run, n, email)
  }

  ghost predicate SlugUsed(env: Env, run: seq<Call>, k: nat, slug: string) {
    exists n :: n < k && TakesSlug(env, run, n, slug)
  }

  ghost predicate UserUsed(run: seq<Call>, k: nat, user: Id) {
    exists n :: n < k && TakesUser(run, n, user)
  }

  ghost predicate OrgUsed(run: seq<Call>, k: nat, org: Id) {
    exists n :: n < k && TakesOrg(run, n, org)
  }

  ghost predicate NamesKnown(env: Env, run: seq<Call>, k: nat, emails: set<string>, slugs: set<string>) {
    && (forall e :: e in emails <==> EmailUsed(env, run, k, e))
    && (forall s :: s in slugs <==> SlugUsed(env, run, k, s))
  }

  ghost predicate IdsKnown(run: seq<Call>, k: nat, users: set<Id>, orgs: set<Id>) {
    && (forall u :: u in users <==> UserUsed(run, k, u))
    && (forall o :: o in orgs <==> OrgUsed(run, k, o))
  }

  /** The unique columns of users and organizations hold exactly what the registrations so far have put there. */
  ghost predicate Directory(env: Env, run: seq<Call>, k: nat, t: Tables) {
    NamesKnown(env, run, k, t.emails.Keys, t.slugs.Keys) && IdsKnown(run, k, t.users.Keys, t.orgs.Keys)
  }

  lemma NamesNext(env: Env, run: seq<Call>, k: nat, emails: set<string>, slugs: set<string>)
    requires k < |run| && NamesKnown(env, run, k, emails, slugs)
    ensures run[k].Registers? ==>
              NamesKnown(env, run, k + 1, emails + {NormalizeEmail(env, run[k].register.email)},
                         slugs + {NormalizeSlug(env, run[k].register.slug)})
    ensures !run[k].Registers? ==> NamesKnown(env, run, k + 1, emails, slugs)
  {
    hide NormalizeEmail, NormalizeSlug;
    forall e
      ensures EmailUsed(env, run, k + 1, e) <==> EmailUsed(env, run, k, e) || TakesEmail(env, run, k, e)
      ensures SlugUsed(env, run, k + 1, e) <==> SlugUsed(env, run, k, e) || TakesSlug(env, run, k, e)
    {}
  }

  lemma IdsNext(run: seq<Call>, k: nat, users: set<Id>, orgs: set<Id>)
    requires k < |run| && IdsKnown(run, k, users, orgs)
    ensures run[k].Registers? ==>
              IdsKnown(run, k + 1, users + {run[k].register.user}, orgs + {run[k].register.org})
    ensures !run[k].Registers? ==> IdsKnown(run, k + 1, users, orgs)
  {
    forall i
      ensures UserUsed(run, k + 1, i) <==> UserUsed(run, k, i) || TakesUser(run, k, i)
      ensures OrgUsed(run, k + 1, i) <==> OrgUsed(run, k, i) || TakesOrg(run, k, i)
    {}
  }

  /** The columns after a registration, or after any other call. */
  ghost predicate Grown(env: Env, t: Tables, call: Call, t': Tables) {
    if call.Registers? then
      && t'.emails.Keys == t.emails.Keys + {NormalizeEmail(env, call.register.email)}
      && t'.slugs.Keys == t.slugs.Keys + {NormalizeSlug(env, call.register.slug)}
      && t'.users.Keys == t.users.Keys + {call.register.user}
      && t'.orgs.Keys == t.orgs.Keys + {call.register.org}
    else
      t'.emails == t.emails && t'.slugs == t.slugs && t'.users.Keys == t.users.Keys && t'.orgs == t.orgs
  }

  lemma RegisterGrows(env: Env, t: Tables, i: RegisterIn)
    requires Register(env, t, i).Ok?
    ensures Grown(env, t, Registers(i), Register(env, t, i).value.0)
  {
    hide Register, Enroll, NormalizeEmail, NormalizeSlug, Password.HashPassword, ValidRegistration;
    var email, slug, hash := RegisterShape(env, t, i);
  }

  lemma ColumnsGrow(env: Env, t: Tables, call: Call)
    requires Agreed(t) && Effect(env, t, call).Some?
    ensures Grown(env, t, call, Effect(env, t, call).value)
  {
    hide Agreed, Register;
    if call.Registers? {
      hide Grown;
      RegisterGrows(env, t, call.register);
    } else {
      hide Effect;
      Frame(env, t, call);
      AgreedStep(env, t, call);
    }
  }

  lemma DirectoryStep(env: Env, run: seq<Call>, k: nat, t: Tables, t': Tables)
    requires k < |run| && Directory(env, run, k, t) && Grown(env, t, run[k], t')
    ensures Directory(env, run, k + 1, t')
  {
    hide NamesKnown, IdsKnown, NormalizeEmail, NormalizeSlug;
    NamesNext(env, run, k, t.emails.Keys, t.slugs.Keys);
    IdsNext(run, k, t.users.Keys, t.orgs.Keys);
  }

  lemma NobodyYet(env: Env, run: seq<Call>)
    ensures Directory(env, run, 0, EMPTY)
  {}

  lemma SoundAgreed(t: Tables)
    requires Sound(t)
    ensures Agreed(t) && MembersAgree(t.members, t.orgs.Keys, t.users.Keys) && UsersAgree(t.users, t.emails)
  {
    hide MembersAgree, UsersAgree;
  }

  lemma {:induction false} DirectoryAlways(env: Env, run: seq<Call>, ts: seq<Tables>, k: nat)
    requires History(env, run, ts) && k <= |run|
    ensures Directory(env, run, k, ts[k])
  {
    hide Effect, Sound, Agreed, Directory, Grown;
    if k == 0 {
      NobodyYet(env, run);
    } else {
      DirectoryAlways(env, run, ts, k - 1);
      AlwaysSound(env, run, ts, k - 1);
      SoundAgreed(ts[k - 1]);
      At(env, run, ts, k - 1);
      ColumnsGrow(env, ts[k - 1], run[k - 1]);
      DirectoryStep(env, run, k - 1, ts[k - 1], ts[k]);
    }
  }

  // Registering

  /** The input a registration asks for: an address the parser takes, ten bytes of password, two names that are not
      blank, and a slug of lower-case Latin letters, digits and '-'. */
  predicate GoodInput(env: Env, i: RegisterIn) {
    var slug := NormalizeSlug(env, i.slug);
    && env.validEmail(NormalizeEmail(env, i.email))
    && |i.password| >= 10
    && TrimSpace(i.displayName) != "" && TrimSpace(i.orgName) != ""
    && slug != "" && forall c :: c in slug ==> 97 <= c as int <= 122 || 48 <= c as int <= 57 || c as int == 45
  }

  lemma GoodInputs(env: Env, i: RegisterIn)
    ensures ValidRegistration(env, i) <==> GoodInput(env, i)
  {
    hide NormalizeSlug, NormalizeEmail, TrimSpace, ValidSlug;
    SlugAlphabet(NormalizeSlug(env, i.slug));
  }

  /** What a registration does: the account, its organization, the owner's membership, a first session, one entry. */
  ghost predicate Enrolled(env: Env, t: Tables, i: RegisterIn, t': Tables) {
    var email, slug, f := NormalizeEmail(env, i.email), NormalizeSlug(env, i.slug), i.session;
    var hash := Password.HashPassword(env, i.password, i.salt);
    t' == t.(users := t.users[i.user := User(email, hash, [])],
             emails := t.emails[email := i.user],
             orgs := t.orgs[i.org := slug],
             slugs := t.slugs[slug := i.org],
             members := t.members[(i.org, i.user) := "owner"],
             tokens := t.tokens[f.tokenId :=
               Row(i.user, env.refreshHash(f.raw), f.issuedAt + env.refreshTtl, None, None, None)],
             tokenHashes := t.tokenHashes[env.refreshHash(f.raw) := f.tokenId],
             audit := t.audit + [Audit(Some(i.org), "user", Some(i.user), None, AuthRegister(slug), i.user)])
  }

  /** A registration in full: bad input, an address or an organization name that an earlier registration of the run has
      taken in any spelling, or a collision of random values, in this order; otherwise it succeeds. */
  lemma RegisterExactly(env: Env, run: seq<Call>, ts: seq<Tables>, k: nat, i: RegisterIn)
    requires History(env, run, ts) && k <= |run|
    ensures
      var t, r := ts[k], Register(env, ts[k], i);
      if !GoodInput(env, i) then r == Err(InvalidInput)
      else if EmailUsed(env, run, k, NormalizeEmail(env, i.email)) || UserUsed(run, k, i.user)
      then r == Err(EmailTaken)
      else if SlugUsed(env, run, k, NormalizeSlug(env, i.slug)) || OrgUsed(run, k, i.org)
      then r == Err(OrganizationSlugTaken)
      else if i.session.tokenId in t.tokens || env.refreshHash(i.session.raw) in t.tokenHashes
      then r == Err(Internal)
      else r.Ok? && Enrolled(env, t, i, r.value.0)
  {
    hide Effect, Sound, Agreed, EmailUsed, SlugUsed, UserUsed, OrgUsed, NormalizeEmail, NormalizeSlug,
        ValidRegistration, GoodInput, Password.HashPassword, MembersAgree, UsersAgree;
    DirectoryAlways(env, run, ts, k);
    AlwaysSound(env, run, ts, k);
    SoundAgreed(ts[k]);
    GoodInputs(env, i);
    StrangersAreNoMembers(ts[k], i.org, i.user);
  }

  lemma StrangersAreNoMembers(t: Tables, org: Id, user: Id)
    requires MembersAgree(t.members, t.orgs.Keys, t.users.Keys)
    ensures user !in t.users ==> (org, user) !in t.members
  {}

  // Logging in

  /** An address no registration has used, in any spelling, is refused like a wrong password. */
  lemma UnknownAddress(env: Env, run: seq<Call>, ts: seq<Tables>, k: nat, i: LoginIn)
    requires History(env, run, ts) && k <= |run| && !EmailUsed(env, run, k, NormalizeEmail(env, i.email))
    ensures Login(env, ts[k], i) ==
            Err(if NormalizeEmail(env, i.email) == "" || i.password == [] then InvalidInput else InvalidCredentials)
  {
    hide Effect, EmailUsed, SlugUsed, UserUsed, OrgUsed, NormalizeEmail;
    DirectoryAlways(env, run, ts, k);
  }

  /** Nobody is registered at the empty address. */
  lemma NobodyAtBlank(env: Env, run: seq<Call>, ts: seq<Tables>, k: nat)
    requires !env.validEmail("") && History(env, run, ts) && k <= |run|
    ensures UserByEmail(ts[k], "").None?
  {
    hide Effect, SlugUsed, UserUsed, OrgUsed, NormalizeEmail;
    DirectoryAlways(env, run, ts, k);
    if n :| n < k && TakesEmail(env, run, n, "") {
      At(env, run, ts, n);
      AccountCreated(env, ts[n], run[n]);
    }
  }

  /** What a login does: one session and one entry. */
  ghost predicate LoggedIn(env: Env, t: Tables, user: Id, i: LoginIn, t': Tables) {
    var f := i.session;
    t' == t.(tokens := t.tokens[f.tokenId :=
               Row(user, env.refreshHash(f.raw), f.issuedAt + env.refreshTtl, None, None, None)],
             tokenHashes := t.tokenHashes[env.refreshHash(f.raw) := f.tokenId],
             audit := t.audit + [Audit(None, "user", Some(user), None, AuthLogin, user)])
  }

  lemma LoginDoes(env: Env, t: Tables, i: LoginIn)
    requires Login(env, t, i).Ok?
    ensures
      var user := UserByEmail(t, NormalizeEmail(env, i.email));
      user.Some? && LoggedIn(env, t, user.value, i, Login(env, t, i).value.0)
  {
    hide Login, NormalizeEmail, Password.VerifyPassword, TotpCheck, CanIssue;
    var user := LoginShape(env, t, i);
  }

  /** A secret of the user has been verified and stands, and the text is no right code of it. */
  ghost predicate Lacks(env: Env, run: seq<Call>, user: Id, code: string, now: int) {
    exists n :: TotpLife.Stands(run, n, user) && TotpLife.EverVerified(env, run, n, user)
                && !TotpAnswers.RightCode(env, run[n].setup.random, code, now)
  }

  /** A login in full. The account of call n, at any later point, under any spelling of its address: with a password
      that gives its Argon2 output, and a right code if a secret stands verified, it succeeds, and otherwise it
      does not; only a collision of the random values of the session is left. */
  lemma LoginExactly(env: Env, run: seq<Call>, ts: seq<Tables>, n: nat, k: nat, i: LoginIn)
    requires env.ArgonLength() && !env.validEmail("") && env.Decrypts() && env.CaseMapping() && i.now >= 0
    requires History(env, run, ts) && n < k <= |run| && run[n].Registers?
    requires i.password != [] && NormalizeEmail(env, i.email) == NormalizeEmail(env, run[n].register.email)
    ensures
      var t, account, r := ts[k], run[n].register, Login(env, ts[k], i);
      if !Password.SameOutput(env, i.password, account.password, account.salt) then r == Err(InvalidCredentials)
      else if Lacks(env, run[..k], account.user, i.code, i.now)
      then r == Err(if TrimSpace(i.code) == "" then TotpRequired else TotpInvalid)
      else if i.session.tokenId in t.tokens || env.refreshHash(i.session.raw) in t.tokenHashes
      then r == Err(Internal)
      else r.Ok? && r.value.1.user == account.user && LoggedIn(env, t, account.user, i, r.value.0)
  {
    hide Effect, NormalizeEmail, Password.SameOutput, TotpCheck, Login, LoggedIn, Lacks, TrimSpace;
    RegisteredAccount(env, run, ts, n, k);
    LoginToAccount(env, run, ts, n, k, i);
    CheckedCode(env, run, ts, k, run[n].register.user, i.code, i.now);
    if Login(env, ts[k], i).Ok? {
      LoginDoes(env, ts[k], i);
    }
  }

  lemma CheckedCode(env: Env, run: seq<Call>, ts: seq<Tables>, k: nat, user: Id, code: string, now: int)
    requires env.Decrypts() && env.CaseMapping() && now >= 0 && History(env, run, ts) && k <= |run|
    ensures TotpCheck(env, ts[k], user, code, now) ==
            if !Lacks(env, run[..k], user, code, now) then None
            else Some(if TrimSpace(code) == "" then TotpRequired else TotpInvalid)
  {
    hide Effect, TotpCheck, TrimSpace, TotpLife.EverVerified, TotpAnswers.RightCode;
    var current := TotpLife.CurrentSetup(run[..k], user);
    forall n: nat {
      TotpLife.CurrentStands(run[..k], user, n);
    }
    if current.Some? {
      TotpAnswers.LoginOnClock(env, run, ts, k, current.value, user, code, now);
      BlankIsWrong(env, run[current.value].setup.random, code, now);
    } else {
      TotpAnswers.NothingStanding(env, run, ts, k, user, code, now);
    }
  }

  lemma BlankIsWrong(env: Env, key: seq<byte>, code: string, now: int)
    ensures TrimSpace(code) == "" ==> !TotpAnswers.RightCode(env, key, code, now)
  {
    hide TrimSpace;
  }
}
