/** What each committed call leaves alone, and the audit entry it writes. */
module Frames {
  import opened Wrappers
  import opened Environment
  import opened Tokens
  import opened Tables
  import opened Calls
  import opened Ceremonies
  import opened Runs
  import opened Shapes
  import Naming
  import Password

  predicate IsCeremony(call: Call) {
    call.BeginsRegistration? || call.FinishesRegistration? || call.PlantsHandle? || call.BeginsLogin?
        || call.FinishesLogin?
  }

  predicate IssuesSession(call: Call) {
    call.Registers? || call.LogsIn? || call.FinishesLogin?
  }

  predicate IsTotp(call: Call) {
    call.SetsUpTotp? || call.EnablesTotp? || call.DisablesTotp?
  }

  /** The tables a call cannot touch are the same after it. */
  predicate Framed(t: Tables, t': Tables, call: Call) {
    && (!call.Registers? && !IsCeremony(call) ==> t'.users == t.users && t'.handles == t.handles)
    && (!call.Registers? ==> t'.emails == t.emails && t'.orgs == t.orgs && t'.slugs == t.slugs)
    && (!call.Registers? && !call.AddsMember? && !call.ChangesRole? ==> t'.members == t.members)
    && (!IssuesSession(call) && !call.Refreshes? ==> t'.tokens == t.tokens && t'.tokenHashes == t.tokenHashes)
    && (!call.CreatesKey? ==> t'.prefixes == t.prefixes && t'.keyHashes == t.keyHashes)
    && (!call.CreatesKey? && !call.RevokesKey? ==> t'.keys == t.keys)
    && (!IsTotp(call) ==> t'.totp == t.totp)
    && (!call.FinishesRegistration? && !call.FinishesLogin? ==> t'.passkeys == t.passkeys)
    && (!IsCeremony(call) ==> t'.ceremonies == t.ceremonies)
  }

  /** A call that only begins a ceremony. */
  predicate Begins(call: Call) {
    call.BeginsRegistration? || call.PlantsHandle? || call.BeginsLogin?
  }

  /** Every committed call appends exactly one audit entry, of its own kind, except those that
      only begin a ceremony. */
  predicate Audited(t: Tables, t': Tables, call: Call) {
    if Begins(call) then t'.audit == t.audit
    else t'.audit != [] && t'.audit == t.audit + [Entry(t')] && Kind(call, Entry(t').action)
  }

  function Entry(t: Tables): Audit
    requires t.audit != []
  {
    t.audit[|t.audit| - 1]
  }

  predicate Kind(call: Call, action: Action) {
    match call
    case Registers(_) => action.AuthRegister?
    case LogsIn(_) => action == AuthLogin
    case Refreshes(_) => action == AuthRefresh
    case SetsUpTotp(_) => action == TotpSetup
    case EnablesTotp(_) => action == TotpEnable
    case DisablesTotp(_) => action == TotpDisable
    case AddsMember(_, _) => action.MembershipCreate?
    case ChangesRole(_, _) => action.MembershipUpdateRole?
    case CreatesKey(_, _) => action.ApiKeyCreate?
    case RevokesKey(_, _) => action.ApiKeyRevoke?
    case FinishesRegistration(_, _) => action.WebAuthnRegister?
    case FinishesLogin(_) => action.WebAuthnLogin?
    case _ => false
  }

  /** Two table states that differ only in these fields frame a ceremony. */
  lemma FrameCeremony(t: Tables, t1: Tables, t': Tables, call: Call)
    requires t1 == t.(users := t1.users, handles := t1.handles) && Begins(call)
    requires t' == t1.(ceremonies := t'.ceremonies)
    ensures Framed(t, t', call)
    ensures Audited(t, t', call)
  {}

  lemma FrameSession(env: Env, t: Tables, user: Id, f: Fresh, entry: Audit, call: Call)
    requires (IssuesSession(call) || call.Refreshes?) && !IsCeremony(call) && Kind(call, entry.action)
    ensures
      var t' := WithSession(env, t, user, f).(audit := t.audit + [entry]);
      Framed(t, t', call) && Audited(t, t', call)
  {}

  lemma FrameFinish(t: Tables, t1: Tables, t': Tables, entry: Audit, call: Call)
    requires t1 == t.(users := t1.users, handles := t1.handles)
    requires call.FinishesRegistration? || call.FinishesLogin?
    requires call.FinishesRegistration? ==> t'.tokens == t.tokens && t'.tokenHashes == t.tokenHashes
    requires Kind(call, entry.action)
    requires t' == t1.(tokens := t'.tokens, tokenHashes := t'.tokenHashes, passkeys := t'.passkeys,
        ceremonies := t'.ceremonies,
                       audit := t.audit + [entry])
    ensures Framed(t, t', call)
    ensures Audited(t, t', call)
  {}

  lemma FrameRegister(env: Env, t: Tables, i: RegisterIn)
    requires Register(env, t, i).Ok?
    ensures Framed(t, Register(env, t, i).value.0, Registers(i))
    ensures Audited(t, Register(env, t, i).value.0, Registers(i))
  {
    hide Register, Enroll, ValidRegistration, Naming.NormalizeEmail, Naming.NormalizeSlug, Password.HashPassword;
    var email, slug, hash := RegisterShape(env, t, i);
  }

  lemma FrameLogin(env: Env, t: Tables, i: LoginIn)
    requires Login(env, t, i).Ok?
    ensures Framed(t, Login(env, t, i).value.0, LogsIn(i))
    ensures Audited(t, Login(env, t, i).value.0, LogsIn(i))
  {
    hide TotpCheck, Password.VerifyPassword, Naming.NormalizeEmail, WithSession;
    hide Login;
    var user := LoginShape(env, t, i);
    FrameSession(env, t, user, i.session, UserAudit(user, AuthLogin, user), LogsIn(i));
  }

  lemma FrameRefresh(env: Env, t: Tables, i: RefreshIn)
    requires Refresh(env, t, i).Ok?
    ensures Framed(t, Refresh(env, t, i).value.0, Refreshes(i))
    ensures Audited(t, Refresh(env, t, i).value.0, Refreshes(i))
  {
    hide Refresh;
    var id := RefreshShape(env, t, i);
  }

  lemma FrameSetup(env: Env, t: Tables, i: SetupIn)
    requires SetupTotp(env, t, i).Ok?
    ensures Framed(t, SetupTotp(env, t, i).value.0, SetsUpTotp(i))
    ensures Audited(t, SetupTotp(env, t, i).value.0, SetsUpTotp(i))
  {}

  lemma FrameEnable(env: Env, t: Tables, i: CodeIn)
    requires Calls.EnableTotp(env, t, i).Ok?
    ensures Framed(t, Calls.EnableTotp(env, t, i).value.0, EnablesTotp(i))
    ensures Audited(t, Calls.EnableTotp(env, t, i).value.0, EnablesTotp(i))
  {}

  lemma FrameDisable(env: Env, t: Tables, i: CodeIn)
    requires DisableTotp(env, t, i).Ok?
    ensures Framed(t, DisableTotp(env, t, i).value.0, DisablesTotp(i))
    ensures Audited(t, DisableTotp(env, t, i).value.0, DisablesTotp(i))
  {}

  lemma FrameAdd(env: Env, t: Tables, p: Principal, i: AddIn)
    requires AddMembership(env, t, p, i).Ok?
    ensures Framed(t, AddMembership(env, t, p, i).value.0, AddsMember(p, i))
    ensures Audited(t, AddMembership(env, t, p, i).value.0, AddsMember(p, i))
  {
    hide AddMembership;
    var org, user := AddShape(env, t, p, i);
  }

  lemma FrameChange(env: Env, t: Tables, p: Principal, i: UpdateIn)
    requires UpdateMembership(env, t, p, i).Ok?
    ensures Framed(t, UpdateMembership(env, t, p, i).value.0, ChangesRole(p, i))
    ensures Audited(t, UpdateMembership(env, t, p, i).value.0, ChangesRole(p, i))
  {
    hide UpdateMembership;
    var org, user := ChangeShape(env, t, p, i);
  }

  lemma FrameCreateKey(env: Env, t: Tables, p: Principal, i: CreateKeyIn)
    requires Calls.CreateApiKey(env, t, p, i).Ok?
    ensures Framed(t, Calls.CreateApiKey(env, t, p, i).value.0, CreatesKey(p, i))
    ensures Audited(t, Calls.CreateApiKey(env, t, p, i).value.0, CreatesKey(p, i))
  {
    var key := CreateKeyShape(env, t, p, i);
  }

  lemma FrameRevokeKey(env: Env, t: Tables, p: Principal, i: RevokeKeyIn)
    requires Calls.RevokeApiKey(env, t, p, i).Ok?
    ensures Framed(t, Calls.RevokeApiKey(env, t, p, i).value.0, RevokesKey(p, i))
    ensures Audited(t, Calls.RevokeApiKey(env, t, p, i).value.0, RevokesKey(p, i))
  {
    hide Calls.RevokeApiKey;
    var id := RevokeKeyShape(env, t, p, i);
  }

  lemma FrameBeginRegistration(env: Env, t: Tables, p: Principal, i: BeginIn)
    requires BeginRegistration(env, t, p, i).Ok?
    ensures Framed(t, BeginRegistration(env, t, p, i).value.0, BeginsRegistration(p, i))
    ensures Audited(t, BeginRegistration(env, t, p, i).value.0, BeginsRegistration(p, i))
  {
    hide BeginRegistration;
    var user, c := BeginRegistrationShape(env, t, p, i);
    HandleShape(t, user, i.handle);
    FrameCeremony(t, WithHandle(t, user, i.handle).value, BeginRegistration(env, t, p, i).value.0,
        BeginsRegistration(p, i));
  }

  lemma FrameFinishRegistration(env: Env, t: Tables, p: Principal, i: FinishIn)
    requires FinishRegistration(env, t, p, i).Ok?
    ensures Framed(t, FinishRegistration(env, t, p, i).value.0, FinishesRegistration(p, i))
    ensures Audited(t, FinishRegistration(env, t, p, i).value.0, FinishesRegistration(p, i))
  {
    hide FinishRegistration;
    var user, ceremony, c := FinishRegistrationShape(env, t, p, i);
    HandleShape(t, user, i.handle);
    FrameFinish(t, WithHandle(t, user, i.handle).value, FinishRegistration(env, t, p, i).value.0,
                UserAudit(user, WebAuthnRegister(c.id), i.row), FinishesRegistration(p, i));
  }

  lemma FramePlant(env: Env, t: Tables, email: string, handle: Handle)
    ensures Framed(t, Planted(env, t, email, handle), PlantsHandle(email, handle))
    ensures Planted(env, t, email, handle).audit == t.audit
  {
    PlantShape(env, t, email, handle);
    if Planted(env, t, email, handle) != t {
      var user :| WithHandle(t, user, handle) == Some(Planted(env, t, email, handle));
      HandleShape(t, user, handle);
    }
  }

  lemma FrameBeginLogin(env: Env, t: Tables, email: string, i: BeginIn)
    requires BeginLogin(env, t, email, i).Ok?
    ensures Framed(t, BeginLogin(env, t, email, i).value.0, BeginsLogin(email, i))
    ensures Audited(t, BeginLogin(env, t, email, i).value.0, BeginsLogin(email, i))
  {
    hide BeginLogin;
    var user, c := BeginLoginShape(env, t, email, i);
    HandleShape(t, user, i.handle);
    FrameCeremony(t, WithHandle(t, user, i.handle).value, BeginLogin(env, t, email, i).value.0, BeginsLogin(email, i));
  }

  lemma FrameFinishLogin(env: Env, t: Tables, i: FinishIn)
    requires FinishLogin(env, t, i).Ok?
    ensures Framed(t, FinishLogin(env, t, i).value.0, FinishesLogin(i))
    ensures Audited(t, FinishLogin(env, t, i).value.0, FinishesLogin(i))
  {
    hide FinishLogin;
    var user, ceremony, cs := FinishLoginShape(env, t, i);
    HandleShape(t, user, i.handle);
    var t1 := WithHandle(t, user, i.handle).value;
    var user', c, row := ValidatedShape(env, t1, ceremony, cs, i);
    FrameFinish(t, t1, FinishLogin(env, t, i).value.0, UserAudit(user', WebAuthnLogin(row.credentialId), row.id),
        FinishesLogin(i));
  }

  lemma Frame(env: Env, t: Tables, call: Call)
    requires Effect(env, t, call).Some?
    ensures Framed(t, Effect(env, t, call).value, call)
    ensures Audited(t, Effect(env, t, call).value, call)
  {
    match call
    case Registers(i) => FrameRegister(env, t, i);
    case LogsIn(i) => FrameLogin(env, t, i);
    case Refreshes(i) => FrameRefresh(env, t, i);
    case SetsUpTotp(i) => FrameSetup(env, t, i);
    case EnablesTotp(i) => FrameEnable(env, t, i);
    case DisablesTotp(i) => FrameDisable(env, t, i);
    case AddsMember(p, i) => FrameAdd(env, t, p, i);
    case ChangesRole(p, i) => FrameChange(env, t, p, i);
    case CreatesKey(p, i) => FrameCreateKey(env, t, p, i);
    case RevokesKey(p, i) => FrameRevokeKey(env, t, p, i);
    case BeginsRegistration(p, i) => FrameBeginRegistration(env, t, p, i);
    case FinishesRegistration(p, i) => FrameFinishRegistration(env, t, p, i);
    case PlantsHandle(email, handle) => FramePlant(env, t, email, handle);
    case BeginsLogin(email, i) => FrameBeginLogin(env, t, email, i);
    case FinishesLogin(i) => FrameFinishLogin(env, t, i);
  }
}
