/** The references between the tables: every row that names a user, an organization or a key names one
    that exists, and the passkeys' unique columns stay unique. */
module References {
  import opened Wrappers
  import opened Text
  import opened Environment
  import opened Naming
  import opened Tokens
  import opened Tables
  import opened Calls
  import opened Ceremonies
  import opened Runs
  import opened Shapes
  import opened Frames
  import Password
  import Totp

  /** The two unique columns of the passkeys. */
  predicate Unmixed(rows: seq<Passkey>) {
    forall i, j :: 0 <= i < j < |rows| ==> rows[i].id != rows[j].id && rows[i].credentialId != rows[j].credentialId
  }

  ghost predicate PasskeysRefer(rows: seq<Passkey>, users: set<Id>) {
    Unmixed(rows) && forall i :: 0 <= i < |rows| ==> rows[i].user in users
  }

  ghost predicate CeremoniesRefer(ceremonies: map<Id, Ceremony>, users: set<Id>) {
    forall c :: c in ceremonies ==> ceremonies[c].user in users
  }

  ghost predicate AuditRefers(t: Tables) {
    forall i :: 0 <= i < |t.audit| ==> Attributable(t, t.audit[i])
  }

  ghost predicate Referential(t: Tables) {
    && t.totp.Keys <= t.users.Keys
    && PasskeysRefer(t.passkeys, t.users.Keys)
    && CeremoniesRefer(t.ceremonies, t.users.Keys)
    && AuditRefers(t)
  }

  /** Nothing a row can refer to disappears. */
  predicate Grows(t: Tables, t': Tables) {
    t.users.Keys <= t'.users.Keys && t.orgs.Keys <= t'.orgs.Keys && t.keys.Keys <= t'.keys.Keys
  }

  // TOTP

  lemma TotpCallRefers(env: Env, t: Tables, call: Call)
    requires Effect(env, t, call).Some? && IsTotp(call) && t.totp.Keys <= t.users.Keys
    ensures Effect(env, t, call).value.totp.Keys <= t.users.Keys
  {
    hide SetupTotp, Calls.EnableTotp, DisableTotp, Totp.Accepts, Totp.SecretText;
    match call
    case SetsUpTotp(i) => var user := SetupShape(env, t, i);
    case EnablesTotp(i) => var user, secret := EnableShape(env, t, i);
    case DisablesTotp(i) => var user, secret := DisableShape(env, t, i);
  }

  lemma TotpRefers(env: Env, t: Tables, call: Call)
    requires Effect(env, t, call).Some? && t.totp.Keys <= t.users.Keys
    ensures Effect(env, t, call).value.totp.Keys <= t.users.Keys
  {
    hide Effect;
    if IsTotp(call) {
      TotpCallRefers(env, t, call);
    } else {
      Frame(env, t, call);
    }
  }

  // Passkeys

  lemma NewPasskeyRefers(rows: seq<Passkey>, users: set<Id>, p: Passkey)
    requires PasskeysRefer(rows, users) && !PasskeyTaken(rows, p.id, p.credentialId) && p.user in users
    ensures PasskeysRefer(rows + [p], users)
  {}

  lemma ResealedRefers(rows: seq<Passkey>, users: set<Id>, id: Id, ciphertext: seq<byte>, nonce: Nonce)
    requires PasskeysRefer(rows, users)
    ensures PasskeysRefer(Resealed(rows, id, ciphertext, nonce), users)
  {}

  lemma RegistrationRefers(env: Env, t: Tables, p: Principal, i: FinishIn)
    requires FinishRegistration(env, t, p, i).Ok? && PasskeysRefer(t.passkeys, t.users.Keys)
    ensures PasskeysRefer(FinishRegistration(env, t, p, i).value.0.passkeys, t.users.Keys)
  {
    hide FinishRegistration, PasskeysRefer, PasskeyTaken;
    var user, ceremony, c := FinishRegistrationShape(env, t, p, i);
    HandleShape(t, user, i.handle);
    NewPasskeyRefers(t.passkeys, t.users.Keys, Sealed(env, i.row, user, c, i.nonce));
  }

  lemma LoginRefers(env: Env, t: Tables, i: FinishIn)
    requires FinishLogin(env, t, i).Ok? && PasskeysRefer(t.passkeys, t.users.Keys)
    ensures PasskeysRefer(FinishLogin(env, t, i).value.0.passkeys, t.users.Keys)
  {
    hide FinishLogin, Validated, WithHandle, OpenAll, Index, PasskeysOf, PasskeysRefer, Resealed;
    var user, ceremony, cs := FinishLoginShape(env, t, i);
    HandleShape(t, user, i.handle);
    var user', c, row := ValidatedShape(env, WithHandle(t, user, i.handle).value, ceremony, cs, i);
    ResealedRefers(t.passkeys, t.users.Keys, row.id, env.encrypt(env.marshal(c), i.nonce), i.nonce);
  }

  lemma PasskeysStep(env: Env, t: Tables, call: Call)
    requires Effect(env, t, call).Some? && PasskeysRefer(t.passkeys, t.users.Keys)
    ensures PasskeysRefer(Effect(env, t, call).value.passkeys, t.users.Keys)
  {
    hide PasskeysRefer, FinishRegistration, FinishLogin;
    match call
    case FinishesRegistration(p, i) => RegistrationRefers(env, t, p, i);
    case FinishesLogin(i) => LoginRefers(env, t, i);
    case _ =>
      hide Effect;
      Frame(env, t, call);
  }

  // Ceremonies

  lemma BeginRegistrationRefers(env: Env, t: Tables, p: Principal, i: BeginIn)
    requires BeginRegistration(env, t, p, i).Ok? && CeremoniesRefer(t.ceremonies, t.users.Keys)
    ensures CeremoniesRefer(BeginRegistration(env, t, p, i).value.0.ceremonies, t.users.Keys)
  {
    hide BeginRegistration;
    var user, c := BeginRegistrationShape(env, t, p, i);
    HandleShape(t, user, i.handle);
  }

  lemma BeginLoginRefers(env: Env, t: Tables, email: string, i: BeginIn)
    requires BeginLogin(env, t, email, i).Ok? && CeremoniesRefer(t.ceremonies, t.users.Keys)
    ensures CeremoniesRefer(BeginLogin(env, t, email, i).value.0.ceremonies, t.users.Keys)
  {
    hide BeginLogin, NormalizeEmail;
    var user, c := BeginLoginShape(env, t, email, i);
    HandleShape(t, user, i.handle);
  }

  lemma FinishRegistrationRefers(env: Env, t: Tables, p: Principal, i: FinishIn)
    requires FinishRegistration(env, t, p, i).Ok? && CeremoniesRefer(t.ceremonies, t.users.Keys)
    ensures CeremoniesRefer(FinishRegistration(env, t, p, i).value.0.ceremonies, t.users.Keys)
  {
    hide FinishRegistration, WithHandle, Sealed;
    var user, ceremony, c := FinishRegistrationShape(env, t, p, i);
  }

  lemma FinishLoginRefers(env: Env, t: Tables, i: FinishIn)
    requires FinishLogin(env, t, i).Ok? && CeremoniesRefer(t.ceremonies, t.users.Keys)
    ensures CeremoniesRefer(FinishLogin(env, t, i).value.0.ceremonies, t.users.Keys)
  {
    hide FinishLogin, Validated, WithHandle, OpenAll, Index, PasskeysOf, Resealed;
    var user, ceremony, cs := FinishLoginShape(env, t, i);
    HandleShape(t, user, i.handle);
    var user', c, row := ValidatedShape(env, WithHandle(t, user, i.handle).value, ceremony, cs, i);
  }

  lemma PlantKeepsCeremonies(env: Env, t: Tables, email: string, handle: Handle)
    ensures Planted(env, t, email, handle).ceremonies == t.ceremonies
  {
    hide Planted, WithHandle;
    PlantShape(env, t, email, handle);
    if Planted(env, t, email, handle) != t {
      var user :| WithHandle(t, user, handle) == Some(Planted(env, t, email, handle));
      HandleShape(t, user, handle);
    }
  }

  lemma CeremonyRefers(env: Env, t: Tables, call: Call)
    requires Effect(env, t, call).Some? && IsCeremony(call) && CeremoniesRefer(t.ceremonies, t.users.Keys)
    ensures CeremoniesRefer(Effect(env, t, call).value.ceremonies, t.users.Keys)
  {
    hide CeremoniesRefer, BeginRegistration, FinishRegistration, BeginLogin, FinishLogin, Planted;
    match call
    case BeginsRegistration(p, i) => BeginRegistrationRefers(env, t, p, i);
    case BeginsLogin(email, i) => BeginLoginRefers(env, t, email, i);
    case FinishesRegistration(p, i) => FinishRegistrationRefers(env, t, p, i);
    case FinishesLogin(i) => FinishLoginRefers(env, t, i);
    case PlantsHandle(email, handle) => PlantKeepsCeremonies(env, t, email, handle);
  }

  lemma CeremoniesStep(env: Env, t: Tables, call: Call)
    requires Effect(env, t, call).Some? && CeremoniesRefer(t.ceremonies, t.users.Keys)
    ensures CeremoniesRefer(Effect(env, t, call).value.ceremonies, t.users.Keys)
  {
    hide Effect, CeremoniesRefer;
    if IsCeremony(call) {
      CeremonyRefers(env, t, call);
    } else {
      Frame(env, t, call);
    }
  }

  // The audit log

  predicate EntryRefers(t': Tables) {
    t'.audit != [] && Attributable(t', Entry(t'))
  }

  lemma RegisterEntry(env: Env, t: Tables, i: RegisterIn)
    requires Register(env, t, i).Ok?
    ensures EntryRefers(Register(env, t, i).value.0)
  {
    hide Register, Enroll, ValidRegistration, NormalizeEmail, NormalizeSlug, Password.HashPassword;
    var email, slug, hash := RegisterShape(env, t, i);
  }

  lemma LoginEntry(env: Env, t: Tables, i: LoginIn)
    requires Login(env, t, i).Ok?
    ensures EntryRefers(Login(env, t, i).value.0)
  {
    hide Login, TotpCheck, NormalizeEmail, Password.VerifyPassword;
    var user := LoginShape(env, t, i);
  }

  lemma RefreshEntry(env: Env, t: Tables, i: RefreshIn)
    requires Refresh(env, t, i).Ok?
    ensures EntryRefers(Refresh(env, t, i).value.0)
  {
    hide Refresh;
    var id := RefreshShape(env, t, i);
  }

  lemma TotpEntry(env: Env, t: Tables, call: Call)
    requires Effect(env, t, call).Some? && IsTotp(call)
    ensures EntryRefers(Effect(env, t, call).value)
  {
    hide SetupTotp, Calls.EnableTotp, DisableTotp, Totp.Accepts, Totp.SecretText;
    match call
    case SetsUpTotp(i) => var user := SetupShape(env, t, i);
    case EnablesTotp(i) => var user, secret := EnableShape(env, t, i);
    case DisablesTotp(i) => var user, secret := DisableShape(env, t, i);
  }

  lemma MemberEntry(env: Env, t: Tables, call: Call)
    requires Effect(env, t, call).Some? && (call.AddsMember? || call.ChangesRole?)
    ensures EntryRefers(Effect(env, t, call).value)
  {
    hide AddMembership, UpdateMembership, NormalizeEmail, Authorized, ValidRole;
    match call
    case AddsMember(p, i) => var org, user := AddShape(env, t, p, i);
    case ChangesRole(p, i) => var org, user := ChangeShape(env, t, p, i);
  }

  lemma CreateKeyEntry(env: Env, t: Tables, p: Principal, i: CreateKeyIn)
    requires Calls.CreateApiKey(env, t, p, i).Ok?
    ensures EntryRefers(Calls.CreateApiKey(env, t, p, i).value.0)
  {
    hide Calls.CreateApiKey, NormalizeSlug, Scopes, RawKey, Hex;
    var key := CreateKeyShape(env, t, p, i);
  }

  lemma RevokeKeyEntry(env: Env, t: Tables, p: Principal, i: RevokeKeyIn)
    requires Calls.RevokeApiKey(env, t, p, i).Ok?
    ensures EntryRefers(Calls.RevokeApiKey(env, t, p, i).value.0)
  {
    hide Calls.RevokeApiKey, Authorized;
    var id := RevokeKeyShape(env, t, p, i);
  }

  lemma RegistrationEntry(env: Env, t: Tables, p: Principal, i: FinishIn)
    requires FinishRegistration(env, t, p, i).Ok?
    ensures EntryRefers(FinishRegistration(env, t, p, i).value.0)
  {
    hide FinishRegistration, PasskeyTaken, Sealed;
    var user, ceremony, c := FinishRegistrationShape(env, t, p, i);
    HandleShape(t, user, i.handle);
  }

  lemma FinishEntry(env: Env, t: Tables, i: FinishIn)
    requires FinishLogin(env, t, i).Ok?
    ensures EntryRefers(FinishLogin(env, t, i).value.0)
  {
    hide FinishLogin, Validated, WithHandle, OpenAll, Index, PasskeysOf, Resealed;
    var user, ceremony, cs := FinishLoginShape(env, t, i);
    HandleShape(t, user, i.handle);
    var user', c, row := ValidatedShape(env, WithHandle(t, user, i.handle).value, ceremony, cs, i);
  }

  lemma NewEntry(env: Env, t: Tables, call: Call)
    requires Effect(env, t, call).Some? && !Begins(call)
    ensures EntryRefers(Effect(env, t, call).value)
  {
    hide EntryRefers, Calls.Register, Login, Refresh, Calls.CreateApiKey, Calls.RevokeApiKey, FinishRegistration,
        FinishLogin;
    match call
    case Registers(i) => RegisterEntry(env, t, i);
    case LogsIn(i) => LoginEntry(env, t, i);
    case Refreshes(i) => RefreshEntry(env, t, i);
    case AddsMember(_, _) => MemberEntry(env, t, call);
    case ChangesRole(_, _) => MemberEntry(env, t, call);
    case CreatesKey(p, i) => CreateKeyEntry(env, t, p, i);
    case RevokesKey(p, i) => RevokeKeyEntry(env, t, p, i);
    case FinishesRegistration(p, i) => RegistrationEntry(env, t, p, i);
    case FinishesLogin(i) => FinishEntry(env, t, i);
    case _ => TotpEntry(env, t, call);
  }

  lemma AuditGrows(t: Tables, t': Tables)
    requires AuditRefers(t) && Grows(t, t') && |t.audit| <= |t'.audit| && t'.audit[..|t.audit|] == t.audit
    requires |t'.audit| == |t.audit| || (|t'.audit| == |t.audit| + 1 && EntryRefers(t'))
    ensures AuditRefers(t')
  {
    forall i | 0 <= i < |t'.audit| ensures Attributable(t', t'.audit[i]) {
      if i < |t.audit| {
        assert t'.audit[i] == t.audit[i];
      }
    }
  }

  lemma AuditStep(env: Env, t: Tables, call: Call)
    requires Effect(env, t, call).Some? && AuditRefers(t) && Grows(t, Effect(env, t, call).value)
    ensures AuditRefers(Effect(env, t, call).value)
  {
    hide Effect, AuditRefers, Grows, EntryRefers, Framed;
    Frame(env, t, call);
    if !Begins(call) {
      NewEntry(env, t, call);
    }
    AuditGrows(t, Effect(env, t, call).value);
  }

  // All of them

  lemma MoreToReferTo(rows: seq<Passkey>, ceremonies: map<Id, Ceremony>, users: set<Id>, users': set<Id>)
    requires PasskeysRefer(rows, users) && CeremoniesRefer(ceremonies, users) && users <= users'
    ensures PasskeysRefer(rows, users') && CeremoniesRefer(ceremonies, users')
  {}

  lemma ReferencesStep(env: Env, t: Tables, call: Call)
    requires Referential(t) && Effect(env, t, call).Some? && Grows(t, Effect(env, t, call).value)
    ensures Referential(Effect(env, t, call).value)
  {
    hide Effect, PasskeysRefer, CeremoniesRefer, AuditRefers;
    var t' := Effect(env, t, call).value;
    TotpRefers(env, t, call);
    PasskeysStep(env, t, call);
    CeremoniesStep(env, t, call);
    AuditStep(env, t, call);
    MoreToReferTo(t'.passkeys, t'.ceremonies, t.users.Keys, t'.users.Keys);
  }
}
