/** The passkey calls at any point of a history: exactly when each succeeds, what it writes, and that the
    credentials a login is checked against are those the library made and last returned. */
module PasskeyAnswers {
  import opened Wrappers
  import opened Text
  import opened Environment
  import opened Naming
  import opened Tokens
  import opened Tables
  import opened Calls
  import opened Ceremonies
  import opened Runs
  import opened Shapes
  import opened Frames
  import opened References
  import opened Accounts
  import opened PasskeyLife
  import Enrolment

  // Handles

  /** Whoever has begun a ceremony has a handle. */
  ghost predicate Handled(t: Tables) {
    forall c :: c in t.ceremonies ==> t.ceremonies[c].user in t.users && t.users[t.ceremonies[c].user].handle != []
  }

  /** A ceremony is new, of a user whose handle has been ensured, or was there before. */
  ghost predicate BegunHandled(t: Tables, t': Tables) {
    forall c :: c in t'.ceremonies ==>
      || (c in t.ceremonies && t'.ceremonies[c] == t.ceremonies[c])
      || (t'.ceremonies[c].user in t'.users && t'.users[t'.ceremonies[c].user].handle != [])
  }

  lemma EnsuredHandle(t: Tables, user: Id, handle: Handle)
    requires WithHandle(t, user, handle).Some?
    ensures var users := WithHandle(t, user, handle).value.users; user in users && users[user].handle != []
  {}

  lemma BeginHandled(t: Tables, user: Id, handle: Handle, id: Id, c: Ceremony)
    requires WithHandle(t, user, handle).Some? && c.user == user
    ensures BegunHandled(t, WithHandle(t, user, handle).value.(ceremonies := t.ceremonies[id := c]))
  {
    EnsuredHandle(t, user, handle);
  }

  lemma FewerCeremonies(t: Tables, t': Tables, c: Id)
    requires t'.ceremonies == t.ceremonies - {c} || t'.ceremonies == t.ceremonies
    ensures BegunHandled(t, t')
  {}

  lemma CeremonyCalls(env: Env, t: Tables, call: Call)
    requires IsCeremony(call) && Effect(env, t, call).Some?
    ensures BegunHandled(t, Effect(env, t, call).value)
  {
    hide BegunHandled, BeginRegistration, BeginLogin, FinishRegistration, FinishLogin, Planted;
    match call
    case BeginsRegistration(p, i) => RegistrationBegun(env, t, p, i);
    case BeginsLogin(email, i) => LoginBegun(env, t, email, i);
    case PlantsHandle(email, handle) => PlantKeeps(env, t, email, handle);
    case FinishesRegistration(p, i) => RegistrationEnds(env, t, p, i);
    case FinishesLogin(i) => LoginEnds(env, t, i);
  }

  lemma CeremoniesHandled(env: Env, t: Tables, call: Call)
    requires Effect(env, t, call).Some?
    ensures BegunHandled(t, Effect(env, t, call).value)
  {
    hide Effect, BegunHandled;
    if IsCeremony(call) {
      CeremonyCalls(env, t, call);
    } else {
      Frame(env, t, call);
      FewerCeremonies(t, Effect(env, t, call).value, 0);
    }
  }

  lemma RegistrationBegun(env: Env, t: Tables, p: Principal, i: BeginIn)
    requires BeginRegistration(env, t, p, i).Ok?
    ensures BegunHandled(t, BeginRegistration(env, t, p, i).value.0)
  {
    hide BegunHandled, WithHandle, BeginRegistration;
    var user, c := BeginRegistrationShape(env, t, p, i);
    BeginHandled(t, user, i.handle, i.ceremony, c);
  }

  lemma LoginBegun(env: Env, t: Tables, email: string, i: BeginIn)
    requires BeginLogin(env, t, email, i).Ok?
    ensures BegunHandled(t, BeginLogin(env, t, email, i).value.0)
  {
    hide BegunHandled, WithHandle, BeginLogin;
    var user, c := BeginLoginShape(env, t, email, i);
    BeginHandled(t, user, i.handle, i.ceremony, c);
  }

  lemma RegistrationEnds(env: Env, t: Tables, p: Principal, i: FinishIn)
    requires FinishRegistration(env, t, p, i).Ok?
    ensures BegunHandled(t, FinishRegistration(env, t, p, i).value.0)
  {
    hide BegunHandled, WithHandle, FinishRegistration;
    var user, ceremony, c := FinishRegistrationShape(env, t, p, i);
    FewerCeremonies(t, FinishRegistration(env, t, p, i).value.0, ceremony);
  }

  lemma PlantKeeps(env: Env, t: Tables, email: string, handle: Handle)
    ensures BegunHandled(t, Planted(env, t, email, handle))
  {
    hide NormalizeEmail;
    FewerCeremonies(t, Planted(env, t, email, handle), 0);
  }

  lemma LoginEnds(env: Env, t: Tables, i: FinishIn)
    requires FinishLogin(env, t, i).Ok?
    ensures BegunHandled(t, FinishLogin(env, t, i).value.0)
  {
    hide BegunHandled, FinishLogin, Validated, WithHandle, OpenAll;
    var user, ceremony, cs := FinishLoginShape(env, t, i);
    HandleShape(t, user, i.handle);
    var user', c, row := ValidatedShape(env, WithHandle(t, user, i.handle).value, ceremony, cs, i);
    FewerCeremonies(t, FinishLogin(env, t, i).value.0, ceremony);
  }

  lemma HandledStep(t: Tables, t': Tables)
    requires Handled(t) && Kept(t.users, t'.users) && BegunHandled(t, t')
    ensures Handled(t')
  {}

  lemma NobodyBegan()
    ensures Handled(EMPTY)
  {}

  /** At every point of a history the user of every pending ceremony has a handle, so no finish ever writes one. */
  lemma {:induction false} AlwaysHandled(env: Env, run: seq<Call>, ts: seq<Tables>, k: nat)
    requires History(env, run, ts) && k <= |run|
    ensures Handled(ts[k])
  {
    hide Effect, Sound, Handled, Kept, BegunHandled;
    if k == 0 {
      NobodyBegan();
    } else {
      AlwaysHandled(env, run, ts, k - 1);
      AlwaysSound(env, run, ts, k - 1);
      At(env, run, ts, k - 1);
      SoundStep(env, ts[k - 1], run[k - 1]);
      CeremoniesHandled(env, ts[k - 1], run[k - 1]);
      HandledStep(ts[k - 1], ts[k]);
    }
  }

  // The credentials of a user

  lemma PasskeysOfSnoc(rows: seq<Passkey>, p: Passkey, user: Id)
    ensures PasskeysOf(rows + [p], user) == PasskeysOf(rows, user) + if p.user == user then [p] else []
  {
    assert (rows + [p])[..|rows|] == rows;
  }

  lemma NoPasskeys(user: Id)
    ensures PasskeysOf([], user) == []
  {}

  /** The user's rows are the table's, in the order of the table, which is that of creation. */
  lemma {:induction false} PasskeysInOrder(a: seq<Passkey>, b: seq<Passkey>, user: Id)
    ensures PasskeysOf(a + b, user) == PasskeysOf(a, user) + PasskeysOf(b, user)
    ensures |b| == 1 ==> PasskeysOf(b, user) == if b[0].user == user then b else []
  {
    hide PasskeysOf;
    if b == [] {
      assert a + b == a;
      NoPasskeys(user);
    } else {
      var before, last := b[..|b| - 1], b[|b| - 1];
      PasskeysInOrder(a, before, user);
      assert a + b == (a + before) + [last] && b == before + [last];
      PasskeysOfSnoc(a + before, last, user);
      PasskeysOfSnoc(before, last, user);
      var tail := if last.user == user then [last] else [];
      assert (PasskeysOf(a, user) + PasskeysOf(before, user)) + tail ==
             PasskeysOf(a, user) + (PasskeysOf(before, user) + tail);
      NoPasskeys(user);
    }
  }

  /** What a login of the user hands to the library: the credentials of the user's rows, in order. In a history
      every row opens. */
  function Credentials(env: Env, t: Tables, user: Id): Option<seq<Credential>> {
    OpenAll(env, PasskeysOf(t.passkeys, user))
  }

  lemma CredentialsOpen(env: Env, run: seq<Call>, ts: seq<Tables>, k: nat, user: Id)
    requires env.Decrypts() && env.Unmarshals() && History(env, run, ts) && k <= |run|
    ensures Credentials(env, ts[k], user).Some?
  {
    hide OpenAll, Index;
    ListMatchesIndex(env, run, ts, k, user);
  }

  // Registering a passkey

  /** No row has this identifier or this credential. */
  ghost predicate Unregistered(t: Tables, row: Id, credentialId: seq<byte>) {
    forall p :: p in t.passkeys ==> p.id != row && p.credentialId != credentialId
  }

  lemma UnregisteredIsFree(t: Tables, row: Id, credentialId: seq<byte>)
    ensures Unregistered(t, row, credentialId) <==> !PasskeyTaken(t.passkeys, row, credentialId)
  {
    assert forall i :: 0 <= i < |t.passkeys| ==> t.passkeys[i] in t.passkeys;
  }

  /** FinishWebAuthnRegistration in full: a passkey is stored exactly when the library, given the user's handle, the
      user's credentials and the stored ceremony, creates a credential from the response, and it is
      that credential which is stored. */
  lemma RegistrationExactly(env: Env, run: seq<Call>, ts: seq<Tables>, k: nat, p: Principal, i: FinishIn)
    requires env.Decrypts() && env.Unmarshals() && History(env, run, ts) && k <= |run|
    ensures
      var t, r := ts[k], FinishRegistration(env, ts[k], p, i);
      if !p.isUser then r == Err(Unauthorized)
      else if i.response == "" || p.user.None? || i.ceremony.None? then r == Err(InvalidInput)
      else
        var user, ceremony := p.user.value, i.ceremony.value;
        if ceremony !in t.ceremonies || t.ceremonies[ceremony].flow != Registration
           || t.ceremonies[ceremony].user != user || t.ceremonies[ceremony].expires < i.now
        then r == Err(Unauthorized)
        else
          var cs, data := Credentials(env, t, user), t.ceremonies[ceremony].data;
          && cs.Some? && user in t.users
          && if !env.readsSession(data) then r == Err(Internal)
             else if !env.parsesCreation(i.response) then r == Err(InvalidInput)
             else
               var made := env.createCredential(t.users[user].handle, cs.value, data, i.response);
               if made.None? || !Unregistered(t, i.row, made.value.id) then r == Err(InvalidInput)
               else
                 var c := made.value;
                 r == Ok((t.(passkeys := t.passkeys +
                               [Passkey(i.row, user, c.id, env.encrypt(env.marshal(c), i.nonce), i.nonce)],
                             ceremonies := t.ceremonies - {ceremony},
                             audit := t.audit + [Audit(None, "user", Some(user), None, WebAuthnRegister(c.id), i.row)]),
                          i.row))
  {
    hide Effect, OpenAll, PasskeysOf, Unregistered, PasskeyTaken;
    AlwaysHandled(env, run, ts, k);
    if p.user.Some? {
      CredentialsOpen(env, run, ts, k, p.user.value);
    }
    forall c: Credential {
      UnregisteredIsFree(ts[k], i.row, c.id);
    }
  }

  // Logging in with a passkey

  lemma {:induction false} IndexIsExact(rows: seq<Passkey>, c: seq<byte>)
    ensures c in Index(rows) <==> exists i :: 0 <= i < |rows| && rows[i].credentialId == c
  {
    if c in Index(rows) {
      assert Index(rows)[c] in rows;
    }
    if exists i :: 0 <= i < |rows| && rows[i].credentialId == c {
      var i :| 0 <= i < |rows| && rows[i].credentialId == c;
      assert rows[i] in rows;
    }
  }

  /** A row of this credential is written anew, sealing the credential as the library returned it; any other stays. */
  predicate Rewritten(env: Env, p: Passkey, p': Passkey, c: Credential, nonce: Nonce) {
    p' == if p.credentialId != c.id then p
          else Passkey(p.id, p.user, c.id, env.encrypt(env.marshal(c), nonce), nonce)
  }

  ghost predicate Updated(env: Env, rows: seq<Passkey>, rows': seq<Passkey>, c: Credential, nonce: Nonce) {
    && |rows'| == |rows|
    && forall j :: 0 <= j < |rows| ==> Rewritten(env, rows[j], rows'[j], c, nonce)
  }

  lemma ResealedIsUpdated(env: Env, rows: seq<Passkey>, row: Passkey, c: Credential, nonce: Nonce)
    requires Unmixed(rows) && row in rows && row.credentialId == c.id
    ensures Updated(env, rows, Resealed(rows, row.id, env.encrypt(env.marshal(c), nonce), nonce), c, nonce)
  {
    var k :| 0 <= k < |rows| && rows[k] == row;
    forall j | 0 <= j < |rows| ensures rows[j].id == row.id <==> rows[j].credentialId == row.credentialId {}
  }

  /** The rows a passkey login can use. */
  ghost predicate OwnRow(t: Tables, user: Id, row: Passkey, credentialId: seq<byte>) {
    row in t.passkeys && row.user == user && row.credentialId == credentialId
  }

  /** What a passkey login does. */
  ghost predicate PasskeyLogin(env: Env, t: Tables, user: Id, ceremony: Id, c: Credential, i: FinishIn, t': Tables) {
    && Updated(env, t.passkeys, t'.passkeys, c, i.nonce)
    && exists row :: OwnRow(t, user, row, c.id) && SessionWritten(env, t, user, ceremony, row, i, t')
  }

  /** The session, the end of the ceremony and the entry that names the row used. */
  predicate SessionWritten(env: Env, t: Tables, user: Id, ceremony: Id, row: Passkey, i: FinishIn, t': Tables) {
    var f := i.session;
    t' == t.(tokens := t.tokens[f.tokenId :=
               Row(user, env.refreshHash(f.raw), f.issuedAt + env.refreshTtl, None, None, None)],
             tokenHashes := t.tokenHashes[env.refreshHash(f.raw) := f.tokenId],
             passkeys := t'.passkeys,
             ceremonies := t.ceremonies - {ceremony},
             audit := t.audit + [Audit(None, "user", Some(user), None, WebAuthnLogin(row.credentialId), row.id)])
  }

  /** The answer to a passkey login: it takes a pending ceremony of a user with passkeys, and a response the library
      validates against the user's credentials; then the session is the ceremony's user's, and the
      credential the library returned replaces the stored one. */
  ghost predicate LoginAnswer(env: Env, t: Tables, i: FinishIn, r: Result<(Tables, AuthResult)>) {
    if i.response == "" || i.ceremony.None? then r == Err(InvalidInput)
    else
      var ceremony := i.ceremony.value;
      if ceremony !in t.ceremonies || t.ceremonies[ceremony].flow != Authentication
         || t.ceremonies[ceremony].expires < i.now
      then r == Err(InvalidCredentials)
      else
        var user, data := t.ceremonies[ceremony].user, t.ceremonies[ceremony].data;
        var cs := Credentials(env, t, user);
        && cs.Some? && user in t.users
        && if cs.value == [] then r == Err(InvalidCredentials)
           else if !env.readsSession(data) then r == Err(Internal)
           else if !env.parsesAssertion(i.response) then r == Err(InvalidInput)
           else
             var valid := env.validateLogin(t.users[user].handle, cs.value, data, i.response);
             if valid.None? then r == Err(InvalidCredentials)
             else if i.session.tokenId in t.tokens || env.refreshHash(i.session.raw) in t.tokenHashes
             then r == Err(Internal)
             else r.Ok? && r.value.1.user == user && PasskeyLogin(env, t, user, ceremony, valid.value, i, r.value.0)
  }

  /** FinishWebAuthnLogin in full, at every point of a history: every stored row opens, the user of a ceremony has a
      handle already, and a validated credential has a row, so no other answer is left. */
  lemma LoginExactly(env: Env, run: seq<Call>, ts: seq<Tables>, k: nat, i: FinishIn)
    requires env.Decrypts() && env.Unmarshals() && env.ReturnsOwnCredential() && History(env, run, ts) && k <= |run|
    ensures LoginAnswer(env, ts[k], i, FinishLogin(env, ts[k], i))
  {
    hide Effect, OpenAll, PasskeysOf, Index, Unmixed, LoginAnswer, FinishLogin;
    AlwaysHandled(env, run, ts, k);
    AlwaysIntact(env, run, ts, k);
    if i.ceremony.Some? && i.ceremony.value in ts[k].ceremonies {
      var user := ts[k].ceremonies[i.ceremony.value].user;
      ValidatedHasRow(env, run, ts, k, user, ts[k].ceremonies[i.ceremony.value].data, i.response);
    }
    LoginCases(env, ts[k], i);
  }

  lemma LoginCases(env: Env, t: Tables, i: FinishIn)
    requires Handled(t) && Unmixed(t.passkeys)
    requires i.ceremony.Some? && i.ceremony.value in t.ceremonies ==>
               var user, data := t.ceremonies[i.ceremony.value].user, t.ceremonies[i.ceremony.value].data;
               var cs := Credentials(env, t, user);
               cs.Some? && forall handle ::
                 env.validateLogin(handle, cs.value, data, i.response).Some? ==>
                   env.validateLogin(handle, cs.value, data, i.response).value.id in Index(PasskeysOf(t.passkeys, user))
    ensures LoginAnswer(env, t, i, FinishLogin(env, t, i))
  {
    hide OpenAll, PasskeysOf, Index, Unmixed, PasskeyLogin;
    var r := FinishLogin(env, t, i);
    if r.Ok? {
      LoginDoes(env, t, i);
    }
  }

  lemma LoginDoes(env: Env, t: Tables, i: FinishIn)
    requires Handled(t) && Unmixed(t.passkeys) && FinishLogin(env, t, i).Ok?
    ensures i.ceremony.Some? && i.ceremony.value in t.ceremonies
    ensures
      var ceremony := i.ceremony.value;
      var user, data := t.ceremonies[ceremony].user, t.ceremonies[ceremony].data;
      var cs := Credentials(env, t, user);
      && cs.Some? && user in t.users
      && var valid := env.validateLogin(t.users[user].handle, cs.value, data, i.response);
      valid.Some? && PasskeyLogin(env, t, user, ceremony, valid.value, i, FinishLogin(env, t, i).value.0)
  {
    hide OpenAll, PasskeysOf, Index, Unmixed, Updated, FinishLogin, Validated, Resealed;
    var user, ceremony, cs := FinishLoginShape(env, t, i);
    var user', c, row := ValidatedShape(env, t, ceremony, cs, i);
    assert row in PasskeysOf(t.passkeys, user);
    ResealedIsUpdated(env, t.passkeys, row, c, i.nonce);
    assert OwnRow(t, user, row, c.id) && SessionWritten(env, t, user, ceremony, row, i, FinishLogin(env, t, i).value.0);
  }

  // What a login is checked against

  lemma OpenAllSnoc(env: Env, rows: seq<Passkey>, p: Passkey)
    ensures OpenAll(env, rows + [p]) ==
            if OpenAll(env, rows).None? || Opened(env, p).None? then None
            else Some(OpenAll(env, rows).value + [Opened(env, p).value])
  {
    hide Opened;
    assert (rows + [p])[..|rows|] == rows;
  }

  /** A registered passkey is the last of its user's credentials, exactly as the library made it, and everybody
      else's stay as they were. */
  lemma NewPasskeyListed(env: Env, run: seq<Call>, ts: seq<Tables>, k: nat, p: Principal, i: FinishIn, u: Id)
    requires env.Decrypts() && env.Unmarshals() && History(env, run, ts) && k <= |run|
    requires FinishRegistration(env, ts[k], p, i).Ok?
    ensures p.user.Some? && i.ceremony.Some? && p.user.value in ts[k].users && i.ceremony.value in ts[k].ceremonies
    ensures
      var t, t', user := ts[k], FinishRegistration(env, ts[k], p, i).value.0, p.user.value;
      var cs := Credentials(env, t, u);
      && cs.Some?
      && (u != user ==> Credentials(env, t', u) == cs)
      && (u == user ==>
            var data := t.ceremonies[i.ceremony.value].data;
            var made := env.createCredential(t.users[u].handle, cs.value, data, i.response);
            made.Some? && Credentials(env, t', u) == Some(cs.value + [made.value]))
  {
    hide Effect, OpenAll, PasskeysOf, Opened, FinishRegistration, Unregistered, Sealed;
    RegistrationExactly(env, run, ts, k, p, i);
    CredentialsOpen(env, run, ts, k, u);
    var t, user := ts[k], p.user.value;
    var made := env.createCredential(t.users[user].handle, Credentials(env, t, user).value,
                                     t.ceremonies[i.ceremony.value].data, i.response).value;
    var row := Passkey(i.row, user, made.id, env.encrypt(env.marshal(made), i.nonce), i.nonce);
    PasskeysOfSnoc(t.passkeys, row, u);
    NewRowOpens(env, i.row, user, made, i.nonce);
    if u == user {
      OpenAllSnoc(env, PasskeysOf(t.passkeys, u), row);
    } else {
      assert PasskeysOf(t.passkeys, u) + [] == PasskeysOf(t.passkeys, u);
    }
  }

  lemma NewRowOpens(env: Env, id: Id, user: Id, c: Credential, nonce: Nonce)
    requires env.Decrypts() && env.Unmarshals()
    ensures Opened(env, Passkey(id, user, c.id, env.encrypt(env.marshal(c), nonce), nonce)) == Some(c)
  {
    SealedOpens(env, id, user, c, nonce);
  }

  /** The credentials after a login: the one the library returned takes the place of the stored one with its
      identifier. */
  ghost predicate Replaced(cs: seq<Credential>, cs': seq<Credential>, c: Credential) {
    && |cs'| == |cs|
    && forall j :: 0 <= j < |cs| ==> cs'[j] == if cs[j].id == c.id then c else cs[j]
  }

  lemma RewrittenOpens(env: Env, p: Passkey, p': Passkey, c: Credential, nonce: Nonce)
    requires env.Decrypts() && env.Unmarshals() && OpensToItself(env, p) && Rewritten(env, p, p', c, nonce)
    ensures Opened(env, p).Some? && p'.user == p.user
    ensures Opened(env, p') == Some(if Opened(env, p).value.id == c.id then c else Opened(env, p).value)
  {
    hide Opened;
    NewRowOpens(env, p.id, p.user, c, nonce);
  }

  lemma UpdatedPrefix(env: Env, rows: seq<Passkey>, rows': seq<Passkey>, c: Credential, nonce: Nonce)
    requires rows != [] && Intact(env, rows) && Updated(env, rows, rows', c, nonce)
    ensures |rows'| == |rows| && OpensToItself(env, rows[|rows| - 1])
    ensures Rewritten(env, rows[|rows| - 1], rows'[|rows| - 1], c, nonce)
    ensures Intact(env, rows[..|rows| - 1]) && Updated(env, rows[..|rows| - 1], rows'[..|rows| - 1], c, nonce)
  {
    hide OpensToItself;
  }

  lemma ReplacedSnoc(cs: seq<Credential>, cs': seq<Credential>, d: Credential, c: Credential)
    requires Replaced(cs, cs', c)
    ensures Replaced(cs + [d], cs' + [if d.id == c.id then c else d], c)
  {}

  lemma NothingReplaced(c: Credential)
    ensures Replaced([], [], c)
  {}

  lemma {:induction false} UpdatedList(env: Env, rows: seq<Passkey>, rows': seq<Passkey>, c: Credential, nonce: Nonce,
      u: Id)
    requires env.Decrypts() && env.Unmarshals() && Intact(env, rows) && Updated(env, rows, rows', c, nonce)
    ensures OpenAll(env, PasskeysOf(rows, u)).Some? && OpenAll(env, PasskeysOf(rows', u)).Some?
    ensures Replaced(OpenAll(env, PasskeysOf(rows, u)).value, OpenAll(env, PasskeysOf(rows', u)).value, c)
  {
    hide OpenAll, PasskeysOf, Opened, OpensToItself, Intact, Replaced, Rewritten;
    if rows == [] {
      NoPasskeys(u);
      NothingOpens(env);
      NothingReplaced(c);
    } else {
      var before, before' := rows[..|rows| - 1], rows'[..|rows| - 1];
      var last, last' := rows[|rows| - 1], rows'[|rows| - 1];
      UpdatedPrefix(env, rows, rows', c, nonce);
      UpdatedList(env, before, before', c, nonce, u);
      RewrittenOpens(env, last, last', c, nonce);
      assert rows == before + [last] && rows' == before' + [last'];
      UpdatedSnoc(env, before, before', last, last', c, u);
    }
  }

  lemma UpdatedSnoc(env: Env, rows: seq<Passkey>, rows': seq<Passkey>, p: Passkey, p': Passkey, c: Credential, u: Id)
    requires OpenAll(env, PasskeysOf(rows, u)).Some? && OpenAll(env, PasskeysOf(rows', u)).Some?
    requires Replaced(OpenAll(env, PasskeysOf(rows, u)).value, OpenAll(env, PasskeysOf(rows', u)).value, c)
    requires Opened(env, p).Some? && p'.user == p.user
    requires Opened(env, p') == Some(if Opened(env, p).value.id == c.id then c else Opened(env, p).value)
    ensures OpenAll(env, PasskeysOf(rows + [p], u)).Some? && OpenAll(env, PasskeysOf(rows' + [p'], u)).Some?
    ensures Replaced(OpenAll(env, PasskeysOf(rows + [p], u)).value, OpenAll(env, PasskeysOf(rows' + [p'], u)).value, c)
  {
    hide OpenAll, PasskeysOf, Opened, Replaced;
    PasskeysOfSnoc(rows, p, u);
    PasskeysOfSnoc(rows', p', u);
    if p.user == u {
      OpenAllSnoc(env, PasskeysOf(rows, u), p);
      OpenAllSnoc(env, PasskeysOf(rows', u), p');
      ReplacedSnoc(OpenAll(env, PasskeysOf(rows, u)).value, OpenAll(env, PasskeysOf(rows', u)).value,
                   Opened(env, p).value, c);
    } else {
      assert PasskeysOf(rows, u) + [] == PasskeysOf(rows, u);
      assert PasskeysOf(rows', u) + [] == PasskeysOf(rows', u);
    }
  }

  lemma NothingOpens(env: Env)
    ensures OpenAll(env, []) == Some([])
  {}

  /** The credentials of u before and after a login: the validated one has been put in its place. */
  ghost predicate Relisted(env: Env, t: Tables, i: FinishIn, t': Tables, u: Id)
    requires i.ceremony.Some? && i.ceremony.value in t.ceremonies
  {
    var user, data := t.ceremonies[i.ceremony.value].user, t.ceremonies[i.ceremony.value].data;
    && Credentials(env, t, user).Some? && Credentials(env, t, u).Some? && Credentials(env, t', u).Some?
    && user in t.users
    && var valid := env.validateLogin(t.users[user].handle, Credentials(env, t, user).value, data, i.response);
    valid.Some? && Replaced(Credentials(env, t, u).value, Credentials(env, t', u).value, valid.value)
  }

  /** After a passkey login every user's credentials are as before, but for the one that was used: its owner's list
      holds what the library returned, a new sign counter for one thing, in its old place. */
  lemma UsedPasskeyListed(env: Env, run: seq<Call>, ts: seq<Tables>, k: nat, i: FinishIn, u: Id)
    requires env.Decrypts() && env.Unmarshals() && env.ReturnsOwnCredential() && History(env, run, ts) && k <= |run|
    ensures FinishLogin(env, ts[k], i).Ok? ==>
              && i.ceremony.Some? && i.ceremony.value in ts[k].ceremonies
              && Relisted(env, ts[k], i, FinishLogin(env, ts[k], i).value.0, u)
  {
    hide Effect, OpenAll, PasskeysOf, FinishLogin, SessionWritten, OwnRow, Updated, Intact, Replaced;
    LoginExactly(env, run, ts, k, i);
    AlwaysIntact(env, run, ts, k);
    var t := ts[k];
    if FinishLogin(env, t, i).Ok? {
      var user := t.ceremonies[i.ceremony.value].user;
      var valid := env.validateLogin(t.users[user].handle, Credentials(env, t, user).value,
                                     t.ceremonies[i.ceremony.value].data, i.response);
      UpdatedList(env, t.passkeys, FinishLogin(env, t, i).value.0.passkeys, valid.value, i.nonce, u);
    }
  }

  /** Every stored passkey was made by the library: an earlier registration of its user presented a response from
      which the library created a credential with its identifier, given the user's handle and
      credentials of that moment and the stored ceremony. */
  lemma MadeByLibrary(env: Env, run: seq<Call>, ts: seq<Tables>, k: nat, row: Passkey) returns (n: nat, c: Credential)
    requires env.Decrypts() && env.Unmarshals() && History(env, run, ts) && k <= |run| && row in ts[k].passkeys
    ensures n < k && RegisteredBy(run, ts, n, row) && c.id == row.credentialId
    ensures
      var t, i := ts[n], run[n].finish;
      && i.ceremony.Some? && i.ceremony.value in t.ceremonies && row.user in t.users
      && var cs, data := Credentials(env, t, row.user), t.ceremonies[i.ceremony.value].data;
      && cs.Some? && env.readsSession(data) && env.parsesCreation(i.response)
      && env.createCredential(t.users[row.user].handle, cs.value, data, i.response) == Some(c)
  {
    hide Effect, Credentials, FinishRegistration, Unregistered;
    n := RegisteredRow(env, run, ts, k, row);
    At(env, run, ts, n);
    FinishedRegistration(env, ts[n], run[n]);
    var t, i := ts[n], run[n].finish;
    RegistrationExactly(env, run, ts, n, run[n].p, i);
    c := env.createCredential(t.users[row.user].handle, Credentials(env, t, row.user).value,
                              t.ceremonies[i.ceremony.value].data, i.response).value;
  }

  lemma FinishedRegistration(env: Env, t: Tables, call: Call)
    requires call.FinishesRegistration? && Effect(env, t, call).Some?
    ensures FinishRegistration(env, t, call.p, call.finish).Ok?
    ensures Effect(env, t, call).value == FinishRegistration(env, t, call.p, call.finish).value.0
  {
    hide FinishRegistration;
  }

  // Beginning a ceremony

  /** The ceremony is stored, and the drawn handle if the user had none. */
  predicate CeremonyStored(t: Tables, user: Id, handle: Handle, id: Id, c: Ceremony, t': Tables)
    requires user in t.users
  {
    var u := t.users[user];
    if u.handle != [] then t' == t.(ceremonies := t.ceremonies[id := c])
    else t' == t.(users := t.users[user := User(u.email, u.passwordHash, handle)],
                  handles := t.handles + {handle},
                  ceremonies := t.ceremonies[id := c])
  }

  lemma SoundHandles(t: Tables)
    requires Sound(t)
    ensures [] !in t.handles
  {
    hide UsersAgree, SlugsAgree, TokensAgree, KeysAgree, MembersAgree, NobodyAlone, KeyHashesAgree, Referential;
  }

  /** BeginWebAuthnRegistration in full. */
  lemma BeginRegistrationExactly(env: Env, run: seq<Call>, ts: seq<Tables>, k: nat, p: Principal, i: BeginIn)
    requires env.Decrypts() && env.Unmarshals() && History(env, run, ts) && k <= |run|
    ensures
      var t, r := ts[k], BeginRegistration(env, ts[k], p, i);
      if !p.isUser then r == Err(Unauthorized)
      else if p.user.None? then r == Err(InvalidInput)
      else if p.user.value !in t.users then r == Err(Unauthorized)
      else
        var user := p.user.value;
        if (t.users[user].handle == [] && i.handle in t.handles) || i.begun.None? || i.ceremony in t.ceremonies
        then r == Err(Internal)
        else
          && r.Ok? && r.value.1 == i.ceremony
          && CeremonyStored(t, user, i.handle, i.ceremony,
                            Ceremony(user, Registration, i.begun.value.0, i.begun.value.1), r.value.0)
  {
    hide Effect, Sound, OpenAll, PasskeysOf;
    AlwaysSound(env, run, ts, k);
    SoundHandles(ts[k]);
    if p.user.Some? {
      CredentialsOpen(env, run, ts, k, p.user.value);
    }
  }

  /** BeginWebAuthnLogin in full: an unknown address and a user without passkeys are answered alike. */
  lemma BeginLoginExactly(env: Env, run: seq<Call>, ts: seq<Tables>, k: nat, email: string, i: BeginIn)
    requires env.Decrypts() && env.Unmarshals() && History(env, run, ts) && k <= |run|
    ensures
      var t, r := ts[k], BeginLogin(env, ts[k], email, i);
      var found := UserByEmail(t, NormalizeEmail(env, email));
      if NormalizeEmail(env, email) == "" then r == Err(InvalidInput)
      else if found.None? then r == Err(InvalidCredentials)
      else
        var user := found.value;
        if t.users[user].handle == [] && i.handle in t.handles then r == Err(Internal)
        else if Credentials(env, t, user) == Some([]) then r == Err(InvalidCredentials)
        else if i.begun.None? || i.ceremony in t.ceremonies then r == Err(Internal)
        else
          && r.Ok? && r.value.1 == i.ceremony
          && CeremonyStored(t, user, i.handle, i.ceremony,
                            Ceremony(user, Authentication, i.begun.value.0, i.begun.value.1), r.value.0)
  {
    hide Effect, Sound, OpenAll, PasskeysOf, NormalizeEmail;
    AlwaysSound(env, run, ts, k);
    SoundHandles(ts[k]);
    var found := UserByEmail(ts[k], NormalizeEmail(env, email));
    if found.Some? {
      CredentialsOpen(env, run, ts, k, found.value);
    }
  }

  /** What a failed BeginWebAuthnLogin can leave behind: the drawn handle, for the user at that address, if that user
      had none and nobody else has it. */
  lemma PlantedExactly(env: Env, run: seq<Call>, ts: seq<Tables>, k: nat, email: string, handle: Handle)
    requires !env.validEmail("") && History(env, run, ts) && k <= |run|
    ensures
      var t, t' := ts[k], Planted(env, ts[k], email, handle);
      var found := UserByEmail(t, NormalizeEmail(env, email));
      if found.None? || t.users[found.value].handle != [] || handle in t.handles then t' == t
      else
        var u := t.users[found.value];
        t' == t.(users := t.users[found.value := User(u.email, u.passwordHash, handle)],
                 handles := t.handles + {handle})
  {
    hide Effect, Sound, NormalizeEmail;
    AlwaysSound(env, run, ts, k);
    SoundHandles(ts[k]);
    Enrolment.NobodyAtBlank(env, run, ts, k);
  }
}
