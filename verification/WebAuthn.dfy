/** The WebAuthn half of the identity service. */
module WebAuthn {
  import opened Wrappers
  import opened Text
  import opened Environment
  import opened Naming
  import opened Tokens
  import opened Database
  import opened Calls
  import opened Ceremonies
  import opened Identity
  import Tables

  /** BeginWebAuthnLogin works outside any transaction. When it fails, the user handle it may have
      had to write remains exactly if its first two round trips, the read of the user and that
      write, have worked; nothing else of a failed call remains. */
  ghost predicate KeepsHandle(
    expected: Result<(State, Id)>, planted: State, r: Result<Id>, before: State, after: State,
    faulted: bool, faults: nat -> bool, from: nat)
  {
    && r == (if faulted then Err(Internal) else match expected case Err(e) => Err(e) case Ok((_, value)) => Ok(value))
    && after == if r.Ok? then expected.value.0 else if NoFault(faults, from, 2) then planted else before
  }

  /** The tables once the user's handle has been ensured, or as they were if it could not be. */
  function Ensured(t: State, user: Id, handle: Tables.Handle): State {
    match WithHandle(t, user, handle) case None => t case Some(t1) => t1
  }

  /** Issuing a session neither looks at the passkeys nor touches them. */
  lemma PasskeysApart(env: Env, t: State, rows: seq<Tables.Passkey>, user: Id, f: Fresh)
    ensures
      var t1 := t.(passkeys := rows);
      && CanIssue(env, t1, user, f) == CanIssue(env, t, user, f)
      && SessionOf(env, t1, user, f) == SessionOf(env, t, user, f)
      && WithSession(env, t1, user, f) == WithSession(env, t, user, f).(passkeys := rows)
      && WithSession(env, t, user, f).ceremonies == t.ceremonies
      && WithSession(env, t, user, f).audit == t.audit
      && WithSession(env, t, user, f).users == t.users
  {}

  class Passkeys {
    const env: Env
    const db: Db
    const service: Service

    constructor (service: Service)
      ensures this.service == service && env == service.env && db == service.db
    {
      this.service := service;
      this.env := service.env;
      this.db := service.db;
    }

    ghost predicate Valid() {
      service.db == db && service.env == env && service.Valid()
    }

    /** ensureWebAuthnUserHandle. */
    method EnsureHandle(user: Id, handle: Tables.Handle) returns (ok: bool)
      requires user in db.View().users
      modifies db
      ensures db.open == old(db.open) && db.failures >= old(db.failures)
      ensures ok <==> db.failures == old(db.failures) && WithHandle(old(db.View()), user, handle).Some?
      ensures db.View() == if ok then WithHandle(old(db.View()), user, handle).value else old(db.View())
      ensures db.View() == if db.faults(old(db.calls)) then old(db.View()) else Ensured(old(db.View()), user, handle)
      ensures db.open ==> db.committed == old(db.committed)
    {
      if db.View().users[user].handle != [] {
        return true;
      }
      var saved := db.Execute(Tables.SetHandle(db.View(), user, handle));
      return saved == Done;
    }

    /** The loop of webAuthnUserFromModel: opens every row and indexes the rows by credential. */
    method OpenRows(rows: seq<Tables.Passkey>)
      returns (credentials: Option<seq<Credential>>, stored: map<seq<byte>, Tables.Passkey>)
      ensures credentials == OpenAll(env, rows)
      ensures credentials.Some? ==> stored == Index(rows)
    {
      var list: seq<Credential> := [];
      stored := map[];
      for k := 0 to |rows|
        invariant OpenAll(env, rows[..k]) == Some(list)
        invariant stored == Index(rows[..k])
      {
        var row := rows[k];
        assert rows[..k + 1][..k] == rows[..k];
        var credential := Opened(env, row);
        if credential.None? {
          Unopenable(env, rows, k);
          return None, stored;
        }
        list := list + [credential.value];
        stored := stored[row.credentialId := row];
      }
      assert rows[..|rows|] == rows;
      return Some(list), stored;
    }

    /** webAuthnUserFromModel. */
    method LoadUser(user: Id, handle: Tables.Handle)
      returns (credentials: Option<seq<Credential>>, stored: map<seq<byte>, Tables.Passkey>)
      requires user in db.View().users
      modifies db
      ensures db.open == old(db.open) && db.failures >= old(db.failures)
      ensures
        var t := old(db.View());
        && (db.failures > old(db.failures) ==> credentials.None?)
        && (db.failures == old(db.failures) ==>
              credentials == if WithHandle(t, user, handle).None? then None
                  else OpenAll(env, Tables.PasskeysOf(t.passkeys, user)))
        && (credentials.Some? ==> stored == Index(Tables.PasskeysOf(t.passkeys, user)))
        && (credentials.Some? ==> WithHandle(t, user, handle).Some? && db.View() == WithHandle(t, user, handle).value)
        && (db.View() == t || WithHandle(t, user, handle) == Some(db.View()))
        && (db.failures == old(db.failures) && WithHandle(t, user, handle).Some? ==>
            WithHandle(t, user, handle) == Some(db.View()))
      ensures db.View() == if db.faults(old(db.calls)) then old(db.View()) else Ensured(old(db.View()), user, handle)
      ensures db.open ==> db.committed == old(db.committed)
    {
      credentials, stored := None, map[];
      var ok := EnsureHandle(user, handle);
      if !ok {
        return;
      }
      ok := db.Query();
      if !ok {
        return;
      }
      credentials, stored := OpenRows(Tables.PasskeysOf(db.View().passkeys, user));
    }

    /** Stores a ceremony in the current view. */
    method SaveCeremony(user: Id, flow: Tables.Flow, i: BeginIn) returns (ok: bool)
      modifies db
      ensures db.open == old(db.open) && db.failures >= old(db.failures)
      ensures ok <==> db.failures == old(db.failures) && Begun(old(db.View()), user, flow, i).Some?
      ensures db.View() == if ok then Begun(old(db.View()), user, flow, i).value else old(db.View())
      ensures db.open ==> db.committed == old(db.committed)
    {
      if i.begun.None? {
        return false;
      }
      var (data, expires) := i.begun.value;
      var saved := db.Execute(Tables.CreateCeremony(db.View(), i.ceremony, Tables.Ceremony(user, flow, data, expires)));
      return saved == Done;
    }

    method BeginRegistration(p: Principal, i: BeginIn) returns (r: Result<Id>)
      requires Valid() && !db.open
      modifies db
      ensures !db.open
      ensures Faithful(Ceremonies.BeginRegistration(env, old(db.committed), p, i), r,
                       old(db.committed), db.committed, db.failures > old(db.failures))
    {
      if !p.isUser {
        return Err(Unauthorized);
      }
      if p.user.None? {
        return Err(InvalidInput);
      }
      var ok := db.Begin();
      if !ok {
        return Err(Internal);
      }
      r := BeginRegistrationTx(p.user.value, i);
      db.Rollback();
    }

    method BeginRegistrationTx(user: Id, i: BeginIn) returns (r: Result<Id>)
      requires db.open && db.pending == db.committed
      modifies db
      ensures db.failures >= old(db.failures)
      ensures forall p: Principal :: p.isUser && p.user == Some(user) ==>
                Faithful(Ceremonies.BeginRegistration(env, old(db.committed), p, i), r,
                         old(db.committed), db.committed, db.failures > old(db.failures))
    {
      var ok := db.Query();
      if !ok {
        return Err(Internal);
      }
      if user !in db.View().users {
        return Err(Unauthorized);
      }
      var credentials, stored := LoadUser(user, i.handle);
      if credentials.None? {
        return Err(Internal);
      }
      ok := SaveCeremony(user, Tables.Registration, i);
      if ok {
        ok := db.Commit();
      }
      return if ok then Ok(i.ceremony) else Err(Internal);
    }

    method FinishRegistration(p: Principal, i: FinishIn) returns (r: Result<Id>)
      requires Valid() && !db.open
      modifies db
      ensures !db.open
      ensures Faithful(Ceremonies.FinishRegistration(env, old(db.committed), p, i), r,
                       old(db.committed), db.committed, db.failures > old(db.failures))
    {
      if !p.isUser {
        return Err(Unauthorized);
      }
      if i.response == "" || p.user.None? || i.ceremony.None? {
        return Err(InvalidInput);
      }
      var ok := db.Begin();
      if !ok {
        return Err(Internal);
      }
      r := FinishRegistrationTx(p, p.user.value, i.ceremony.value, i);
      db.Rollback();
    }

    method FinishRegistrationTx(p: Principal, user: Id, ceremony: Id, i: FinishIn) returns (r: Result<Id>)
      requires Valid() && db.open && db.pending == db.committed
      requires p.isUser && p.user == Some(user) && i.ceremony == Some(ceremony) && i.response != ""
      modifies db
      ensures db.failures >= old(db.failures)
      ensures Faithful(Ceremonies.FinishRegistration(env, old(db.committed), p, i), r,
                       old(db.committed), db.committed, db.failures > old(db.failures))
    {
      hide Tables.PasskeyTaken, OpenAll, Sealed, Tables.PasskeysOf;
      var ok := db.Query();
      if !ok {
        return Err(Internal);
      }
      if !Pending(db.View(), ceremony, Tables.Registration, i.now) || db.View().ceremonies[ceremony].user != user {
        return Err(Unauthorized);
      }
      var data := db.View().ceremonies[ceremony].data;
      ok := db.Query();
      if !ok || user !in db.View().users {
        return Err(Internal);
      }
      var credentials, stored := LoadUser(user, i.handle);
      if credentials.None? {
        return Err(Internal);
      }
      if !env.readsSession(data) {
        return Err(Internal);
      }
      if !env.parsesCreation(i.response) {
        return Err(InvalidInput);
      }
      var created := env.createCredential(db.View().users[user].handle, credentials.value, data, i.response);
      if created.None? {
        return Err(InvalidInput);
      }
      r := SavePasskey(user, ceremony, created.value, i);
    }

    /** The writes of FinishWebAuthnRegistration: insert the credential, delete the ceremony, audit. */
    method SavePasskey(user: Id, ceremony: Id, c: Credential, i: FinishIn) returns (r: Result<Id>)
      requires Valid() && db.open && user in db.pending.users
      modifies db
      ensures db.failures >= old(db.failures)
      ensures
        var t := old(db.pending);
        && r == (if db.failures > old(db.failures) then Err(Internal)
                 else if Tables.PasskeyTaken(t.passkeys, i.row, c.id) then Err(InvalidInput)
                 else Ok(i.row))
        && db.committed ==
           if r.Err? then old(db.committed)
           else t.(passkeys := t.passkeys + [Sealed(env, i.row, user, c, i.nonce)],
                   ceremonies := t.ceremonies - {ceremony},
                   audit := t.audit + [UserAudit(user, Tables.WebAuthnRegister(c.id), i.row)])
    {
      var row := Sealed(env, i.row, user, c, i.nonce);
      var saved := db.Execute(Tables.CreatePasskey(db.View(), row));
      if saved != Done {
        return Err(if saved == Rejected then InvalidInput else Internal);
      }
      var deleted := db.Execute(Some(Tables.DeleteCeremony(db.View(), ceremony)));
      if deleted != Done {
        return Err(Internal);
      }
      var ok := service.AuditAndCommit(UserAudit(user, Tables.WebAuthnRegister(c.id), i.row));
      return if ok then Ok(i.row) else Err(Internal);
    }

    method BeginLogin(email: string, i: BeginIn) returns (r: Result<Id>)
      requires Valid() && !db.open
      modifies db
      ensures !db.open
      ensures KeepsHandle(Ceremonies.BeginLogin(env, old(db.committed), email, i),
                          Planted(env, old(db.committed), email, i.handle), r, old(db.committed), db.committed,
                          db.failures > old(db.failures), db.faults, old(db.calls))
    {
      NoFaultSplit(db.faults, db.calls, 1, 1);
      NoFaultOne(db.faults, db.calls);
      NoFaultOne(db.faults, db.calls + 1);
      var normalized := NormalizeEmail(env, email);
      if normalized == "" {
        return Err(InvalidInput);
      }
      var ok := db.Query();
      if !ok {
        return Err(Internal);
      }
      var user := Tables.UserByEmail(db.View(), normalized);
      if user.None? {
        return Err(InvalidCredentials);
      }
      var credentials, stored := LoadUser(user.value, i.handle);
      if credentials.None? {
        return Err(Internal);
      }
      if credentials.value == [] {
        return Err(InvalidCredentials);
      }
      ok := SaveCeremony(user.value, Tables.Authentication, i);
      return if ok then Ok(i.ceremony) else Err(Internal);
    }

    method FinishLogin(i: FinishIn) returns (r: Result<AuthResult>)
      requires Valid() && !db.open
      modifies db
      ensures !db.open
      ensures Faithful(Ceremonies.FinishLogin(env, old(db.committed), i), r,
                       old(db.committed), db.committed, db.failures > old(db.failures))
    {
      if i.response == "" || i.ceremony.None? {
        return Err(InvalidInput);
      }
      var ok := db.Begin();
      if !ok {
        return Err(Internal);
      }
      r := FinishLoginTx(i.ceremony.value, i);
      db.Rollback();
    }

    method FinishLoginTx(ceremony: Id, i: FinishIn) returns (r: Result<AuthResult>)
      requires Valid() && db.open && db.pending == db.committed
      requires i.ceremony == Some(ceremony) && i.response != ""
      modifies db
      ensures db.failures >= old(db.failures)
      ensures Faithful(Ceremonies.FinishLogin(env, old(db.committed), i), r,
                       old(db.committed), db.committed, db.failures > old(db.failures))
    {
      var ok := db.Query();
      if !ok {
        return Err(Internal);
      }
      if !Pending(db.View(), ceremony, Tables.Authentication, i.now) {
        return Err(InvalidCredentials);
      }
      ok := db.Query();
      if !ok {
        return Err(Internal);
      }
      if db.View().ceremonies[ceremony].user !in db.View().users {
        return Err(InvalidCredentials);
      }
      r := ResumeTx(ceremony, i);
    }

    method ResumeTx(ceremony: Id, i: FinishIn) returns (r: Result<AuthResult>)
      requires Valid() && db.open && db.pending == db.committed
      requires ceremony in db.pending.ceremonies && db.pending.ceremonies[ceremony].user in db.pending.users
      modifies db
      ensures db.failures >= old(db.failures)
      ensures Faithful(Resumed(env, old(db.committed), ceremony, i), r,
                       old(db.committed), db.committed, db.failures > old(db.failures))
    {
      var credentials, stored := LoadUser(db.View().ceremonies[ceremony].user, i.handle);
      if credentials.None? {
        return Err(Internal);
      }
      if credentials.value == [] {
        return Err(InvalidCredentials);
      }
      r := ValidateTx(ceremony, credentials.value, stored, i);
    }

    /** The rest of FinishWebAuthnLogin, from the library's verdict on. */
    method ValidateTx(ceremony: Id, cs: seq<Credential>, stored: map<seq<byte>, Tables.Passkey>, i: FinishIn)
      returns (r: Result<AuthResult>)
      requires Valid() && db.open && ceremony in db.pending.ceremonies
          && db.pending.ceremonies[ceremony].user in db.pending.users
      requires stored == Index(Tables.PasskeysOf(db.pending.passkeys, db.pending.ceremonies[ceremony].user))
      modifies db
      ensures db.failures >= old(db.failures)
      ensures
        var expected := Validated(env, old(db.pending), ceremony, cs, i);
        && (db.failures > old(db.failures) ==> r == Err(Internal))
        && (db.failures == old(db.failures) ==> r == match expected case Err(e) => Err(e) case Ok((_, v)) => Ok(v))
        && (r.Ok? ==> expected.Ok? && db.committed == expected.value.0)
        && (r.Err? ==> db.committed == old(db.committed))
    {
      var user := db.View().ceremonies[ceremony].user;
      var data := db.View().ceremonies[ceremony].data;
      if !env.readsSession(data) {
        return Err(Internal);
      }
      if !env.parsesAssertion(i.response) {
        return Err(InvalidInput);
      }
      var valid := env.validateLogin(db.View().users[user].handle, cs, data, i.response);
      if valid.None? || valid.value.id !in stored {
        return Err(InvalidCredentials);
      }
      r := SaveLogin(user, ceremony, stored[valid.value.id], valid.value, i);
    }

    /** The writes of FinishWebAuthnLogin. */
    method SaveLogin(user: Id, ceremony: Id, row: Tables.Passkey, c: Credential, i: FinishIn)
        returns (r: Result<AuthResult>)
      requires Valid() && db.open && user in db.pending.users && row in db.pending.passkeys
      modifies db
      ensures db.failures >= old(db.failures)
      ensures
        var t := old(db.pending);
        && r == (if db.failures > old(db.failures) || !CanIssue(env, t, user, i.session) then Err(Internal)
                 else Ok(SessionOf(env, t, user, i.session)))
        && db.committed ==
           if r.Err? then old(db.committed)
           else WithSession(env, t, user, i.session).(
                  passkeys := Tables.Resealed(t.passkeys, row.id, env.encrypt(env.marshal(c), i.nonce), i.nonce),
                  ceremonies := t.ceremonies - {ceremony},
                  audit := t.audit + [UserAudit(user, Tables.WebAuthnLogin(row.credentialId), row.id)])
    {
      hide Tables.PasskeysOf, Tables.Resealed, CanIssue, SessionOf, WithSession;
      var ciphertext := env.encrypt(env.marshal(c), i.nonce);
      var updated := db.Execute(Tables.UpdatePasskey(db.View(), row.id, ciphertext, i.nonce));
      if updated != Done {
        return Err(Internal);
      }
      PasskeysApart(env, old(db.pending), db.pending.passkeys, user, i.session);
      var ok := db.Query();
      if !ok {
        return Err(Internal);
      }
      r := service.IssueSession(user, i.session);
      if r.Err? {
        return;
      }
      var deleted := db.Execute(Some(Tables.DeleteCeremony(db.View(), ceremony)));
      if deleted != Done {
        return Err(Internal);
      }
      ok := service.AuditAndCommit(UserAudit(user, Tables.WebAuthnLogin(row.credentialId), row.id));
      if !ok {
        return Err(Internal);
      }
    }
  }

  /** One row that does not open spoils the whole list. */
  lemma {:induction false} Unopenable(env: Env, rows: seq<Tables.Passkey>, k: nat)
    requires k < |rows| && Opened(env, rows[k]).None?
    ensures OpenAll(env, rows).None?
  {
    if k < |rows| - 1 {
      Unopenable(env, rows[..|rows| - 1], k);
    }
  }

  /** All-or-nothing fails for BeginWebAuthnLogin: with one user who has no handle, and the third round
      trip, the list of the user's credentials, failing, the call answers an error and the handle stays. */
  lemma HandleOutlivesFailure(env: Env, email: string, i: BeginIn, r: Result<Id>, after: State)
    requires NormalizeEmail(env, email) != ""
    requires
      var name := NormalizeEmail(env, email);
      var t := Tables.EMPTY.(users := map[0 := Tables.User(name, "", [])], emails := map[name := 0]);
      KeepsHandle(Ceremonies.BeginLogin(env, t, email, i), Planted(env, t, email, i.handle), r, t, after, true,
          n => n == 2, 0)
    ensures r == Err(Internal) && 0 in after.users && after.users[0].handle == i.handle != []
  {}
}
