/** Passkeys over whole runs: every stored row opens to a credential with the row's own identifier,
    so the list and the index a login builds correspond one to one. */
module PasskeyLife {
  import opened Wrappers
  import opened Environment
  import opened Tokens
  import opened Tables
  import opened Calls
  import opened Ceremonies
  import opened Runs
  import opened Shapes
  import opened Frames
  import opened References
  import opened Accounts

  /** The row decrypts and unmarshals to a credential with the row's credential_id. */
  ghost predicate OpensToItself(env: Env, p: Passkey) {
    Opened(env, p).Some? && Opened(env, p).value.id == p.credentialId
  }

  ghost predicate Intact(env: Env, rows: seq<Passkey>) {
    forall i :: 0 <= i < |rows| ==> OpensToItself(env, rows[i])
  }

  lemma SealedOpens(env: Env, id: Id, user: Id, c: Credential, nonce: Nonce)
    requires env.Decrypts() && env.Unmarshals()
    ensures Opened(env, Sealed(env, id, user, c, nonce)) == Some(c)
    ensures OpensToItself(env, Sealed(env, id, user, c, nonce))
  {
    assert env.decrypt(env.encrypt(env.marshal(c), nonce), nonce) == Some(env.marshal(c));
    assert env.unmarshal(env.marshal(c)) == Some(c);
  }

  lemma RegisteredIntact(env: Env, rows: seq<Passkey>, p: Passkey)
    requires Intact(env, rows) && OpensToItself(env, p)
    ensures Intact(env, rows + [p])
  {
    hide OpensToItself;
  }

  /** Writing a credential back under the identifier it has keeps every row intact. */
  lemma ResealedIntact(env: Env, rows: seq<Passkey>, row: Passkey, c: Credential, nonce: Nonce)
    requires env.Decrypts() && env.Unmarshals()
    requires Intact(env, rows) && Unmixed(rows) && row in rows && c.id == row.credentialId
    ensures Intact(env, Resealed(rows, row.id, env.encrypt(env.marshal(c), nonce), nonce))
  {
    hide OpensToItself;
    var rows' := Resealed(rows, row.id, env.encrypt(env.marshal(c), nonce), nonce);
    forall i | 0 <= i < |rows'| ensures OpensToItself(env, rows'[i]) {
      if rows[i].id == row.id {
        SealedOpens(env, row.id, row.user, c, nonce);
        assert rows[i] == row;
        assert rows'[i] == Sealed(env, row.id, row.user, c, nonce);
      }
    }
  }

  lemma RegistrationIntact(env: Env, t: Tables, p: Principal, i: FinishIn)
    requires env.Decrypts() && env.Unmarshals() && FinishRegistration(env, t, p, i).Ok? && Intact(env, t.passkeys)
    ensures Intact(env, FinishRegistration(env, t, p, i).value.0.passkeys)
  {
    hide Intact, FinishRegistration, WithHandle, Sealed, PasskeyTaken;
    var user, ceremony, c := FinishRegistrationShape(env, t, p, i);
    SealedOpens(env, i.row, user, c, i.nonce);
    RegisteredIntact(env, t.passkeys, Sealed(env, i.row, user, c, i.nonce));
  }

  lemma LoginIntact(env: Env, t: Tables, i: FinishIn)
    requires env.Decrypts() && env.Unmarshals() && FinishLogin(env, t, i).Ok?
    requires Intact(env, t.passkeys) && Unmixed(t.passkeys)
    ensures Intact(env, FinishLogin(env, t, i).value.0.passkeys)
  {
    hide Intact, Unmixed, FinishLogin, Validated, WithHandle, OpenAll, Resealed;
    var user, ceremony, cs := FinishLoginShape(env, t, i);
    HandleShape(t, user, i.handle);
    var user', c, row := ValidatedShape(env, WithHandle(t, user, i.handle).value, ceremony, cs, i);
    ResealedIntact(env, t.passkeys, row, c, i.nonce);
  }

  lemma PasskeyStep(env: Env, t: Tables, call: Call)
    requires env.Decrypts() && env.Unmarshals() && Effect(env, t, call).Some?
    requires Intact(env, t.passkeys) && Unmixed(t.passkeys)
    ensures Intact(env, Effect(env, t, call).value.passkeys)
  {
    hide Intact, Unmixed, FinishRegistration, FinishLogin;
    match call
    case FinishesRegistration(p, i) => RegistrationIntact(env, t, p, i);
    case FinishesLogin(i) => LoginIntact(env, t, i);
    case _ =>
      hide Effect;
      Frame(env, t, call);
  }

  lemma SoundPasskeys(t: Tables)
    requires Sound(t)
    ensures Unmixed(t.passkeys)
  {
    hide Agreed, Unmixed;
  }

  lemma NoneToOpen(env: Env)
    ensures Intact(env, EMPTY.passkeys)
  {}

  /** Row and contents agree at every point of a history, and rows are unique in both identifiers. */
  lemma {:induction false} AlwaysIntact(env: Env, run: seq<Call>, ts: seq<Tables>, k: nat)
    requires env.Decrypts() && env.Unmarshals() && History(env, run, ts) && k <= |run|
    ensures Intact(env, ts[k].passkeys) && Unmixed(ts[k].passkeys)
  {
    hide Effect, Sound, Intact, Unmixed;
    AlwaysSound(env, run, ts, k);
    SoundPasskeys(ts[k]);
    if k == 0 {
      NoneToOpen(env);
    } else {
      AlwaysIntact(env, run, ts, k - 1);
      At(env, run, ts, k - 1);
      PasskeyStep(env, ts[k - 1], run[k - 1]);
    }
  }

  // The list and the index of one user

  lemma {:induction false} PasskeysOfUnmixed(rows: seq<Passkey>, user: Id)
    requires Unmixed(rows)
    ensures Unmixed(PasskeysOf(rows, user))
  {
    if rows != [] {
      var before, last := rows[..|rows| - 1], rows[|rows| - 1];
      PasskeysOfUnmixed(before, user);
      var r := PasskeysOf(before, user);
      forall i | 0 <= i < |r| ensures r[i].id != last.id && r[i].credentialId != last.credentialId {
        assert r[i] in before;
      }
    }
  }

  lemma {:induction false} IntactOpens(env: Env, rows: seq<Passkey>)
    requires Intact(env, rows)
    ensures OpenAll(env, rows).Some?
    ensures forall k :: 0 <= k < |rows| ==> OpenAll(env, rows).value[k].id == rows[k].credentialId
  {
    if rows != [] {
      var before := rows[..|rows| - 1];
      assert forall i :: 0 <= i < |before| ==> before[i] == rows[i];
      IntactOpens(env, before);
      assert OpensToItself(env, rows[|rows| - 1]);
    }
  }

  lemma {:induction false} IndexFinds(rows: seq<Passkey>, k: nat)
    requires Unmixed(rows) && k < |rows|
    ensures rows[k].credentialId in Index(rows) && Index(rows)[rows[k].credentialId] == rows[k]
  {
    if k < |rows| - 1 {
      IndexFinds(rows[..|rows| - 1], k);
    }
  }

  /** At every point of a history the credentials a login loads and the index it builds beside them
      correspond one to one: the i-th credential's identifier leads to the i-th row, and every
      key of the index is the identifier of some credential. */
  lemma ListMatchesIndex(env: Env, run: seq<Call>, ts: seq<Tables>, k: nat, user: Id)
    requires env.Decrypts() && env.Unmarshals() && History(env, run, ts) && k <= |run|
    ensures
      var rows := PasskeysOf(ts[k].passkeys, user);
      var cs := OpenAll(env, rows);
      && cs.Some? && |cs.value| == |rows|
      && (forall i :: 0 <= i < |rows| ==> cs.value[i].id in Index(rows) && Index(rows)[cs.value[i].id] == rows[i])
      && (forall id :: id in Index(rows) ==> exists i :: 0 <= i < |rows| && cs.value[i].id == id)
  {
    hide OpenAll, Index, OpensToItself, Unmixed;
    AlwaysIntact(env, run, ts, k);
    var all := ts[k].passkeys;
    var rows := PasskeysOf(all, user);
    PasskeysOfUnmixed(all, user);
    forall i | 0 <= i < |rows| ensures OpensToItself(env, rows[i]) {
      assert rows[i] in all;
    }
    IntactOpens(env, rows);
    forall i: nat | i < |rows| {
      IndexFinds(rows, i);
    }
    forall id | id in Index(rows) ensures exists i :: 0 <= i < |rows| && OpenAll(env, rows).value[i].id == id {
      assert Index(rows)[id] in rows;
      var i :| 0 <= i < |rows| && rows[i] == Index(rows)[id];
      assert OpenAll(env, rows).value[i].id == id;
    }
  }

  /** The branch of FinishWebAuthnLogin for a validated credential without a row is never taken: at every
      point of a history, whatever credential the library validates has a row in the index. */
  lemma ValidatedHasRow(env: Env, run: seq<Call>, ts: seq<Tables>, k: nat, user: Id, data: string, response: string)
    requires env.Decrypts() && env.Unmarshals() && env.ReturnsOwnCredential() && History(env, run, ts) && k <= |run|
    ensures
      var rows := PasskeysOf(ts[k].passkeys, user);
      var cs := OpenAll(env, rows);
      cs.Some? && forall handle ::
        env.validateLogin(handle, cs.value, data, response).Some? ==>
          env.validateLogin(handle, cs.value, data, response).value.id in Index(rows)
  {
    hide OpenAll, Index;
    ListMatchesIndex(env, run, ts, k, user);
  }

  // Who a passkey logs in

  /** Call n registered this row for the row's user. */
  ghost predicate RegisteredBy(run: seq<Call>, ts: seq<Tables>, n: int, row: Passkey) {
    && 0 <= n < |run| && n + 1 < |ts|
    && run[n].FinishesRegistration? && run[n].p.user == Some(row.user) && run[n].finish.row == row.id
    && ts[n + 1].audit != [] && Entry(ts[n + 1]).action == WebAuthnRegister(row.credentialId)
  }

  predicate SameRow(a: Passkey, b: Passkey) {
    a.id == b.id && a.user == b.user && a.credentialId == b.credentialId
  }

  /** Where a row comes from, one call back: it was there before, or the call registered it. */
  lemma RowBefore(env: Env, t: Tables, call: Call, row: Passkey) returns (was: Option<Passkey>)
    requires Effect(env, t, call).Some? && row in Effect(env, t, call).value.passkeys
    ensures was.Some? ==> was.value in t.passkeys && SameRow(was.value, row)
    ensures was.None? ==>
              && call.FinishesRegistration? && call.p.user == Some(row.user) && call.finish.row == row.id
              && Effect(env, t, call).value.audit != []
              && Entry(Effect(env, t, call).value).action == WebAuthnRegister(row.credentialId)
  {
    hide FinishRegistration, FinishLogin;
    match call
    case FinishesRegistration(p, i) =>
      if row in t.passkeys {
        was := Some(row);
      } else {
        RegisteredNow(env, t, p, i, row);
        was := None;
      }
    case FinishesLogin(i) =>
      var before := UpdatedNow(env, t, i, row);
      was := Some(before);
    case _ =>
      hide Effect;
      Frame(env, t, call);
      was := Some(row);
  }

  lemma RegisteredNow(env: Env, t: Tables, p: Principal, i: FinishIn, row: Passkey)
    requires FinishRegistration(env, t, p, i).Ok?
    requires row in FinishRegistration(env, t, p, i).value.0.passkeys && row !in t.passkeys
    ensures p.user == Some(row.user) && i.row == row.id
    ensures
      var t' := FinishRegistration(env, t, p, i).value.0;
      t'.audit != [] && Entry(t').action == WebAuthnRegister(row.credentialId)
  {
    hide FinishRegistration, WithHandle;
    var user, ceremony, c := FinishRegistrationShape(env, t, p, i);
  }

  lemma UpdatedNow(env: Env, t: Tables, i: FinishIn, row: Passkey) returns (before: Passkey)
    requires FinishLogin(env, t, i).Ok? && row in FinishLogin(env, t, i).value.0.passkeys
    ensures before in t.passkeys && SameRow(before, row)
  {
    hide FinishLogin, Validated, WithHandle, OpenAll, Index, PasskeysOf;
    var user, ceremony, cs := FinishLoginShape(env, t, i);
    HandleShape(t, user, i.handle);
    var user', c, used := ValidatedShape(env, WithHandle(t, user, i.handle).value, ceremony, cs, i);
    var k :| 0 <= k < |t.passkeys| && FinishLogin(env, t, i).value.0.passkeys[k] == row;
    before := t.passkeys[k];
  }

  lemma {:induction false} RegisteredRow(env: Env, run: seq<Call>, ts: seq<Tables>, k: nat, row: Passkey)
      returns (n: nat)
    requires History(env, run, ts) && k <= |run| && row in ts[k].passkeys
    ensures n < k && RegisteredBy(run, ts, n, row)
  {
    hide Effect;
    At(env, run, ts, k - 1);
    var was := RowBefore(env, ts[k - 1], run[k - 1], row);
    if was.Some? {
      n := RegisteredRow(env, run, ts, k - 1, was.value);
    } else {
      n := k - 1;
    }
  }

  /** The row a passkey login used. */
  lemma UsedRow(env: Env, t: Tables, i: FinishIn) returns (row: Passkey)
    requires FinishLogin(env, t, i).Ok?
    ensures row in t.passkeys
    ensures
      var t' := FinishLogin(env, t, i).value.0;
      && i.session.tokenId in t'.tokens && t'.tokens[i.session.tokenId].user == row.user
      && t'.audit != [] && Entry(t').action == WebAuthnLogin(row.credentialId)
  {
    hide FinishLogin, Validated, WithHandle, OpenAll;
    var user, ceremony, cs := FinishLoginShape(env, t, i);
    HandleShape(t, user, i.handle);
    var user', c, used := ValidatedShape(env, WithHandle(t, user, i.handle).value, ceremony, cs, i);
    row := used;
    assert row in PasskeysOf(t.passkeys, user);
  }

  /** A passkey login opens a session of the very user for whom the credential it names in the audit log
      was registered, by a call the log names it in too. */
  lemma PasskeyLogsInItsOwner(env: Env, run: seq<Call>, ts: seq<Tables>, k: nat) returns (n: nat)
    requires History(env, run, ts) && k < |run| && run[k].FinishesLogin?
    ensures n < k && run[n].FinishesRegistration? && run[n].p.user.Some?
    ensures
      var id := run[k].finish.session.tokenId;
      id in ts[k + 1].tokens && ts[k + 1].tokens[id].user == run[n].p.user.value
    ensures ts[n + 1].audit != [] && ts[k + 1].audit != []
    ensures exists c :: Entry(ts[n + 1]).action == WebAuthnRegister(c) && Entry(ts[k + 1]).action == WebAuthnLogin(c)
  {
    At(env, run, ts, k);
    hide FinishLogin;
    var row := UsedRow(env, ts[k], run[k].finish);
    n := RegisteredRow(env, run, ts, k, row);
  }
}
