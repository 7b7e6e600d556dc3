/** Two-factor state over whole runs: an enabled secret is a verified secret, and while it is
    enabled no password login succeeds without a code of it. */
module TotpLife {
  import opened Wrappers
  import opened Text
  import opened Environment
  import opened Naming
  import opened Tokens
  import opened Tables
  import opened Calls
  import opened Runs
  import opened Shapes
  import opened Frames
  import Password
  import Totp

  predicate SetsUp(call: Call, user: Id) {
    call.SetsUpTotp? && call.setup.user == Some(user)
  }

  predicate Enables(call: Call, user: Id) {
    call.EnablesTotp? && call.code.user == Some(user)
  }

  predicate Disables(call: Call, user: Id) {
    call.DisablesTotp? && call.code.user == Some(user)
  }

  /** The user's last setup in the run, unless a disable came after it. */
  function CurrentSetup(run: seq<Call>, user: Id): (n: Option<nat>)
    ensures n.Some? ==> n.value < |run| && SetsUp(run[n.value], user)
  {
    if run == [] then None
    else if SetsUp(run[|run| - 1], user) then Some(|run| - 1)
    else if Disables(run[|run| - 1], user) then None
    else CurrentSetup(run[..|run| - 1], user)
  }

  /** Nothing replaces or drops the secret of the setup at n. */
  ghost predicate Stands(run: seq<Call>, n: int, user: Id) {
    && 0 <= n < |run| && SetsUp(run[n], user)
    && forall m :: n < m < |run| ==> !SetsUp(run[m], user) && !Disables(run[m], user)
  }

  lemma {:induction false} CurrentStands(run: seq<Call>, user: Id, n: nat)
    ensures CurrentSetup(run, user) == Some(n) <==> Stands(run, n, user)
  {
    if run != [] {
      var before, call := run[..|run| - 1], run[|run| - 1];
      CurrentStands(before, user, n);
      if n < |before| {
        assert run[n] == before[n];
        assert Stands(run, n, user) <==> Stands(before, n, user) && !SetsUp(call, user) && !Disables(call, user);
      }
    }
  }

  /** A code for the secret set up at n was accepted at m. */
  ghost predicate Verified(env: Env, run: seq<Call>, n: nat, m: int, user: Id)
    requires n < |run| && run[n].SetsUpTotp?
  {
    n < m < |run| && Enables(run[m], user) &&
    Totp.Accepts(env, Totp.SecretText(run[n].setup.random), run[m].code.code, Unix(run[m].code.now))
  }

  ghost predicate EverVerified(env: Env, run: seq<Call>, n: nat, user: Id)
    requires n < |run| && run[n].SetsUpTotp?
  {
    exists m :: Verified(env, run, n, m, user)
  }

  /** The user's row is the current setup's, enabled exactly when a code of it has been verified. */
  ghost predicate TotpKnown(env: Env, run: seq<Call>, t: Tables, user: Id) {
    match CurrentSetup(run, user)
    case None => user !in t.totp
    case Some(n) =>
      var i := run[n].setup;
      && user in t.totp
      && t.totp[user].ciphertext == env.encrypt(Totp.SecretText(i.random), i.nonce)
      && t.totp[user].nonce == i.nonce
      && (t.totp[user].enabled <==> EverVerified(env, run, n, user))
  }

  lemma VerifiedSnoc(env: Env, run: seq<Call>, call: Call, n: nat, user: Id)
    requires n < |run| && run[n].SetsUpTotp?
    ensures EverVerified(env, run + [call], n, user) <==>
            EverVerified(env, run, n, user) || Verified(env, run + [call], n, |run|, user)
  {
    var run' := run + [call];
    forall m: nat | m < |run| ensures Verified(env, run', n, m, user) <==> Verified(env, run, n, m, user) {}
    if EverVerified(env, run, n, user) {
      var m :| Verified(env, run, n, m, user);
      assert Verified(env, run', n, m, user);
    }
  }

  /** A call that leaves the user's row alone and neither sets up, enables nor disables. */
  lemma OtherCall(env: Env, run: seq<Call>, call: Call, t: Tables, t': Tables, user: Id)
    requires TotpKnown(env, run, t, user)
    requires !SetsUp(call, user) && !Disables(call, user) && !Enables(call, user)
    requires user in t.totp <==> user in t'.totp
    requires user in t.totp ==> t'.totp[user] == t.totp[user]
    ensures TotpKnown(env, run + [call], t', user)
  {
    hide EverVerified;
    assert (run + [call])[..|run|] == run;
    if CurrentSetup(run, user).Some? {
      VerifiedSnoc(env, run, call, CurrentSetup(run, user).value, user);
    }
  }

  lemma SetupCall(env: Env, run: seq<Call>, t: Tables, i: SetupIn, user: Id)
    requires SetupTotp(env, t, i).Ok? && i.user == Some(user)
    ensures TotpKnown(env, run + [SetsUpTotp(i)], SetupTotp(env, t, i).value.0, user)
  {
    var u := SetupShape(env, t, i);
  }

  lemma EnableCall(env: Env, run: seq<Call>, t: Tables, i: CodeIn, user: Id)
    requires env.Decrypts() && TotpKnown(env, run, t, user)
    requires Calls.EnableTotp(env, t, i).Ok? && i.user == Some(user)
    ensures TotpKnown(env, run + [EnablesTotp(i)], Calls.EnableTotp(env, t, i).value.0, user)
  {
    hide EverVerified, Calls.EnableTotp, Totp.Accepts;
    var u, secret := EnableShape(env, t, i);
    var run' := run + [EnablesTotp(i)];
    assert run'[..|run|] == run;
    VerifiedSnoc(env, run, EnablesTotp(i), CurrentSetup(run, user).value, user);
  }

  lemma DisableCall(env: Env, run: seq<Call>, t: Tables, i: CodeIn, user: Id)
    requires DisableTotp(env, t, i).Ok? && i.user == Some(user)
    ensures TotpKnown(env, run + [DisablesTotp(i)], DisableTotp(env, t, i).value.0, user)
  {
    hide DisableTotp;
    var u, secret := DisableShape(env, t, i);
  }

  predicate RowKept(t: Tables, t': Tables, user: Id) {
    (user in t.totp <==> user in t'.totp) && (user in t.totp ==> t'.totp[user] == t.totp[user])
  }

  lemma OtherUsersTotp(env: Env, t: Tables, call: Call, user: Id)
    requires Effect(env, t, call).Some? && IsTotp(call)
    requires !SetsUp(call, user) && !Disables(call, user) && !Enables(call, user)
    ensures RowKept(t, Effect(env, t, call).value, user)
  {
    hide SetupTotp, Calls.EnableTotp, DisableTotp, Totp.Accepts, Totp.SecretText;
    match call
    case SetsUpTotp(i) => var u := SetupShape(env, t, i);
    case EnablesTotp(i) => var u, secret := EnableShape(env, t, i);
    case DisablesTotp(i) => var u, secret := DisableShape(env, t, i);
  }

  /** Calls for another user leave this user's row alone. */
  lemma RowUntouched(env: Env, t: Tables, call: Call, user: Id)
    requires Effect(env, t, call).Some? && !SetsUp(call, user) && !Disables(call, user) && !Enables(call, user)
    ensures RowKept(t, Effect(env, t, call).value, user)
  {
    hide Effect;
    if IsTotp(call) {
      OtherUsersTotp(env, t, call, user);
    } else {
      Frame(env, t, call);
    }
  }

  lemma TotpStep(env: Env, run: seq<Call>, t: Tables, call: Call, user: Id)
    requires env.Decrypts() && TotpKnown(env, run, t, user) && Effect(env, t, call).Some?
    ensures TotpKnown(env, run + [call], Effect(env, t, call).value, user)
  {
    hide TotpKnown;
    if SetsUp(call, user) {
      SetupCall(env, run, t, call.setup, user);
    } else if Enables(call, user) {
      EnableCall(env, run, t, call.code, user);
    } else if Disables(call, user) {
      DisableCall(env, run, t, call.code, user);
    } else {
      hide Effect;
      RowUntouched(env, t, call, user);
      OtherCall(env, run, call, t, Effect(env, t, call).value, user);
    }
  }

  lemma NothingSetUp(env: Env, user: Id)
    ensures TotpKnown(env, [], EMPTY, user)
  {}

  lemma {:induction false} TotpAlwaysKnown(env: Env, run: seq<Call>, ts: seq<Tables>, k: nat, user: Id)
    requires env.Decrypts() && History(env, run, ts) && k <= |run|
    ensures TotpKnown(env, run[..k], ts[k], user)
  {
    hide Effect, TotpKnown;
    if k == 0 {
      NothingSetUp(env, user);
      assert run[..0] == [];
    } else {
      TotpAlwaysKnown(env, run, ts, k - 1, user);
      At(env, run, ts, k - 1);
      TotpStep(env, run[..k - 1], ts[k - 1], run[k - 1], user);
    }
  }

  // The theorems

  /** TOTP is enabled exactly when the secret of the user's last setup, not disabled since, had a
      code of it accepted by EnableTOTP after that setup. */
  lemma EnabledMeansVerified(env: Env, run: seq<Call>, ts: seq<Tables>, k: nat, user: Id)
    requires env.Decrypts() && History(env, run, ts) && k <= |run|
    ensures TotpEnabled(ts[k], user) <==> exists n :: Stands(run[..k], n, user) && EverVerified(env, run[..k], n, user)
  {
    TotpAlwaysKnown(env, run, ts, k, user);
    forall n: nat {
      CurrentStands(run[..k], user, n);
    }
  }

  /** While TOTP is enabled, a login that succeeds carried a code that is valid, at the time of the
      login, for the very secret that was verified. */
  lemma LoginNeedsCode(env: Env, run: seq<Call>, ts: seq<Tables>, k: nat) returns (user: Id)
    requires env.Decrypts() && History(env, run, ts) && k < |run| && run[k].LogsIn?
    ensures UserByEmail(ts[k], NormalizeEmail(env, run[k].login.email)) == Some(user)
    ensures TotpEnabled(ts[k], user) ==>
              exists n :: && Stands(run[..k], n, user) && EverVerified(env, run[..k], n, user)
                          && Totp.Accepts(env, Totp.SecretText(run[n].setup.random), run[k].login.code,
                              Unix(run[k].login.now))
  {
    hide Effect, Leads, EverVerified, TotpKnown, TotpCheck, Totp.Accepts, Totp.SecretText, NormalizeEmail;
    At(env, run, ts, k);
    user := PassedLogin(env, ts[k], run[k]);
    TotpAlwaysKnown(env, run, ts, k, user);
    if TotpEnabled(ts[k], user) {
      var n := PassedCheck(env, run[..k], ts[k], user, run[k].login.code, run[k].login.now);
    }
  }

  lemma PassedLogin(env: Env, t: Tables, call: Call) returns (user: Id)
    requires call.LogsIn? && Effect(env, t, call).Some?
    ensures UserByEmail(t, NormalizeEmail(env, call.login.email)) == Some(user)
    ensures TotpCheck(env, t, user, call.login.code, call.login.now).None?
  {
    hide Login, NormalizeEmail, TotpCheck, Password.VerifyPassword, CanIssue;
    user := LoginShape(env, t, call.login);
  }

  /** A check that is passed while TOTP is enabled was passed with a code of the standing setup. */
  lemma PassedCheck(env: Env, run: seq<Call>, t: Tables, user: Id, code: string, now: int) returns (n: nat)
    requires env.Decrypts() && TotpKnown(env, run, t, user)
    requires TotpEnabled(t, user) && TotpCheck(env, t, user, code, now).None?
    ensures Stands(run, n, user) && EverVerified(env, run, n, user)
    ensures Totp.Accepts(env, Totp.SecretText(run[n].setup.random), code, Unix(now))
  {
    hide EverVerified, Totp.Accepts, Totp.SecretText;
    n := CurrentSetup(run, user).value;
    CurrentStands(run, user, n);
  }

  /** The login check in full: the stored secret always decrypts, so a user whose standing setup was
      verified is asked for a code, refused a wrong one, and let in with a right one. */
  lemma CodeCheck(env: Env, run: seq<Call>, ts: seq<Tables>, k: nat, n: nat, user: Id, code: string, now: int)
    requires env.Decrypts() && History(env, run, ts) && k <= |run| && Stands(run[..k], n, user)
    ensures TotpCheck(env, ts[k], user, code, now) ==
            if !EverVerified(env, run[..k], n, user) then None
            else if TrimSpace(code) == "" then Some(TotpRequired)
            else if Totp.Accepts(env, Totp.SecretText(run[n].setup.random), code, Unix(now)) then None
            else Some(TotpInvalid)
  {
    hide EverVerified, Totp.Accepts, Totp.SecretText, TrimSpace;
    TotpAlwaysKnown(env, run, ts, k, user);
    CurrentStands(run[..k], user, n);
  }
}
