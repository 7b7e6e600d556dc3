/** One-time passwords as the calls meet them: which text is accepted when the clock, in nanoseconds,
    stands at which reading, and what setup, enable and disable then answer and store. */
module TotpAnswers {
  import opened Wrappers
  import opened Text
  import opened Rfc4648
  import opened Environment
  import opened Naming
  import opened Tokens
  import opened Tables
  import opened Calls
  import opened Runs
  import opened Accounts
  import opened TotpLife
  import opened Totp

  // The clock

  /** Seconds are rounded down, before the epoch too. */
  lemma UnixIsFloor(now: int)
    ensures 1_000_000_000 * Unix(now) <= now < 1_000_000_000 * (Unix(now) + 1)
  {}

  /** The window of a step in nanoseconds: ninety seconds from the epoch on. Before it, steps 0 and 1 as soon as
      truncation toward zero reaches them. */
  lemma WindowOnClock(c: nat, now: int)
    ensures now >= 0 ==> (InWindow(c, Unix(now)) <==> 30_000_000_000 * (c - 1) <= now < 30_000_000_000 * (c + 2))
    ensures now < 0 ==>
              (InWindow(c, Unix(now)) <==> (c == 0 && now >= -59_000_000_000) || (c == 1 && now >= -29_000_000_000))
  {
    UnixIsFloor(now);
    if now >= 0 {
      WindowIsNinetySeconds(c, Unix(now));
    } else {
      WindowBeforeEpoch(c, Unix(now));
    }
  }

  /** A code is accepted exactly when it is that of a step less than two periods behind the clock reading, or
      at most one ahead of it. */
  lemma AcceptedOnClock(env: Env, secret: string, code: string, now: int)
    requires now >= 0
    ensures Accepts(env, secret, code, Unix(now)) <==>
              |TrimSpace(code)| == 6 &&
              exists c: nat :: 30_000_000_000 * (c - 1) <= now < 30_000_000_000 * (c + 2)
                               && Code(env, secret, c) == TrimSpace(code)
  {
    hide Code, TrimSpace, InWindow, Unix;
    forall c: nat
      ensures InWindow(c, Unix(now)) <==> 30_000_000_000 * (c - 1) <= now < 30_000_000_000 * (c + 2)
    {
      WindowOnClock(c, now);
    }
  }

  /** Six digits of the value RFC 6238 gives this key at a step around the clock reading: steps of thirty seconds,
      one step of tolerance on either side, the truncated HMAC modulo a million. */
  ghost predicate CodeOfStepAt(env: Env, key: seq<byte>, digits: string, c: nat, now: int) {
    && |digits| == 6 && AllDigits(digits)
    && 30_000_000_000 * (c - 1) <= now < 30_000_000_000 * (c + 2)
    && Value(digits) == Truncate(env.hmacSha1(key, BigEndian(c, 8))) % 1_000_000
  }

  ghost predicate RightCode(env: Env, key: seq<byte>, code: string, now: int) {
    exists c: nat :: CodeOfStepAt(env, key, TrimSpace(code), c, now)
  }

  /** From the clock to the digits: a text is accepted exactly when the secret decodes and the text is a right code
      of the decoded key. */
  lemma AcceptedDigits(env: Env, secret: string, code: string, now: int)
    requires now >= 0
    ensures
      var key := Base32DecodeUnpadded(MapChars(secret, env.upper));
      Accepts(env, secret, code, Unix(now)) <==> key.Some? && RightCode(env, key.value, code, now)
  {
    hide Base32DecodeUnpadded, MapChars, TrimSpace, Unix, Accepts, AllDigits, CodeOfStepAt, Spells;
    UnixIsFloor(now);
    AcceptedCodes(env, secret, code, Unix(now));
    var key, digits := Base32DecodeUnpadded(MapChars(secret, env.upper)), TrimSpace(code);
    if key.Some? {
      forall c: nat
        ensures CodeOfStepAt(env, key.value, digits, c, now) <==>
                  |digits| == 6 && AllDigits(digits) && Spells(env, key.value, digits, c, Unix(now))
      {
        SpeltOnClock(env, key.value, digits, c, now);
      }
    }
  }

  lemma SpeltOnClock(env: Env, key: seq<byte>, digits: string, c: nat, now: int)
    requires now >= 0
    ensures CodeOfStepAt(env, key, digits, c, now) <==>
              |digits| == 6 && AllDigits(digits) && Spells(env, key, digits, c, Unix(now))
  {
    hide BigEndian, Truncate, Value, AllDigits, Unix;
    UnixIsFloor(now);
  }

  /** So the secret a setup answers with is checked as the twenty random bytes it spells. */
  lemma AcceptedForSetup(env: Env, random: Mac, code: string, now: int)
    requires env.CaseMapping() && now >= 0
    ensures Accepts(env, SecretText(random), code, Unix(now)) <==> RightCode(env, random, code, now)
  {
    hide Base32DecodeUnpadded, MapChars, Unix, Accepts, SecretText, RightCode;
    SecretDecodes(env, random);
    AcceptedDigits(env, SecretText(random), code, now);
  }

  lemma SecretDecodes(env: Env, random: Mac)
    requires env.CaseMapping()
    ensures Base32DecodeUnpadded(MapChars(SecretText(random), env.upper)) == Some(random)
  {
    hide Base32DecodeUnpadded, MapChars, Base32Encode;
    Base32RoundTrip(random, env.upper);
  }

  // The calls

  /** SetupTOTP succeeds for exactly the users there are. Its answer spells the random bytes, and the row it stores,
      not enabled, decrypts to that answer; a row the user had before is replaced. */
  lemma SetupExactly(env: Env, t: Tables, i: SetupIn)
    requires env.CaseMapping() && env.Decrypts()
    ensures SetupTotp(env, t, i).Ok? <==> i.user.Some? && i.user.value in t.users
    ensures SetupTotp(env, t, i).Err? ==> SetupTotp(env, t, i).error == if i.user.None? then InvalidInput else Internal
    ensures SetupTotp(env, t, i).Ok? ==>
              var ((t', secret), user) := (SetupTotp(env, t, i).value, i.user.value);
              && Base32DecodeUnpadded(MapChars(secret, env.upper)) == Some(i.random)
              && user in t'.totp && !t'.totp[user].enabled
              && env.decrypt(t'.totp[user].ciphertext, t'.totp[user].nonce) == Some(secret)
              && t' == t.(totp := t.totp[user := t'.totp[user]],
                          audit := t.audit + [Audit(None, "user", Some(user), None, TotpSetup, user)])
  {
    hide Base32DecodeUnpadded, MapChars, SecretText;
    SecretDecodes(env, i.random);
  }

  lemma SoundTotp(t: Tables, user: Id)
    requires Sound(t) && user in t.totp
    ensures user in t.users
  {
    hide Agreed, KeyHashesAgree;
  }

  /** The stored secret of a standing setup. */
  lemma StandingRow(env: Env, run: seq<Call>, ts: seq<Tables>, k: nat, n: nat, user: Id)
    requires env.Decrypts() && History(env, run, ts) && k <= |run| && Stands(run[..k], n, user)
    ensures user in ts[k].totp && user in ts[k].users
    ensures env.decrypt(ts[k].totp[user].ciphertext, ts[k].totp[user].nonce) == Some(SecretText(run[n].setup.random))
    ensures ts[k].totp[user].enabled <==> EverVerified(env, run[..k], n, user)
  {
    hide Effect, EverVerified, SecretText, Sound;
    TotpAlwaysKnown(env, run, ts, k, user);
    CurrentStands(run[..k], user, n);
    AlwaysSound(env, run, ts, k);
    SoundTotp(ts[k], user);
  }

  /** EnableTOTP, at any point of a history with a standing setup: the right code enables the row and changes
      nothing else, and any other text is refused. */
  lemma EnableOnClock(env: Env, run: seq<Call>, ts: seq<Tables>, k: nat, n: nat, user: Id, code: string, now: int)
    requires env.Decrypts() && env.CaseMapping() && now >= 0
    requires History(env, run, ts) && k <= |run| && Stands(run[..k], n, user)
    ensures
      var t := ts[k];
      && user in t.totp
      && Calls.EnableTotp(env, t, CodeIn(Some(user), code, now)) ==
         if RightCode(env, run[n].setup.random, code, now)
         then Ok((t.(totp := t.totp[user := TotpRow(t.totp[user].ciphertext, t.totp[user].nonce, true)],
                     audit := t.audit + [Audit(None, "user", Some(user), None, TotpEnable, user)]), true))
         else Err(TotpInvalid)
  {
    hide Effect, EverVerified, SecretText, RightCode, Accepts, Unix;
    StandingRow(env, run, ts, k, n, user);
    AcceptedForSetup(env, run[n].setup.random, code, now);
  }

  /** DisableTOTP likewise: only a verified setup can be disabled, and only with a right code. */
  lemma DisableOnClock(env: Env, run: seq<Call>, ts: seq<Tables>, k: nat, n: nat, user: Id, code: string, now: int)
    requires env.Decrypts() && env.CaseMapping() && now >= 0
    requires History(env, run, ts) && k <= |run| && Stands(run[..k], n, user)
    ensures
      var t := ts[k];
      DisableTotp(env, t, CodeIn(Some(user), code, now)) ==
      if !EverVerified(env, run[..k], n, user) then Err(InvalidInput)
      else if RightCode(env, run[n].setup.random, code, now)
      then Ok((t.(totp := t.totp - {user},
                  audit := t.audit + [Audit(None, "user", Some(user), None, TotpDisable, user)]), false))
      else Err(TotpInvalid)
  {
    hide Effect, EverVerified, SecretText, RightCode, Accepts, Unix;
    StandingRow(env, run, ts, k, n, user);
    AcceptedForSetup(env, run[n].setup.random, code, now);
  }

  /** Without a standing setup there is nothing to enable or to disable, and no code is asked for. */
  lemma NothingStanding(env: Env, run: seq<Call>, ts: seq<Tables>, k: nat, user: Id, code: string, now: int)
    requires env.Decrypts() && History(env, run, ts) && k <= |run| && !exists n :: Stands(run[..k], n, user)
    ensures Calls.EnableTotp(env, ts[k], CodeIn(Some(user), code, now)) == Err(InvalidInput)
    ensures DisableTotp(env, ts[k], CodeIn(Some(user), code, now)) == Err(InvalidInput)
    ensures TotpCheck(env, ts[k], user, code, now) == None
  {
    hide Effect, EverVerified, SecretText, Accepts, Unix;
    TotpAlwaysKnown(env, run, ts, k, user);
    var current := CurrentSetup(run[..k], user);
    if current.Some? {
      CurrentStands(run[..k], user, current.value);
    }
  }

  /** What counts as verified, on the clock: an EnableTOTP after the setup presented a right code. */
  lemma VerifiedOnClock(env: Env, run: seq<Call>, n: nat, m: nat, user: Id)
    requires env.CaseMapping() && n < m < |run| && run[n].SetsUpTotp? && Enables(run[m], user)
    requires run[m].code.now >= 0
    ensures Verified(env, run, n, m, user) <==>
              RightCode(env, run[n].setup.random, run[m].code.code, run[m].code.now)
  {
    hide RightCode, Accepts, Unix, SecretText;
    AcceptedForSetup(env, run[n].setup.random, run[m].code.code, run[m].code.now);
  }

  /** The check of a password login, on the clock: a user whose standing setup was verified is asked for a code, let in
      with a right one and refused with any other. */
  lemma LoginOnClock(env: Env, run: seq<Call>, ts: seq<Tables>, k: nat, n: nat, user: Id, code: string, now: int)
    requires env.Decrypts() && env.CaseMapping() && now >= 0
    requires History(env, run, ts) && k <= |run| && Stands(run[..k], n, user)
    ensures TotpCheck(env, ts[k], user, code, now) ==
            if !EverVerified(env, run[..k], n, user) then None
            else if TrimSpace(code) == "" then Some(TotpRequired)
            else if RightCode(env, run[n].setup.random, code, now) then None
            else Some(TotpInvalid)
  {
    hide Effect, EverVerified, SecretText, RightCode, Accepts, Unix, TrimSpace, TotpCheck;
    CodeCheck(env, run, ts, k, n, user, code, now);
    AcceptedForSetup(env, run[n].setup.random, code, now);
  }

  /** While TOTP is enabled, a password login that succeeds carried a right code, at its own clock reading, of the
      secret that stands verified. */
  lemma LoginNeedsRightCode(env: Env, run: seq<Call>, ts: seq<Tables>, k: nat) returns (user: Id)
    requires env.Decrypts() && env.CaseMapping() && History(env, run, ts) && k < |run|
    requires run[k].LogsIn? && run[k].login.now >= 0
    ensures UserByEmail(ts[k], NormalizeEmail(env, run[k].login.email)) == Some(user)
    ensures TotpEnabled(ts[k], user) ==>
              exists n :: && Stands(run[..k], n, user) && EverVerified(env, run[..k], n, user)
                          && RightCode(env, run[n].setup.random, run[k].login.code, run[k].login.now)
  {
    hide Effect, Leads, EverVerified, Accepts, SecretText, NormalizeEmail, RightCode, Unix;
    user := LoginNeedsCode(env, run, ts, k);
    if TotpEnabled(ts[k], user) {
      var n :| && Stands(run[..k], n, user) && EverVerified(env, run[..k], n, user)
               && Accepts(env, SecretText(run[n].setup.random), run[k].login.code, Unix(run[k].login.now));
      AcceptedForSetup(env, run[n].setup.random, run[k].login.code, run[k].login.now);
    }
  }
}
