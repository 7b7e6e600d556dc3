/** Sessions over runs of whole calls. The refresh-token table of the service is the one the
    protocol's serial history gives, so its chains and their conservation hold for it too. */
module Sessions {
  import opened Wrappers
  import opened Text
  import opened Environment
  import opened Naming
  import opened Tokens
  import opened Tables
  import opened Calls
  import opened Ceremonies
  import opened Runs
  import opened Shapes
  import opened Frames
  import opened Accounts
  import Chains = RotationChains
  import Password

  // One call

  /** A refresh on its own is the serial rotation of the protocol: it gives the tables of the event. */
  lemma RefreshIsRotation(env: Env, t: Tables, i: RefreshIn, n: nat)
    requires TokensAgree(t.tokens, t.tokenHashes, t.users.Keys) && Refresh(env, t, i).Ok?
    ensures
      var id := TokenByHash(t, env.refreshHash(i.raw));
      && id.Some?
      && Serially(t.tokens, env.refreshTtl, Rotation(env, n, id.value, i)) == Some(Refresh(env, t, i).value.0.tokens)
  {
    hide Refresh;
    var id := RefreshShape(env, t, i);
    HashesTaken(t.tokens, t.tokenHashes, t.users.Keys, env.refreshHash(i.session.raw));
  }

  function Rotation(env: Env, n: nat, id: Id, i: RefreshIn): Event {
    Rotated(n, id, env.refreshHash(i.raw), i.now, i.start, i.session.tokenId,
            env.refreshHash(i.session.raw), i.session.issuedAt)
  }

  /** And it succeeds exactly when the protocol may rotate: the serial rotation of some row is possible. */
  lemma RefreshesWhenRotatable(env: Env, t: Tables, i: RefreshIn, n: nat)
    requires TokensAgree(t.tokens, t.tokenHashes, t.users.Keys) && TrimSpace(i.raw) != ""
    ensures Refresh(env, t, i).Ok? <==>
              exists id: Id :: Serially(t.tokens, env.refreshTtl, Rotation(env, n, id, i)).Some?
  {
    hide TrimSpace;
    if Refresh(env, t, i).Ok? {
      RefreshIsRotation(env, t, i, n);
      var id := TokenByHash(t, env.refreshHash(i.raw)).value;
      assert Serially(t.tokens, env.refreshTtl, Rotation(env, n, id, i)).Some?;
    }
    forall id: Id | Serially(t.tokens, env.refreshTtl, Rotation(env, n, id, i)).Some? ensures Refresh(env, t, i).Ok? {
      HashesTaken(t.tokens, t.tokenHashes, t.users.Keys, env.refreshHash(i.session.raw));
      assert TokenByHash(t, env.refreshHash(i.raw)) == Some(id);
    }
  }

  /** A refresh is refused as invalid exactly when the protocol may refuse it: when no row with the
      presented hash is acceptable. */
  lemma RefusalIsDenial(env: Env, t: Tables, i: RefreshIn)
    requires TokensAgree(t.tokens, t.tokenHashes, t.users.Keys) && TrimSpace(i.raw) != ""
    ensures Refresh(env, t, i) == Err(RefreshTokenInvalid) <==> !Acceptable(t.tokens, env.refreshHash(i.raw), i.now)
  {
    hide TrimSpace;
    var hash := env.refreshHash(i.raw);
    match TokenByHash(t, hash)
    case None =>
      assert forall id :: id in t.tokens ==> t.tokens[id].hash != hash;
    case Some(id) =>
      assert forall other :: other in t.tokens && t.tokens[other].hash == hash ==> other == id;
  }

  lemma HashesTaken(tokens: Table, hashes: map<string, Id>, users: set<Id>, hash: string)
    requires TokensAgree(tokens, hashes, users)
    ensures HashTaken(tokens, hash) <==> hash in hashes
  {}

  /** A new session is the serial issuing of a root. */
  lemma SessionIsRoot(env: Env, t: Tables, user: Id, f: Fresh, n: nat)
    requires TokensAgree(t.tokens, t.tokenHashes, t.users.Keys)
    requires f.tokenId !in t.tokens && env.refreshHash(f.raw) !in t.tokenHashes
    ensures Serially(t.tokens, env.refreshTtl, Root(env, n, user, f)) == Some(WithSession(env, t, user, f).tokens)
  {
    HashesTaken(t.tokens, t.tokenHashes, t.users.Keys, env.refreshHash(f.raw));
  }

  function Root(env: Env, n: nat, user: Id, f: Fresh): Event {
    Issued(n, f.tokenId, user, env.refreshHash(f.raw), f.issuedAt)
  }

  // The history of a run

  /** What call number n does to the tokens it finds. */
  function TokenEvents(env: Env, t: Tables, call: Call, n: nat): seq<Event> {
    match call
    case Registers(i) => [Root(env, n, i.user, i.session)]
    case LogsIn(i) =>
      (match UserByEmail(t, NormalizeEmail(env, i.email))
       case Some(user) => [Root(env, n, user, i.session)]
       case None => [])
    case FinishesLogin(i) =>
      if i.ceremony.Some? && i.ceremony.value in t.ceremonies
      then [Root(env, n, t.ceremonies[i.ceremony.value].user, i.session)] else []
    case Refreshes(i) =>
      (match TokenByHash(t, env.refreshHash(i.raw))
       case Some(id) => [Rotation(env, n, id, i)]
       case None => [])
    case _ => []
  }

  /** The event is the serial reading of the call. */
  ghost predicate Follows(env: Env, t: Tables, call: Call, n: nat, t': Tables) {
    var es := TokenEvents(env, t, call, n);
    if IssuesSession(call) then |es| == 1 && es[0].Issued?
        && Serially(t.tokens, env.refreshTtl, es[0]) == Some(t'.tokens)
    else if call.Refreshes? then |es| == 1 && es[0].Rotated?
        && Serially(t.tokens, env.refreshTtl, es[0]) == Some(t'.tokens)
    else es == [] && t'.tokens == t.tokens
  }

  lemma RegisterFollows(env: Env, t: Tables, i: RegisterIn, n: nat)
    requires TokensAgree(t.tokens, t.tokenHashes, t.users.Keys) && Register(env, t, i).Ok?
    ensures Follows(env, t, Registers(i), n, Register(env, t, i).value.0)
  {
    hide Register, Enroll, Serially, TokensAgree;
    var email, slug, hash := RegisterShape(env, t, i);
    SessionIsRoot(env, t, i.user, i.session, n);
  }

  lemma LoginFollows(env: Env, t: Tables, i: LoginIn, n: nat)
    requires TokensAgree(t.tokens, t.tokenHashes, t.users.Keys) && Login(env, t, i).Ok?
    ensures Follows(env, t, LogsIn(i), n, Login(env, t, i).value.0)
  {
    hide Login, TotpCheck, NormalizeEmail, Serially, TokensAgree, Password.VerifyPassword, CanIssue;
    var user := LoginShape(env, t, i);
    SessionIsRoot(env, t, user, i.session, n);
  }

  lemma FinishFollows(env: Env, t: Tables, i: FinishIn, n: nat)
    requires TokensAgree(t.tokens, t.tokenHashes, t.users.Keys) && FinishLogin(env, t, i).Ok?
    ensures Follows(env, t, FinishesLogin(i), n, FinishLogin(env, t, i).value.0)
  {
    hide FinishLogin, Validated, WithHandle, OpenAll, Serially, TokensAgree, Index, PasskeysOf, Resealed, Pending;
    var user, ceremony, cs := FinishLoginShape(env, t, i);
    HandleShape(t, user, i.handle);
    var user', c, row := ValidatedShape(env, WithHandle(t, user, i.handle).value, ceremony, cs, i);
    SessionIsRoot(env, t, user, i.session, n);
  }

  lemma RefreshFollows(env: Env, t: Tables, i: RefreshIn, n: nat)
    requires TokensAgree(t.tokens, t.tokenHashes, t.users.Keys) && Refresh(env, t, i).Ok?
    ensures Follows(env, t, Refreshes(i), n, Refresh(env, t, i).value.0)
  {
    hide Refresh, Serially, TokensAgree;
    RefreshIsRotation(env, t, i, n);
  }

  lemma CallFollows(env: Env, t: Tables, call: Call, n: nat)
    requires TokensAgree(t.tokens, t.tokenHashes, t.users.Keys) && Effect(env, t, call).Some?
    ensures Follows(env, t, call, n, Effect(env, t, call).value)
  {
    hide Follows, TokensAgree;
    match call
    case Registers(i) => RegisterFollows(env, t, i, n);
    case LogsIn(i) => LoginFollows(env, t, i, n);
    case FinishesLogin(i) => FinishFollows(env, t, i, n);
    case Refreshes(i) => RefreshFollows(env, t, i, n);
    case _ => OthersFollow(env, t, call, n);
  }

  lemma OthersFollow(env: Env, t: Tables, call: Call, n: nat)
    requires Effect(env, t, call).Some? && !IssuesSession(call) && !call.Refreshes?
    ensures Follows(env, t, call, n, Effect(env, t, call).value)
  {
    hide Effect;
    Frame(env, t, call);
  }

  /** The history of the tokens up to point k. */
  function TokenLog(env: Env, run: seq<Call>, ts: seq<Tables>, k: nat): seq<Event>
    requires k <= |run| && k <= |ts|
  {
    if k == 0 then [] else TokenLog(env, run, ts, k - 1) + TokenEvents(env, ts[k - 1], run[k - 1], k - 1)
  }

  function SessionsOpened(run: seq<Call>): nat {
    if run == [] then 0 else SessionsOpened(run[..|run| - 1]) + if IssuesSession(run[|run| - 1]) then 1 else 0
  }

  lemma ReplayMore(ttl: int, log: seq<Event>, es: seq<Event>, tokens: Table, tokens': Table)
    requires Replay(ttl, log) == Some(tokens)
    requires if es == [] then tokens' == tokens else |es| == 1 && Serially(tokens, ttl, es[0]) == Some(tokens')
    ensures Replay(ttl, log + es) == Some(tokens')
    ensures |Chains.Chains(log + es)| == |Chains.Chains(log)| + if es != [] && es[0].Issued? then 1 else 0
  {
    if es == [] {
      assert log + es == log;
    } else {
      assert es == [es[0]];
      ReplayAppend(ttl, log, es[0]);
      Chains.ChainsAppend(log, es[0]);
    }
  }

  /** The token table is at every point the serial replay of the sessions and rotations so far. */
  lemma {:induction false} TokensReplay(env: Env, run: seq<Call>, ts: seq<Tables>, k: nat)
    requires History(env, run, ts) && k <= |run|
    ensures Replay(env.refreshTtl, TokenLog(env, run, ts, k)) == Some(ts[k].tokens)
    ensures |Chains.Chains(TokenLog(env, run, ts, k))| == SessionsOpened(run[..k])
  {
    hide Effect, TokenEvents, Serially, Sound, TokensAgree, Chains.Chains, Replay;
    if k > 0 {
      TokensReplay(env, run, ts, k - 1);
      AlwaysSound(env, run, ts, k - 1);
      SoundTokens(ts[k - 1]);
      At(env, run, ts, k - 1);
      CallFollows(env, ts[k - 1], run[k - 1], k - 1);
      ReplayMore(env.refreshTtl, TokenLog(env, run, ts, k - 1), TokenEvents(env, ts[k - 1], run[k - 1], k - 1),
                 ts[k - 1].tokens, ts[k].tokens);
      assert run[..k][..k - 1] == run[..k - 1];
    } else {
      NothingReplayed(env.refreshTtl);
    }
  }

  lemma SoundTokens(t: Tables)
    requires Sound(t)
    ensures TokensAgree(t.tokens, t.tokenHashes, t.users.Keys)
  {}

  lemma NothingReplayed(ttl: int)
    ensures Replay(ttl, []) == Some(EMPTY.tokens) && Chains.Chains([]) == []
  {}

  /** At every point of a history replaced_by splits the token table into finite single-user chains. */
  lemma SessionChains(env: Env, run: seq<Call>, ts: seq<Tables>, k: nat)
    requires History(env, run, ts) && k <= |run|
    ensures Chains.Partition(ts[k].tokens, Chains.Chains(TokenLog(env, run, ts, k)))
  {
    TokensReplay(env, run, ts, k);
    Chains.SerialChains(env.refreshTtl, TokenLog(env, run, ts, k));
  }

  /** And as many tokens are unused as sessions have been opened by register, login and passkey login. */
  lemma SessionsConserved(env: Env, run: seq<Call>, ts: seq<Tables>, k: nat)
    requires History(env, run, ts) && k <= |run|
    ensures |Chains.Unused(ts[k].tokens)| == SessionsOpened(run[..k])
  {
    TokensReplay(env, run, ts, k);
    SessionChains(env, run, ts, k);
    Chains.UnusedAreEnds(ts[k].tokens, Chains.Chains(TokenLog(env, run, ts, k)));
  }
}
