/** The audit log is a complete record: replaying it rebuilds the memberships, the API keys and
    the TOTP state of every user. */
module Ledger {
  import opened Wrappers
  import opened Environment
  import opened Tokens
  import opened Tables
  import opened Calls
  import opened Runs
  import opened Shapes
  import opened Frames
  import Totp
  import Naming

  datatype KeyEntry = KeyEntry(org: Id, scopes: seq<string>, prefix: string, revoked: bool)

  datatype Ledger = Ledger(
    members: map<(Id, Id), string>,
    keys: map<Id, KeyEntry>,
    totp: map<Id, bool>)

  /** What one audit entry says has happened. */
  function Post(l: Ledger, a: Audit): Ledger {
    match (a.action, a.org)
    case (AuthRegister(_), Some(org)) => l.(members := l.members[(org, a.target) := "owner"])
    case (MembershipCreate(role, _), Some(org)) => l.(members := l.members[(org, a.target) := role])
    case (MembershipUpdateRole(role), Some(org)) => l.(members := l.members[(org, a.target) := role])
    case (ApiKeyCreate(_, scopes, prefix), Some(org)) =>
      l.(keys := l.keys[a.target := KeyEntry(org, scopes, prefix, false)])
    case (ApiKeyRevoke(_), _) =>
      if a.target in l.keys then l.(keys := l.keys[a.target := l.keys[a.target].(revoked := true)]) else l
    case (TotpSetup, _) => l.(totp := l.totp[a.target := false])
    case (TotpEnable, _) => l.(totp := l.totp[a.target := true])
    case (TotpDisable, _) => l.(totp := l.totp - {a.target})
    case _ => l
  }

  function Posted(log: seq<Audit>): Ledger {
    if log == [] then Ledger(map[], map[], map[]) else Post(Posted(log[..|log| - 1]), log[|log| - 1])
  }

  lemma PostedAppend(log: seq<Audit>, a: Audit)
    ensures Posted(log + [a]) == Post(Posted(log), a)
  {
    assert (log + [a])[..|log|] == log;
  }

  // What the tables hold

  function EntryOf(key: ApiKey): KeyEntry {
    KeyEntry(key.org, key.scopes, key.prefix, key.revoked)
  }

  function KeysOf(keys: map<Id, ApiKey>): map<Id, KeyEntry> {
    map id | id in keys :: EntryOf(keys[id])
  }

  function TotpOf(totp: map<Id, TotpRow>): map<Id, bool> {
    map u | u in totp :: totp[u].enabled
  }

  function LedgerOf(t: Tables): Ledger {
    Ledger(t.members, KeysOf(t.keys), TotpOf(t.totp))
  }

  lemma KeysOfSet(keys: map<Id, ApiKey>, id: Id, key: ApiKey)
    ensures KeysOf(keys[id := key]) == KeysOf(keys)[id := EntryOf(key)]
  {}

  lemma TotpOfSet(totp: map<Id, TotpRow>, user: Id, row: TotpRow)
    ensures TotpOf(totp[user := row]) == TotpOf(totp)[user := row.enabled]
    ensures TotpOf(totp - {user}) == TotpOf(totp) - {user}
  {}

  // One call at a time

  /** The entry a call writes says what the call has done to the tables the ledger covers. */
  ghost predicate Recorded(t: Tables, t': Tables) {
    t'.audit != [] && LedgerOf(t') == Post(LedgerOf(t), Entry(t'))
  }

  lemma RegisterRecorded(env: Env, t: Tables, i: RegisterIn)
    requires Register(env, t, i).Ok?
    ensures Recorded(t, Register(env, t, i).value.0)
  {
    hide Register, Enroll;
    var email, slug, hash := RegisterShape(env, t, i);
  }

  lemma AddRecorded(env: Env, t: Tables, p: Principal, i: AddIn)
    requires AddMembership(env, t, p, i).Ok?
    ensures Recorded(t, AddMembership(env, t, p, i).value.0)
  {
    hide AddMembership;
    var org, user := AddShape(env, t, p, i);
  }

  lemma ChangeRecorded(env: Env, t: Tables, p: Principal, i: UpdateIn)
    requires UpdateMembership(env, t, p, i).Ok?
    ensures Recorded(t, UpdateMembership(env, t, p, i).value.0)
  {
    hide UpdateMembership;
    var org, user := ChangeShape(env, t, p, i);
  }

  lemma CreateKeyRecorded(env: Env, t: Tables, p: Principal, i: CreateKeyIn)
    requires Calls.CreateApiKey(env, t, p, i).Ok?
    ensures Recorded(t, Calls.CreateApiKey(env, t, p, i).value.0)
  {
    hide Calls.CreateApiKey, Authorized, Naming.Scopes, Naming.RawKey, KeyIsNew;
    var key := CreateKeyShape(env, t, p, i);
    KeysOfSet(t.keys, i.id, key);
  }

  lemma RevokeKeyRecorded(env: Env, t: Tables, p: Principal, i: RevokeKeyIn)
    requires Calls.RevokeApiKey(env, t, p, i).Ok?
    ensures Recorded(t, Calls.RevokeApiKey(env, t, p, i).value.0)
  {
    hide Calls.RevokeApiKey;
    var id := RevokeKeyShape(env, t, p, i);
    KeysOfSet(t.keys, id, t.keys[id].(revoked := true));
  }

  lemma SetupRecorded(env: Env, t: Tables, i: SetupIn)
    requires SetupTotp(env, t, i).Ok?
    ensures Recorded(t, SetupTotp(env, t, i).value.0)
  {
    hide SetupTotp, Totp.SecretText;
    var user := SetupShape(env, t, i);
    TotpOfSet(t.totp, user, TotpRow(env.encrypt(Totp.SecretText(i.random), i.nonce), i.nonce, false));
  }

  lemma EnableRecorded(env: Env, t: Tables, i: CodeIn)
    requires Calls.EnableTotp(env, t, i).Ok?
    ensures Recorded(t, Calls.EnableTotp(env, t, i).value.0)
  {
    hide Calls.EnableTotp, Totp.Accepts;
    var user, secret := EnableShape(env, t, i);
    TotpOfSet(t.totp, user, t.totp[user].(enabled := true));
  }

  lemma DisableRecorded(env: Env, t: Tables, i: CodeIn)
    requires DisableTotp(env, t, i).Ok?
    ensures Recorded(t, DisableTotp(env, t, i).value.0)
  {
    hide DisableTotp, Totp.Accepts;
    var user, secret := DisableShape(env, t, i);
    TotpOfSet(t.totp, user, t.totp[user]);
  }

  lemma LedgerStep(env: Env, t: Tables, call: Call)
    requires Effect(env, t, call).Some? && !Begins(call)
    ensures Recorded(t, Effect(env, t, call).value)
  {
    hide Recorded;
    match call
    case Registers(i) => RegisterRecorded(env, t, i);
    case SetsUpTotp(i) => SetupRecorded(env, t, i);
    case EnablesTotp(i) => EnableRecorded(env, t, i);
    case DisablesTotp(i) => DisableRecorded(env, t, i);
    case AddsMember(p, i) => AddRecorded(env, t, p, i);
    case ChangesRole(p, i) => ChangeRecorded(env, t, p, i);
    case CreatesKey(p, i) => CreateKeyRecorded(env, t, p, i);
    case RevokesKey(p, i) => RevokeKeyRecorded(env, t, p, i);
    case _ => SessionRecorded(env, t, call);
  }

  /** Logins, refreshes and registered passkeys leave the ledger as it is, and so do their entries. */
  lemma SessionRecorded(env: Env, t: Tables, call: Call)
    requires Effect(env, t, call).Some?
    requires call.LogsIn? || call.Refreshes? || call.FinishesLogin? || call.FinishesRegistration?
    ensures Recorded(t, Effect(env, t, call).value)
  {
    hide Effect;
    Frame(env, t, call);
  }

  /** At every point of a history, replaying the audit log rebuilds exactly the membership roles,
      each API key's organization, scopes, prefix and revocation, and each user's TOTP state. */
  lemma {:induction false} AuditReplay(env: Env, run: seq<Call>, ts: seq<Tables>, k: nat)
    requires History(env, run, ts) && k <= |run|
    ensures Posted(ts[k].audit) == LedgerOf(ts[k])
  {
    hide Effect, Posted, Post, LedgerOf, Framed, Kind;
    if k == 0 {
      NothingPosted();
    } else {
      var t, t', call := ts[k - 1], ts[k], run[k - 1];
      AuditReplay(env, run, ts, k - 1);
      At(env, run, ts, k - 1);
      Frame(env, t, call);
      if Begins(call) {
        BeginningsUnrecorded(t, t', call);
      } else {
        LedgerStep(env, t, call);
        PostedAppend(t.audit, Entry(t'));
      }
    }
  }

  lemma NothingPosted()
    ensures Posted(EMPTY.audit) == LedgerOf(EMPTY)
  {}

  lemma BeginningsUnrecorded(t: Tables, t': Tables, call: Call)
    requires Begins(call) && Framed(t, t', call)
    ensures LedgerOf(t') == LedgerOf(t)
  {}

  /** The calls of a run that write an audit entry. */
  function Audible(run: seq<Call>): seq<Call> {
    if run == [] then []
    else Audible(run[..|run| - 1]) + if Begins(run[|run| - 1]) then [] else [run[|run| - 1]]
  }

  /** The log holds exactly one entry for each committed call that is not the beginning of a
      ceremony, of that call's kind, in commit order. */
  lemma {:induction false} OneEntryEach(env: Env, run: seq<Call>, ts: seq<Tables>, k: nat)
    requires History(env, run, ts) && k <= |run|
    ensures
      var log := ts[k].audit;
      && |log| == |Audible(run[..k])|
      && forall i :: 0 <= i < |log| ==> Kind(Audible(run[..k])[i], log[i].action)
  {
    if k > 0 {
      hide Effect, Framed, Audited, Kind;
      OneEntryEach(env, run, ts, k - 1);
      At(env, run, ts, k - 1);
      Frame(env, ts[k - 1], run[k - 1]);
      assert run[..k][..k - 1] == run[..k - 1];
      EntryAppended(Audible(run[..k - 1]), ts[k - 1], ts[k], run[k - 1]);
    }
  }

  lemma EntryAppended(calls: seq<Call>, t: Tables, t': Tables, call: Call)
    requires |t.audit| == |calls| && forall i :: 0 <= i < |calls| ==> Kind(calls[i], t.audit[i].action)
    requires Audited(t, t', call)
    ensures
      var calls' := calls + if Begins(call) then [] else [call];
      && |t'.audit| == |calls'|
      && forall i :: 0 <= i < |calls'| ==> Kind(calls'[i], t'.audit[i].action)
  {
    hide Kind;
  }
}
