/** Runs of whole calls. A run is the sequence of the calls that committed something; calls
    that fail or are refused leave no trace in the tables. */
module Runs {
  import opened Wrappers
  import opened Environment
  import opened Tables
  import opened Calls
  import opened Ceremonies

  datatype Call =
    | Registers(register: RegisterIn)
    | LogsIn(login: LoginIn)
    | Refreshes(refresh: RefreshIn)
    | SetsUpTotp(setup: SetupIn)
    | EnablesTotp(code: CodeIn)
    | DisablesTotp(code: CodeIn)
    | AddsMember(p: Principal, add: AddIn)
    | ChangesRole(p: Principal, update: UpdateIn)
    | CreatesKey(p: Principal, create: CreateKeyIn)
    | RevokesKey(p: Principal, revoke: RevokeKeyIn)
    | BeginsRegistration(p: Principal, begin: BeginIn)
    | FinishesRegistration(p: Principal, finish: FinishIn)
    | PlantsHandle(email: string, handle: Handle)
    | BeginsLogin(email: string, begin: BeginIn)
    | FinishesLogin(finish: FinishIn)

  function Committed<T>(r: Result<(Tables, T)>): Option<Tables> {
    match r
    case Err(_) => None
    case Ok((t, _)) => Some(t)
  }

  /** The tables after a call that committed, or None when the call would have been refused. */
  ghost function Effect(env: Env, t: Tables, call: Call): Option<Tables> {
    match call
    case Registers(i) => Committed(Register(env, t, i))
    case LogsIn(i) => Committed(Login(env, t, i))
    case Refreshes(i) => Committed(Refresh(env, t, i))
    case SetsUpTotp(i) => Committed(SetupTotp(env, t, i))
    case EnablesTotp(i) => Committed(Calls.EnableTotp(env, t, i))
    case DisablesTotp(i) => Committed(DisableTotp(env, t, i))
    case AddsMember(p, i) => Committed(AddMembership(env, t, p, i))
    case ChangesRole(p, i) => Committed(UpdateMembership(env, t, p, i))
    case CreatesKey(p, i) => Committed(Calls.CreateApiKey(env, t, p, i))
    case RevokesKey(p, i) => Committed(Calls.RevokeApiKey(env, t, p, i))
    case BeginsRegistration(p, i) => Committed(BeginRegistration(env, t, p, i))
    case FinishesRegistration(p, i) => Committed(FinishRegistration(env, t, p, i))
    case PlantsHandle(email, handle) => Some(Planted(env, t, email, handle))
    case BeginsLogin(email, i) => Committed(BeginLogin(env, t, email, i))
    case FinishesLogin(i) => Committed(FinishLogin(env, t, i))
  }

  /** Call n of the run finds table n and leaves table n + 1. */
  ghost predicate Leads(env: Env, run: seq<Call>, ts: seq<Tables>, n: int) {
    0 <= n < |run| && n + 1 < |ts| && Effect(env, ts[n], run[n]) == Some(ts[n + 1])
  }

  /** A run of whole calls from the empty database, with the tables between the calls. */
  ghost predicate History(env: Env, run: seq<Call>, ts: seq<Tables>) {
    && |ts| == |run| + 1 && ts[0] == EMPTY
    && forall n :: 0 <= n < |run| ==> Leads(env, run, ts, n)
  }

  /** One call of a history. */
  lemma At(env: Env, run: seq<Call>, ts: seq<Tables>, n: nat)
    requires History(env, run, ts) && n < |run|
    ensures Effect(env, ts[n], run[n]) == Some(ts[n + 1])
    ensures run[..n + 1] == run[..n] + [run[n]]
  {
    hide Effect;
    assert Leads(env, run, ts, n);
  }

  /** A call that has an effect on the last table of a history makes it longer. */
  lemma Longer(env: Env, run: seq<Call>, ts: seq<Tables>, call: Call, t: Tables)
    requires History(env, run, ts) && Effect(env, ts[|run|], call) == Some(t)
    ensures History(env, run + [call], ts + [t])
  {
    hide Effect;
    var run', ts' := run + [call], ts + [t];
    forall n | 0 <= n < |run'| ensures Leads(env, run', ts', n) {
      assert n < |run| ==> Leads(env, run, ts, n);
    }
  }
}
