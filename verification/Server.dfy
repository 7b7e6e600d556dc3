/** The service as its callers see it: a sequence of calls against one database, any round trip of
    which may fail. Whatever fails, what is committed is what some run of whole calls commits, so
    every theorem about runs holds of the running service. */
module Server {
  import opened Wrappers
  import opened Environment
  import opened Tables
  import opened Database
  import opened Calls
  import opened Ceremonies
  import opened Runs
  import Identity
  import WebAuthn

  /** The calls that read once more after their commit, and may fail there. */
  predicate ReadsLate(call: Call) {
    call.AddsMember? || call.ChangesRole?
  }

  /** What one call does to the committed tables: all of its effect when it succeeds, nothing when it
      fails, except for a failed read after the commit and for the handle a passkey login writes
      outside its transaction. With no failed round trip it succeeds exactly when it has an effect. */
  ghost predicate Outcome(env: Env, t: Tables, t': Tables, call: Call, ok: bool, faulted: bool) {
    && (ok ==> Effect(env, t, call) == Some(t'))
    && (!ok ==>
          || t' == t
          || (ReadsLate(call) && faulted && Effect(env, t, call) == Some(t'))
          || (call.BeginsLogin? && t' == Planted(env, t, call.email, call.begin.handle)))
    && (!faulted ==> (ok <==> Effect(env, t, call).Some?))
  }

  class Server {
    const env: Env
    const db: Db
    const service: Identity.Service
    const passkeys: WebAuthn.Passkeys
    ghost var run: seq<Call>
    ghost var history: seq<Tables>

    constructor (env: Env, faults: nat -> bool)
      ensures Valid() && fresh(db) && this.env == env && db.faults == faults && run == []
    {
      this.env := env;
      var db := new Db(faults);
      var service := new Identity.Service(env, db);
      this.db := db;
      this.service := service;
      this.passkeys := new WebAuthn.Passkeys(service);
      run, history := [], [EMPTY];
    }

    ghost predicate Wired() {
      && service.env == env && service.db == db && service.Valid()
      && passkeys.env == env && passkeys.db == db && passkeys.service == service && passkeys.Valid()
    }

    ghost predicate Valid()
      reads this, db
    {
      Wired() && !db.open && History(env, run, history) && history[|run|] == db.committed
    }

    method OpenSession(call: Call) returns (ok: bool)
      requires Wired() && !db.open && (call.Registers? || call.LogsIn? || call.Refreshes?)
      modifies db
      ensures !db.open && Outcome(env, old(db.committed), db.committed, call, ok, db.failures > old(db.failures))
    {
      hide Calls.Register, Login, Refresh, Planted;
      var r: Result<AuthResult>;
      match call {
        case Registers(i) => r := service.Register(i);
        case LogsIn(i) => r := service.Login(i);
        case Refreshes(i) => r := service.Refresh(i);
      }
      ok := r.Ok?;
    }

    method ChangeTotp(call: Call) returns (ok: bool)
      requires Wired() && !db.open && (call.SetsUpTotp? || call.EnablesTotp? || call.DisablesTotp?)
      modifies db
      ensures !db.open && Outcome(env, old(db.committed), db.committed, call, ok, db.failures > old(db.failures))
    {
      hide Calls.SetupTotp, Calls.EnableTotp, Calls.DisableTotp, Planted;
      match call
      case SetsUpTotp(i) =>
        var r := service.SetupTotp(i);
        ok := r.Ok?;
      case EnablesTotp(i) =>
        var r := service.EnableTotp(i);
        ok := r.Ok?;
      case DisablesTotp(i) =>
        var r := service.DisableTotp(i);
        ok := r.Ok?;
    }

    method ChangeMembers(call: Call) returns (ok: bool)
      requires Wired() && !db.open && (call.AddsMember? || call.ChangesRole?)
      modifies db
      ensures !db.open && Outcome(env, old(db.committed), db.committed, call, ok, db.failures > old(db.failures))
    {
      hide Calls.AddMembership, Calls.UpdateMembership, Planted, Identity.NoFault;
      Identity.NoFaultSplit(db.faults, db.calls, 6, 1);
      var r: Result<bool>;
      match call {
        case AddsMember(p, i) => r := service.AddMembership(p, i);
        case ChangesRole(p, i) => r := service.UpdateMembership(p, i);
      }
      ok := r.Ok?;
    }

    method ChangeKeys(call: Call) returns (ok: bool)
      requires Wired() && !db.open && (call.CreatesKey? || call.RevokesKey?)
      modifies db
      ensures !db.open && Outcome(env, old(db.committed), db.committed, call, ok, db.failures > old(db.failures))
    {
      hide Calls.CreateApiKey, Calls.RevokeApiKey, Planted;
      match call
      case CreatesKey(p, i) =>
        var r := service.CreateApiKey(p, i);
        ok := r.Ok?;
      case RevokesKey(p, i) =>
        var r := service.RevokeApiKey(p, i);
        ok := r.Ok?;
    }

    method AddPasskey(call: Call) returns (ok: bool)
      requires Wired() && !db.open && (call.BeginsRegistration? || call.FinishesRegistration?)
      modifies db
      ensures !db.open && Outcome(env, old(db.committed), db.committed, call, ok, db.failures > old(db.failures))
    {
      hide BeginRegistration, FinishRegistration, Planted;
      match call
      case BeginsRegistration(p, i) =>
        var r := passkeys.BeginRegistration(p, i);
        ok := r.Ok?;
      case FinishesRegistration(p, i) =>
        var r := passkeys.FinishRegistration(p, i);
        ok := r.Ok?;
    }

    method UsePasskey(call: Call) returns (ok: bool)
      requires Wired() && !db.open && (call.BeginsLogin? || call.FinishesLogin?)
      modifies db
      ensures !db.open && Outcome(env, old(db.committed), db.committed, call, ok, db.failures > old(db.failures))
    {
      hide BeginLogin, FinishLogin, Planted;
      match call
      case BeginsLogin(email, i) =>
        var r := passkeys.BeginLogin(email, i);
        ok := r.Ok?;
      case FinishesLogin(i) =>
        var r := passkeys.FinishLogin(i);
        ok := r.Ok?;
    }

    /** Serves one call. The committed tables stay those of a run of whole calls. */
    method Serve(call: Call) returns (ok: bool)
      requires Valid() && !call.PlantsHandle?
      modifies this`run, this`history, db
      ensures Valid()
      ensures Outcome(env, old(db.committed), db.committed, call, ok, db.failures > old(db.failures))
      ensures run == old(run) || run == old(run) + [call] ||
              (!ok && call.BeginsLogin? && run == old(run) + [PlantsHandle(call.email, call.begin.handle)])
      ensures ok ==> run == old(run) + [call]
      ensures !ok && !ReadsLate(call) && !call.BeginsLogin? ==> run == old(run)
      ensures !ok && ReadsLate(call) && db.failures == old(db.failures) ==> run == old(run)
      ensures run == old(run) ==> db.committed == old(db.committed)
      ensures history[..old(|history|)] == old(history)
    {
      hide Effect, Planted;
      ghost var t := db.committed;
      if call.Registers? || call.LogsIn? || call.Refreshes? {
        ok := OpenSession(call);
      } else if call.SetsUpTotp? || call.EnablesTotp? || call.DisablesTotp? {
        ok := ChangeTotp(call);
      } else if ReadsLate(call) {
        ok := ChangeMembers(call);
      } else if call.CreatesKey? || call.RevokesKey? {
        ok := ChangeKeys(call);
      } else if call.BeginsRegistration? || call.FinishesRegistration? {
        ok := AddPasskey(call);
      } else {
        ok := UsePasskey(call);
      }
      ghost var done := CommittedCall(env, t, db.committed, call, ok, db.failures > old(db.failures));
      if done.Some? {
        Longer(env, run, history, done.value, db.committed);
        run, history := run + [done.value], history + [db.committed];
      }
    }
  }

  /** The whole call, if any, that took effect. */
  lemma CommittedCall(env: Env, t: Tables, t': Tables, call: Call, ok: bool, faulted: bool) returns (done: Option<Call>)
    requires Outcome(env, t, t', call, ok, faulted)
    ensures done.None? ==> t' == t && !ok
    ensures done == Some(call) && !ok ==> ReadsLate(call) && faulted
    ensures done.Some? ==> Effect(env, t, done.value) == Some(t')
    ensures done.Some? ==>
              || done.value == call
              || (!ok && call.BeginsLogin? && done.value == PlantsHandle(call.email, call.begin.handle))
  {
    hide Effect, Planted;
    if ok || (t' != t && ReadsLate(call)) {
      done := Some(call);
    } else if t' != t {
      PlantEffect(env, t, call.email, call.begin.handle);
      done := Some(PlantsHandle(call.email, call.begin.handle));
    } else {
      done := None;
    }
  }

  lemma PlantEffect(env: Env, t: Tables, email: string, handle: Handle)
    ensures Effect(env, t, PlantsHandle(email, handle)) == Some(Planted(env, t, email, handle))
  {
    hide Planted;
  }
}
