/** WebAuthn ceremonies over whole runs: each is finished at most once, by the flow that began it,
    for the user it was begun for. */
module CeremonyLife {
  import opened Wrappers
  import opened Environment
  import opened Naming
  import opened Tokens
  import opened Tables
  import opened Calls
  import opened Ceremonies
  import opened Runs
  import opened Shapes
  import opened Frames
  import opened Accounts
  import References

  predicate Starts(call: Call, c: Id) {
    (call.BeginsRegistration? || call.BeginsLogin?) && call.begin.ceremony == c
  }

  predicate Ends(call: Call, c: Id) {
    (call.FinishesRegistration? || call.FinishesLogin?) && call.finish.ceremony == Some(c)
  }

  /** The call that began the ceremony, unless it has been finished since. */
  function OpenSince(run: seq<Call>, c: Id): (n: Option<nat>)
    ensures n.Some? ==> n.value < |run| && Starts(run[n.value], c)
  {
    if run == [] then None
    else if Starts(run[|run| - 1], c) then Some(|run| - 1)
    else if Ends(run[|run| - 1], c) then None
    else OpenSince(run[..|run| - 1], c)
  }

  lemma {:induction false} NotEndedSince(run: seq<Call>, c: Id)
    requires OpenSince(run, c).Some?
    ensures forall m :: OpenSince(run, c).value < m < |run| ==> !Ends(run[m], c)
  {
    if !Starts(run[|run| - 1], c) {
      NotEndedSince(run[..|run| - 1], c);
    }
  }

  /** The stored row is the one this call began. */
  ghost predicate BegunBy(env: Env, t: Tables, call: Call, row: Ceremony) {
    match call
    case BeginsRegistration(p, i) =>
      row.flow == Registration && p.isUser && p.user == Some(row.user) && i.begun == Some((row.data, row.expires))
    case BeginsLogin(email, i) =>
      && row.flow == Authentication
      && UserByEmail(t, NormalizeEmail(env, email)) == Some(row.user)
      && i.begun == Some((row.data, row.expires))
    case _ => false
  }

  ghost predicate CeremonyKnown(env: Env, run: seq<Call>, t: Tables, c: Id) {
    match OpenSince(run, c)
    case None => c !in t.ceremonies
    case Some(n) => c in t.ceremonies && BegunBy(env, t, run[n], t.ceremonies[c])
  }

  lemma BegunStays(env: Env, t: Tables, t': Tables, call: Call, row: Ceremony)
    requires BegunBy(env, t, call, row) && EmailsKept(t, t')
    ensures BegunBy(env, t', call, row)
  {}

  predicate RowKept(t: Tables, t': Tables, c: Id) {
    (c in t'.ceremonies <==> c in t.ceremonies) && (c in t.ceremonies ==> t'.ceremonies[c] == t.ceremonies[c])
  }

  /** A call that neither begins nor finishes this ceremony leaves its row alone. */
  lemma CeremonyUntouched(env: Env, t: Tables, call: Call, c: Id)
    requires Effect(env, t, call).Some? && !Starts(call, c) && !Ends(call, c)
    ensures RowKept(t, Effect(env, t, call).value, c)
  {
    if IsCeremony(call) {
      OtherCeremony(env, t, call, c);
    } else {
      hide Effect;
      Frame(env, t, call);
    }
  }

  lemma OtherCeremony(env: Env, t: Tables, call: Call, c: Id)
    requires Effect(env, t, call).Some? && IsCeremony(call) && !Starts(call, c) && !Ends(call, c)
    ensures RowKept(t, Effect(env, t, call).value, c)
  {
    hide BeginRegistration, FinishRegistration, BeginLogin, FinishLogin, Planted, BegunBy;
    match call
    case BeginsRegistration(p, i) => RegistrationBegins(env, t, p, i);
    case BeginsLogin(email, i) => LoginBegins(env, t, email, i);
    case FinishesRegistration(p, i) => RegistrationEnds(env, t, p, i);
    case FinishesLogin(i) => FinishEnds(env, t, i);
    case PlantsHandle(email, handle) => References.PlantKeepsCeremonies(env, t, email, handle);
  }

  lemma RegistrationBegins(env: Env, t: Tables, p: Principal, i: BeginIn)
    requires BeginRegistration(env, t, p, i).Ok?
    ensures
      var t' := BeginRegistration(env, t, p, i).value.0;
      && i.ceremony in t'.ceremonies && t'.ceremonies == t.ceremonies[i.ceremony := t'.ceremonies[i.ceremony]]
      && BegunBy(env, t, BeginsRegistration(p, i), t'.ceremonies[i.ceremony])
  {
    hide BeginRegistration, WithHandle;
    var user, row := BeginRegistrationShape(env, t, p, i);
  }

  lemma LoginBegins(env: Env, t: Tables, email: string, i: BeginIn)
    requires BeginLogin(env, t, email, i).Ok?
    ensures
      var t' := BeginLogin(env, t, email, i).value.0;
      && i.ceremony in t'.ceremonies && t'.ceremonies == t.ceremonies[i.ceremony := t'.ceremonies[i.ceremony]]
      && BegunBy(env, t, BeginsLogin(email, i), t'.ceremonies[i.ceremony])
  {
    hide BeginLogin, WithHandle, NormalizeEmail;
    var user, row := BeginLoginShape(env, t, email, i);
  }

  lemma RegistrationEnds(env: Env, t: Tables, p: Principal, i: FinishIn)
    requires FinishRegistration(env, t, p, i).Ok?
    ensures i.ceremony.Some? && Pending(t, i.ceremony.value, Registration, i.now)
    ensures p.isUser && p.user == Some(t.ceremonies[i.ceremony.value].user)
    ensures FinishRegistration(env, t, p, i).value.0.ceremonies == t.ceremonies - {i.ceremony.value}
  {
    hide FinishRegistration, WithHandle, Sealed;
    var user, ceremony, c := FinishRegistrationShape(env, t, p, i);
  }

  lemma FinishEnds(env: Env, t: Tables, i: FinishIn)
    requires FinishLogin(env, t, i).Ok?
    ensures i.ceremony.Some? && Pending(t, i.ceremony.value, Authentication, i.now)
    ensures
      var t' := FinishLogin(env, t, i).value.0;
      && t'.ceremonies == t.ceremonies - {i.ceremony.value}
      && i.session.tokenId in t'.tokens && t'.tokens[i.session.tokenId].user == t.ceremonies[i.ceremony.value].user
  {
    hide FinishLogin, Validated, WithHandle, OpenAll, Index;
    var user, ceremony, cs := FinishLoginShape(env, t, i);
    HandleShape(t, user, i.handle);
    var user', c, row := ValidatedShape(env, WithHandle(t, user, i.handle).value, ceremony, cs, i);
  }

  lemma StartCall(env: Env, run: seq<Call>, t: Tables, call: Call, c: Id)
    requires Effect(env, t, call).Some? && Starts(call, c) && EmailsKept(t, Effect(env, t, call).value)
    ensures CeremonyKnown(env, run + [call], Effect(env, t, call).value, c)
  {
    hide BeginRegistration, BeginLogin, BegunBy, EmailsKept;
    var t' := Effect(env, t, call).value;
    match call
    case BeginsRegistration(p, i) =>
      RegistrationBegins(env, t, p, i);
      BegunStays(env, t, t', call, t'.ceremonies[c]);
    case BeginsLogin(email, i) =>
      LoginBegins(env, t, email, i);
      BegunStays(env, t, t', call, t'.ceremonies[c]);
  }

  /** The call has issued a session to this user. */
  predicate SessionFor(t: Tables, f: Fresh, user: Id) {
    f.tokenId in t.tokens && t.tokens[f.tokenId].user == user
  }

  lemma EndCall(env: Env, run: seq<Call>, t: Tables, call: Call, c: Id)
    requires Effect(env, t, call).Some? && Ends(call, c)
    ensures CeremonyKnown(env, run + [call], Effect(env, t, call).value, c)
    ensures Pending(t, c, if call.FinishesLogin? then Authentication else Registration, call.finish.now)
    ensures call.FinishesRegistration? ==> call.p.isUser && call.p.user == Some(t.ceremonies[c].user)
    ensures call.FinishesLogin? ==> SessionFor(Effect(env, t, call).value, call.finish.session, t.ceremonies[c].user)
  {
    hide FinishRegistration, FinishLogin;
    match call
    case FinishesRegistration(p, i) => RegistrationEnds(env, t, p, i);
    case FinishesLogin(i) => FinishEnds(env, t, i);
  }

  lemma CeremonyStep(env: Env, run: seq<Call>, t: Tables, call: Call, c: Id)
    requires CeremonyKnown(env, run, t, c) && Effect(env, t, call).Some?
    ensures CeremonyKnown(env, run + [call], Effect(env, t, call).value, c)
  {
    hide Effect, EmailsKept, BegunBy;
    var t' := Effect(env, t, call).value;
    EmailsLast(env, t, call);
    if Starts(call, c) {
      StartCall(env, run, t, call, c);
    } else if Ends(call, c) {
      EndCall(env, run, t, call, c);
    } else {
      CeremonyUntouched(env, t, call, c);
      assert (run + [call])[..|run|] == run;
      if OpenSince(run, c).Some? {
        BegunStays(env, t, t', run[OpenSince(run, c).value], t.ceremonies[c]);
      }
    }
  }

  lemma NothingBegun(env: Env, c: Id)
    ensures CeremonyKnown(env, [], EMPTY, c)
  {}

  lemma {:induction false} CeremonyAlwaysKnown(env: Env, run: seq<Call>, ts: seq<Tables>, k: nat, c: Id)
    requires History(env, run, ts) && k <= |run|
    ensures CeremonyKnown(env, run[..k], ts[k], c)
  {
    hide Effect, CeremonyKnown;
    if k == 0 {
      NothingBegun(env, c);
      assert run[..0] == [];
    } else {
      CeremonyAlwaysKnown(env, run, ts, k - 1, c);
      At(env, run, ts, k - 1);
      CeremonyStep(env, run[..k - 1], ts[k - 1], run[k - 1], c);
    }
  }

  /** The finishing call completes what the other began: the same flow, for the same user, before
      the expiry, the login issuing its session to the user whose address began it. */
  ghost predicate Completes(env: Env, t: Tables, t': Tables, begun: Call, finish: Call) {
    match (begun, finish)
    case (BeginsRegistration(p, b), FinishesRegistration(q, f)) =>
      p.isUser && q.isUser && p.user == q.user && b.begun.Some? && f.now <= b.begun.value.1
    case (BeginsLogin(email, b), FinishesLogin(f)) =>
      && b.begun.Some? && f.now <= b.begun.value.1
      && UserByEmail(t, NormalizeEmail(env, email)).Some?
      && SessionFor(t', f.session, UserByEmail(t, NormalizeEmail(env, email)).value)
    case _ => false
  }

  /** Single use: a call that finishes a ceremony completes one begun earlier in the run, not finished
      by any call in between. */
  lemma SingleUse(env: Env, run: seq<Call>, ts: seq<Tables>, k: nat, c: Id) returns (n: nat)
    requires History(env, run, ts) && k < |run| && Ends(run[k], c)
    ensures n < k && Starts(run[n], c)
    ensures forall m :: n < m < k ==> !Ends(run[m], c)
    ensures Completes(env, ts[k], ts[k + 1], run[n], run[k])
  {
    hide Effect;
    var before := run[..k];
    CeremonyAlwaysKnown(env, run, ts, k, c);
    At(env, run, ts, k);
    EndCall(env, before, ts[k], run[k], c);
    n := OpenSince(before, c).value;
    NotEndedSince(before, c);
    assert forall m :: 0 <= m < k ==> before[m] == run[m];
  }

  /** So between two finishes of the same ceremony identifier it has been begun anew. */
  lemma FinishedOnce(env: Env, run: seq<Call>, ts: seq<Tables>, j: nat, k: nat, c: Id)
    requires History(env, run, ts) && j < k < |run| && Ends(run[j], c) && Ends(run[k], c)
    ensures exists n :: j < n < k && Starts(run[n], c)
  {
    var n := SingleUse(env, run, ts, k, c);
    assert n != j && !(n < j < k);
  }
}
