/** What the unguarded statements allow when calls interleave: exactly which interleavings enable a TOTP
    secret nobody has verified, and exactly which let one WebAuthn ceremony open two sessions. */
module Races {
  import opened Wrappers
  import opened Environment
  import Totp

  // SetupTOTP against EnableTOTP

  /** What commits, for one user: the upsert of SetupTOTP and the DELETE of DisableTOTP; and EnableTOTP in its
      two parts, the read with the check of the code, outside any transaction, and the UPDATE, which
      looks at nothing but the user. */
  datatype Act = Setup(secret: string) | Drop | Check(call: nat, code: string, unix: int) | Enable(call: nat)

  datatype Row = Row(secret: string, enabled: bool)

  /** The user's row, the calls that have checked, and those of them that passed and have not updated yet. */
  datatype State = State(row: Option<Row>, checked: set<nat>, passed: set<nat>)

  ghost predicate Passes(env: Env, s: State, a: Act)
    requires a.Check?
  {
    s.row.Some? && Totp.Accepts(env, s.row.value.secret, a.code, a.unix)
  }

  /** The state after an act, or None when no call would take it. */
  ghost function Take(env: Env, s: State, a: Act): Option<State> {
    match a
    case Setup(secret) => Some(s.(row := Some(Row(secret, false))))
    case Drop => Some(s.(row := None))
    case Check(c, _, _) =>
      if c in s.checked then None
      else Some(s.(checked := s.checked + {c}, passed := if Passes(env, s, a) then s.passed + {c} else s.passed))
    case Enable(c) =>
      if c !in s.passed then None
      else Some(s.(row := if s.row.None? then None else Some(s.row.value.(enabled := true)), passed := s.passed - {c}))
  }

  ghost function After(env: Env, run: seq<Act>): Option<State> {
    if run == [] then Some(State(None, {}, {}))
    else match After(env, run[..|run| - 1]) case None => None case Some(s) => Take(env, s, run[|run| - 1])
  }

  /** The last setup that no later one and no disable has undone. */
  function Standing(run: seq<Act>): (n: Option<nat>)
    ensures n.Some? ==> n.value < |run| && run[n.value].Setup?
    ensures n.Some? ==> forall m :: n.value < m < |run| ==> !run[m].Setup? && !run[m].Drop?
  {
    if run == [] then None
    else if run[|run| - 1].Setup? then Some(|run| - 1)
    else if run[|run| - 1].Drop? then None
    else Standing(run[..|run| - 1])
  }

  /** The check at l and the update at e are those of one EnableTOTP call. */
  predicate OneCall(run: seq<Act>, l: int, e: int) {
    0 <= l < e < |run| && run[l].Check? && run[e].Enable? && run[l].call == run[e].call
  }

  /** Where this call has checked. */
  function CheckOf(run: seq<Act>, c: nat): (l: Option<nat>)
    ensures l.Some? ==> l.value < |run| && run[l.value].Check? && run[l.value].call == c
  {
    if run == [] then None
    else if run[|run| - 1].Check? && run[|run| - 1].call == c then Some(|run| - 1)
    else CheckOf(run[..|run| - 1], c)
  }

  /** The check at l was passed, against the secret that stood then. */
  ghost predicate PassedAt(env: Env, run: seq<Act>, l: nat)
    requires l < |run| && run[l].Check?
  {
    var n := Standing(run[..l]);
    n.Some? && Totp.Accepts(env, run[n.value].secret, run[l].code, run[l].unix)
  }

  ghost predicate Enabled(run: seq<Act>, n: nat) {
    exists e :: n < e < |run| && run[e].Enable?
  }

  /** The row is that of the standing setup, enabled exactly if an update has come after it. */
  ghost predicate RowKnown(run: seq<Act>, s: State) {
    match Standing(run)
    case None => s.row.None?
    case Some(n) => s.row.Some? && s.row.value.secret == run[n].secret && (s.row.value.enabled <==> Enabled(run, n))
  }

  lemma EnabledSnoc(run: seq<Act>, a: Act, n: nat)
    ensures Enabled(run + [a], n) <==> Enabled(run, n) || (a.Enable? && n < |run|)
  {
    assert (run + [a])[|run|] == a;
    assert forall e :: 0 <= e < |run| ==> (run + [a])[e] == run[e];
    if Enabled(run, n) {
      var e :| n < e < |run| && run[e].Enable?;
      assert (run + [a])[e].Enable?;
    }
  }

  lemma RowStep(env: Env, run: seq<Act>, s: State, a: Act)
    requires RowKnown(run, s) && Take(env, s, a).Some?
    ensures RowKnown(run + [a], Take(env, s, a).value)
  {
    hide Enabled, Passes;
    assert (run + [a])[..|run|] == run;
    if Standing(run).Some? {
      EnabledSnoc(run, a, Standing(run).value);
    }
    EnabledSnoc(run, a, |run|);
    NotYetEnabled(run);
  }

  lemma NotYetEnabled(run: seq<Act>)
    ensures !Enabled(run, |run|)
  {}

  lemma {:induction false} RowAlwaysKnown(env: Env, run: seq<Act>)
    requires After(env, run).Some?
    ensures RowKnown(run, After(env, run).value)
  {
    if run != [] {
      hide Take;
      RowAlwaysKnown(env, run[..|run| - 1]);
      RowStep(env, run[..|run| - 1], After(env, run[..|run| - 1]).value, run[|run| - 1]);
      assert run == run[..|run| - 1] + [run[|run| - 1]];
    }
  }

  /** A call checks once, and may update only if it has passed. */
  ghost predicate CallKnown(env: Env, run: seq<Act>, s: State, c: nat) {
    && (c in s.checked <==> CheckOf(run, c).Some?)
    && (c in s.passed ==> CheckOf(run, c).Some? && PassedAt(env, run, CheckOf(run, c).value))
  }

  ghost predicate CallsKnown(env: Env, run: seq<Act>, s: State) {
    forall c: nat :: CallKnown(env, run, s, c)
  }

  lemma PassedBefore(env: Env, run: seq<Act>, k: nat, l: nat)
    requires l < k <= |run| && run[l].Check?
    ensures PassedAt(env, run[..k], l) <==> PassedAt(env, run, l)
  {
    assert run[..k][..l] == run[..l];
  }

  lemma CallStep(env: Env, run: seq<Act>, s: State, a: Act, c: nat)
    requires CallKnown(env, run, s, c) && RowKnown(run, s) && Take(env, s, a).Some?
    ensures CallKnown(env, run + [a], Take(env, s, a).value, c)
  {
    hide Enabled;
    var run' := run + [a];
    assert run'[..|run|] == run;
    if CheckOf(run, c).Some? {
      PassedBefore(env, run', |run|, CheckOf(run, c).value);
    }
  }

  lemma CallsStep(env: Env, run: seq<Act>, s: State, a: Act)
    requires CallsKnown(env, run, s) && RowKnown(run, s) && Take(env, s, a).Some?
    ensures CallsKnown(env, run + [a], Take(env, s, a).value)
  {
    hide Take, RowKnown, CallKnown;
    forall c: nat ensures CallKnown(env, run + [a], Take(env, s, a).value, c) {
      assert CallKnown(env, run, s, c);
      CallStep(env, run, s, a, c);
    }
  }

  lemma {:induction false} CallsAlwaysKnown(env: Env, run: seq<Act>)
    requires After(env, run).Some?
    ensures CallsKnown(env, run, After(env, run).value)
  {
    if run != [] {
      hide Take;
      var before, a := run[..|run| - 1], run[|run| - 1];
      CallsAlwaysKnown(env, before);
      RowAlwaysKnown(env, before);
      CallsStep(env, before, After(env, before).value, a);
      assert run == before + [a];
    }
  }

  lemma {:induction false} Legal(env: Env, run: seq<Act>, k: nat)
    requires After(env, run).Some? && k < |run|
    ensures After(env, run[..k]).Some? && Take(env, After(env, run[..k]).value, run[k]).Some?
  {
    hide Take;
    if k < |run| - 1 {
      Legal(env, run[..|run| - 1], k);
      assert run[..|run| - 1][..k] == run[..k];
    }
  }

  /** An update belongs to exactly one check, which was passed. */
  lemma UpdateHasCheck(env: Env, run: seq<Act>, e: nat) returns (l: nat)
    requires After(env, run).Some? && e < |run| && run[e].Enable?
    ensures OneCall(run, l, e) && PassedAt(env, run, l)
    ensures forall m :: OneCall(run, m, e) ==> m == l
  {
    Legal(env, run, e);
    CallsAlwaysKnown(env, run[..e]);
    assert CallKnown(env, run[..e], After(env, run[..e]).value, run[e].call);
    l := CheckOf(run[..e], run[e].call).value;
    PassedBefore(env, run, e, l);
    forall m | OneCall(run, m, e) ensures m == l {
      if m < l {
        ChecksOnce(env, run, m, l);
      } else if l < m {
        ChecksOnce(env, run, l, m);
      }
    }
  }

  lemma ChecksOnce(env: Env, run: seq<Act>, l: nat, m: nat)
    requires After(env, run).Some? && l < m < |run| && run[l].Check? && run[m].Check?
    ensures run[l].call != run[m].call
  {
    Legal(env, run, m);
    CallsAlwaysKnown(env, run[..m]);
    assert CallKnown(env, run[..m], After(env, run[..m]).value, run[m].call);
    ChecksFound(run[..m], l);
  }

  lemma {:induction false} ChecksFound(run: seq<Act>, l: nat)
    requires l < |run| && run[l].Check?
    ensures CheckOf(run, run[l].call).Some?
  {
    if l < |run| - 1 {
      ChecksFound(run[..|run| - 1], l);
    }
  }

  lemma {:induction false} StoodThen(run: seq<Act>, l: nat)
    requires l < |run| && Standing(run).Some? && Standing(run).value < l
    ensures Standing(run[..l]) == Standing(run)
  {
    var before := run[..|run| - 1];
    if l < |run| - 1 {
      StoodThen(before, l);
      assert before[..l] == run[..l];
    }
  }

  /** The setup at n is confirmed: some call checked a code of its own secret and then updated. */
  ghost predicate Confirmed(env: Env, run: seq<Act>, n: nat)
    requires n < |run| && run[n].Setup?
  {
    exists l, e :: n < l && OneCall(run, l, e) && Totp.Accepts(env, run[n].secret, run[l].code, run[l].unix)
  }

  /** The setup at n slips between the two parts of the call. */
  predicate Slips(run: seq<Act>, n: nat, l: int, e: int) {
    l < n < e && OneCall(run, l, e)
  }

  /** When "enabled means verified" fails: an enabled secret is unconfirmed exactly if its setup slipped
      between the check and the update of every call that has updated since. */
  lemma RaceRule(env: Env, run: seq<Act>, n: nat)
    requires After(env, run).Some? && Standing(run) == Some(n) && Enabled(run, n)
    ensures After(env, run).value.row == Some(Row(run[n].secret, true))
    ensures !Confirmed(env, run, n) <==> forall l, e :: n < e && OneCall(run, l, e) ==> Slips(run, n, l, e)
  {
    RowAlwaysKnown(env, run);
    forall l, e | n < l && OneCall(run, l, e) ensures Totp.Accepts(env, run[n].secret, run[l].code, run[l].unix) {
      var m := UpdateHasCheck(env, run, e);
      StoodThen(run, l);
    }
  }

  /** So without such a slip every enabled secret is a verified one. */
  lemma NoSlipNoRace(env: Env, run: seq<Act>, n: nat)
    requires After(env, run).Some? && Standing(run) == Some(n) && Enabled(run, n)
    requires forall l, e :: !Slips(run, n, l, e)
    ensures Confirmed(env, run, n)
  {
    RaceRule(env, run, n);
    var e :| n < e < |run| && run[e].Enable?;
    var l := UpdateHasCheck(env, run, e);
    assert !Slips(run, n, l, e);
  }

  /** The race exists: a code of the first secret enables the second. */
  lemma SlipIsReal(env: Env, first: string, second: string, code: string, unix: int)
    requires Totp.Accepts(env, first, code, unix)
    ensures
      var run := [Setup(first), Check(7, code, unix), Setup(second), Enable(7)];
      && After(env, run).Some? && After(env, run).value.row == Some(Row(second, true))
      && Standing(run) == Some(2) && !Confirmed(env, run, 2)
  {
    hide After, Totp.Accepts;
    var run := [Setup(first), Check(7, code, unix), Setup(second), Enable(7)];
    assert [] + [Setup(first)] == [Setup(first)];
    assert [Setup(first)] + [Check(7, code, unix)] == [Setup(first), Check(7, code, unix)];
    assert [Setup(first), Check(7, code, unix)] + [Setup(second)] ==
           [Setup(first), Check(7, code, unix), Setup(second)];
    assert [Setup(first), Check(7, code, unix), Setup(second)] + [Enable(7)] == run;
    Starts(env);
    Longer(env, [], Setup(first));
    Longer(env, [Setup(first)], Check(7, code, unix));
    Longer(env, [Setup(first), Check(7, code, unix)], Setup(second));
    Longer(env, [Setup(first), Check(7, code, unix), Setup(second)], Enable(7));
  }

  lemma Starts(env: Env)
    ensures After(env, []) == Some(State(None, {}, {}))
  {}

  lemma Longer(env: Env, run: seq<Act>, a: Act)
    requires After(env, run).Some?
    ensures After(env, run + [a]) == Take(env, After(env, run).value, a)
  {
    hide Take;
    assert (run + [a])[..|run|] == run;
  }

  // Two FinishWebAuthnLogin calls on one ceremony

  /** What the calls that finish one ceremony do: read its row, then commit a transaction whose DELETE of
      the row is content to find nothing. */
  datatype Move = Read(tx: nat) | Commit(tx: nat) | Abort(tx: nat)

  /** Whether the row is there, the transactions that have read it and are open, and those over. */
  datatype Ceremony = Ceremony(present: bool, open: set<nat>, over: set<nat>)

  function Go(s: Ceremony, m: Move): Option<Ceremony> {
    match m
    case Read(t) =>
      if !s.present || t in s.open || t in s.over then None else Some(s.(open := s.open + {t}))
    case Commit(t) =>
      if t !in s.open then None else Some(Ceremony(false, s.open - {t}, s.over + {t}))
    case Abort(t) =>
      if t !in s.open then None else Some(s.(open := s.open - {t}, over := s.over + {t}))
  }

  function Finishing(run: seq<Move>): Option<Ceremony> {
    if run == [] then Some(Ceremony(true, {}, {}))
    else match Finishing(run[..|run| - 1]) case None => None case Some(s) => Go(s, run[|run| - 1])
  }

  /** Transaction t read before u committed and committed after it. */
  predicate Overlap(run: seq<Move>, r: int, i: int, j: int) {
    0 <= r < i < j < |run| && run[r].Read? && run[i].Commit? && run[j].Commit? && run[r].tx == run[j].tx != run[i].tx
  }

  /** The row is there until the first commit, and who is open has read. */
  ghost predicate FinishKnown(run: seq<Move>, s: Ceremony) {
    && (s.present <==> forall i :: 0 <= i < |run| ==> !run[i].Commit?)
    && (forall t :: t in s.open ==> exists r :: 0 <= r < |run| && run[r] == Read(t))
    && (forall i :: 0 <= i < |run| && run[i].Commit? ==> run[i].tx in s.over && run[i].tx !in s.open)
  }

  lemma {:induction false} FinishAlwaysKnown(run: seq<Move>)
    requires Finishing(run).Some?
    ensures FinishKnown(run, Finishing(run).value)
  {
    if run != [] {
      var before, s := run[..|run| - 1], Finishing(run[..|run| - 1]).value;
      FinishAlwaysKnown(before);
      forall t | t in s.open ensures exists r :: 0 <= r < |run| && run[r] == Read(t) {
        var r :| 0 <= r < |before| && before[r] == Read(t);
        assert run[r] == Read(t);
      }
      forall i | 0 <= i < |run| - 1 ensures run[i] == before[i] {}
      assert run[|run| - 1].Read? ==> run[|run| - 1] == Read(run[|run| - 1].tx);
    }
  }

  lemma {:induction false} LegalFinish(run: seq<Move>, k: nat)
    requires Finishing(run).Some? && k < |run|
    ensures Finishing(run[..k]).Some? && Go(Finishing(run[..k]).value, run[k]).Some?
  {
    if k < |run| - 1 {
      LegalFinish(run[..|run| - 1], k);
      assert run[..|run| - 1][..k] == run[..k];
    }
  }

  /** Two transactions commit one ceremony exactly if one of them read it before the other committed. */
  lemma DoubleFinish(run: seq<Move>, i: nat, j: nat)
    requires Finishing(run).Some? && i < j < |run| && run[i].Commit? && run[j].Commit?
    ensures exists r :: Overlap(run, r, i, j)
  {
    hide Finishing;
    LegalFinish(run, j);
    FinishAlwaysKnown(run[..j]);
    assert run[..j][i] == run[i];
    var r :| 0 <= r < j && run[..j][r] == Read(run[j].tx);
    LegalFinish(run, r);
    FinishAlwaysKnown(run[..r]);
    assert run[r] == Read(run[j].tx);
    forall m | 0 <= m < r ensures !run[m].Commit? {
      assert run[..r][m] == run[m];
    }
    assert Overlap(run, r, i, j);
  }

  /** At most one commit, exactly when no two transactions overlap in that way. */
  lemma SingleFinish(run: seq<Move>)
    requires Finishing(run).Some?
    ensures (forall i, j :: 0 <= i < j < |run| ==> !(run[i].Commit? && run[j].Commit?)) <==>
            forall r, i, j :: !Overlap(run, r, i, j)
  {
    forall i: nat, j: nat | i < j < |run| && run[i].Commit? && run[j].Commit?
        ensures exists r :: Overlap(run, r, i, j) {
      DoubleFinish(run, i, j);
    }
  }

  /** And they can: both read, both commit. */
  lemma DoubleFinishIsReal()
    ensures Finishing([Read(1), Read(2), Commit(1), Commit(2)]).Some?
  {
    hide Finishing;
    assert [] + [Read(1)] == [Read(1)] && [Read(1)] + [Read(2)] == [Read(1), Read(2)];
    assert [Read(1), Read(2)] + [Commit(1)] == [Read(1), Read(2), Commit(1)];
    assert [Read(1), Read(2), Commit(1)] + [Commit(2)] == [Read(1), Read(2), Commit(1), Commit(2)];
    NothingFinished();
    FinishLonger([], Read(1));
    FinishLonger([Read(1)], Read(2));
    FinishLonger([Read(1), Read(2)], Commit(1));
    FinishLonger([Read(1), Read(2), Commit(1)], Commit(2));
  }

  lemma NothingFinished()
    ensures Finishing([]) == Some(Ceremony(true, {}, {}))
  {}

  lemma FinishLonger(run: seq<Move>, m: Move)
    requires Finishing(run).Some?
    ensures Finishing(run + [m]) == Go(Finishing(run).value, m)
  {
    hide Go;
    assert (run + [m])[..|run|] == run;
  }
}
