/** Deadlock freedom, termination and availability of the rotation protocol. */
module RotationProgress {
  import opened Wrappers
  import opened Tokens
  import opened Rotation
  import opened RotationSafety
  import opened RotationChains

  /** The steps a transaction takes by itself on its way to an answer. */
  predicate Forward(step: Step) {
    !step.Begin? && !step.Fail? && !step.Revoke? && !step.Tick?
  }

  ghost predicate CanMove(s: State, i: nat) {
    exists step :: Enabled(s, step) && Forward(step) && step.t == i
  }

  // Fresh identifiers and hashes always exist

  lemma {:induction false} FreshId(ids: set<Id>) returns (id: Id)
    ensures forall x :: x in ids ==> x < id
  {
    if ids == {} {
      id := 0;
    } else {
      var x :| x in ids;
      var rest := FreshId(ids - {x});
      assert forall y :: y in ids ==> y == x || y in ids - {x};
      id := if x < rest then rest else x + 1;
    }
  }

  lemma {:induction false} FreshHash(hashes: set<string>) returns (hash: string)
    ensures forall x :: x in hashes ==> |x| < |hash|
  {
    if hashes == {} {
      hash := "";
    } else {
      var x :| x in hashes;
      var rest := FreshHash(hashes - {x});
      assert forall y :: y in hashes ==> y == x || y in hashes - {x};
      hash := if |x| < |rest| then rest else x + "a";
    }
  }

  lemma FreshSupply(s: State) returns (id: Id, hash: string)
    ensures Unseen(s, id, hash)
  {
    var rows := set tx | tx in s.txs && tx.newId.Some?;
    var ids := s.table.Keys + set tx | tx in rows :: tx.newId.value;
    var hashes := (set x | x in s.table :: s.table[x].hash) + set tx | tx in rows :: tx.newRow.hash;
    id := FreshId(ids);
    hash := FreshHash(hashes);
    forall x | x in s.table ensures s.table[x].hash != hash {
      assert s.table[x].hash in hashes;
    }
    forall i | 0 <= i < |s.txs| && s.txs[i].newId.Some?
      ensures s.txs[i].newId.value != id && s.txs[i].newRow.hash != hash
    {
      assert s.txs[i] in rows;
      assert s.txs[i].newId.value in ids && s.txs[i].newRow.hash in hashes;
    }
  }

  /** Every unfinished transaction can take its next step, unless it waits for a row lock. */
  lemma OnlyWaitsForLocks(s: State, i: nat)
    requires Inv(s) && Active(s, i)
    ensures CanMove(s, i) || (s.txs[i].phase == Waiting && Locked(s, s.txs[i].target))
  {
    var tx := s.txs[i];
    assert TxOk(s, tx);
    match tx.phase
    case Begun =>
      if tx.call.Root? {
        var id, hash := FreshSupply(s);
        assert Enabled(s, Insert(i, id, hash));
      } else if HashTaken(s.table, tx.call.presented) {
        var id :| id in s.table && s.table[id].hash == tx.call.presented;
        assert Enabled(s, Fetch(i, id));
      } else {
        assert Enabled(s, Miss(i));
      }
    case Fetched => assert Enabled(s, Check(i));
    case Checked =>
      var id, hash := FreshSupply(s);
      assert Enabled(s, Insert(i, id, hash));
    case Inserted =>
      assert if tx.call.Refresh? then Enabled(s, Update(i)) else Enabled(s, Audit(i));
    case Waiting => assert !Locked(s, tx.target) ==> Enabled(s, Wake(i));
    case Updated => assert Enabled(s, Audit(i));
    case Audited => assert Enabled(s, Commit(i));
    case _ => assert false;
  }

  /** Wait chains have length one: whoever waits holds no lock, and the holder it waits for can move. */
  lemma WaitChain(s: State, i: nat) returns (j: nat)
    requires Reachable(s) && Active(s, i) && !CanMove(s, i)
    ensures forall id :: !Holds(s.txs[i], id)
    ensures j < |s.txs| && j != i && Holds(s.txs[j], s.txs[i].target) && CanMove(s, j)
  {
    ReachableInv(s);
    OnlyWaitsForLocks(s, i);
    var k :| 0 <= k < |s.txs| && Holds(s.txs[k], s.txs[i].target);
    j := k;
    OnlyWaitsForLocks(s, j);
  }

  /** Deadlock freedom: as long as some call is unanswered, some call can take a step. */
  lemma DeadlockFree(s: State, i: nat) returns (step: Step)
    requires Reachable(s) && Active(s, i)
    ensures Enabled(s, step) && Forward(step)
  {
    var j := i;
    if !CanMove(s, i) {
      j := WaitChain(s, i);
    }
    step :| Enabled(s, step) && Forward(step) && step.t == j;
  }

  // Termination

  /** How far a call has come; each of its steps brings it further. */
  function Depth(tx: Tx): nat {
    match tx.phase
    case Begun => 0
    case Fetched => 1
    case Checked => 2
    case Inserted => 3
    case Waiting => 4
    case Updated => 5
    case Audited => 6
    case _ => 7
  }

  function TotalDepth(txs: seq<Tx>): nat {
    if txs == [] then 0 else TotalDepth(txs[..|txs| - 1]) + Depth(txs[|txs| - 1])
  }

  lemma {:induction false} DepthAfterSet(txs: seq<Tx>, i: nat, tx: Tx)
    requires i < |txs|
    ensures TotalDepth(txs[i := tx]) == TotalDepth(txs) - Depth(txs[i]) + Depth(tx)
  {
    if i == |txs| - 1 {
      assert txs[i := tx][..|txs| - 1] == txs[..|txs| - 1];
    } else {
      DepthAfterSet(txs[..|txs| - 1], i, tx);
      assert txs[i := tx][..|txs| - 1] == txs[..|txs| - 1][i := tx];
    }
  }

  lemma {:induction false} DepthBound(txs: seq<Tx>)
    ensures TotalDepth(txs) <= 7 * |txs|
  {
    if txs != [] {
      DepthBound(txs[..|txs| - 1]);
    }
  }

  predicate Moves(step: Step) {
    Forward(step) || step.Fail?
  }

  lemma MoverDeeper(s: State, step: Step)
    requires Enabled(s, step) && Moves(step)
    ensures step.t < |s.txs| && Depth(Apply(s, step).txs[step.t]) > Depth(s.txs[step.t])
    ensures Apply(s, step).txs == s.txs[step.t := Apply(s, step).txs[step.t]]
  {}

  lemma StepsDeeper(s: State, step: Step)
    requires Enabled(s, step)
    ensures Moves(step) ==> TotalDepth(Apply(s, step).txs) > TotalDepth(s.txs) && |Apply(s, step).txs| == |s.txs|
    ensures !Moves(step) ==> TotalDepth(Apply(s, step).txs) == TotalDepth(s.txs)
    ensures |Apply(s, step).txs| == |s.txs| + (if step.Begin? then 1 else 0)
  {
    var s' := Apply(s, step);
    if Moves(step) {
      MoverDeeper(s, step);
      DepthAfterSet(s.txs, step.t, s'.txs[step.t]);
    } else if step.Begin? {
      assert s'.txs[..|s.txs|] == s.txs;
    }
  }

  function CountMoves(run: seq<Step>): nat {
    if run == [] then 0 else CountMoves(run[..|run| - 1]) + (if Moves(run[|run| - 1]) then 1 else 0)
  }

  function CountBegins(run: seq<Step>): nat {
    if run == [] then 0 else CountBegins(run[..|run| - 1]) + (if run[|run| - 1].Begin? then 1 else 0)
  }

  lemma {:induction false} MovesAreBounded(ttl: nat, now: int, run: seq<Step>)
    requires After(Start(ttl, now), run).Some?
    ensures
      var s := After(Start(ttl, now), run).value;
      CountMoves(run) <= TotalDepth(s.txs) && |s.txs| == CountBegins(run)
  {
    if run != [] {
      MovesAreBounded(ttl, now, run[..|run| - 1]);
      StepsDeeper(After(Start(ttl, now), run[..|run| - 1]).value, run[|run| - 1]);
    }
  }

  /** Termination: n calls take at most 7n steps between them, waits, wake-ups and failures included. */
  lemma Termination(ttl: nat, now: int, run: seq<Step>)
    requires After(Start(ttl, now), run).Some?
    ensures CountMoves(run) <= 7 * CountBegins(run)
  {
    MovesAreBounded(ttl, now, run);
    DepthBound(After(Start(ttl, now), run).value.txs);
  }

  // Continuations

  /** One step, then a run from where it leads. */
  lemma {:induction false} AfterCons(s: State, step: Step, rest: seq<Step>)
    requires Enabled(s, step) && After(Apply(s, step), rest).Some?
    ensures After(s, [step] + rest) == After(Apply(s, step), rest)
  {
    hide Enabled, Apply;
    var run := [step] + rest;
    if rest == [] {
      assert run[..0] == [] && run == [step];
      assert After(s, run[..0]) == Some(s);
    } else {
      AfterCons(s, step, rest[..|rest| - 1]);
      assert run[..|run| - 1] == [step] + rest[..|rest| - 1];
    }
  }

  /** The finished transactions stay as they are, the others do not fail. */
  predicate Proceeds(txs: seq<Tx>, txs': seq<Tx>) {
    && |txs'| == |txs|
    && forall i :: 0 <= i < |txs| ==>
                     && txs'[i].call == txs[i].call
                     && (Over(txs[i]) ==> txs'[i] == txs[i])
                     && (txs'[i].phase == Failed ==> txs[i].phase == Failed)
  }

  lemma ForwardProceeds(s: State, step: Step)
    requires Enabled(s, step) && Forward(step)
    ensures Proceeds(s.txs, Apply(s, step).txs)
  {
    MoverDeeper(s, step);
    var t := step.t;
    assert Apply(s, step).txs[t].call == s.txs[t].call && Apply(s, step).txs[t].phase != Failed;
  }

  lemma ReachableStep(s: State, step: Step)
    requires Reachable(s) && Enabled(s, step)
    ensures Reachable(Apply(s, step))
  {
    hide Enabled, Apply;
    var now, run :| After(Start(s.ttl, now), run) == Some(s);
    KeepsTtl(s, step);
    assert (run + [step])[..|run|] == run;
    assert After(Start(s.ttl, now), run + [step]) == Some(Apply(s, step));
  }

  lemma KeepsTtl(s: State, step: Step)
    requires Enabled(s, step)
    ensures Apply(s, step).ttl == s.ttl
  {}

  /** Whatever is in flight, the calls can all run to an answer by their own steps, none of them failing
      and none of the answers already given changing. */
  lemma {:induction false} AllCanFinish(s: State) returns (run: seq<Step>, s': State)
    requires Reachable(s)
    ensures After(s, run) == Some(s') && forall k :: 0 <= k < |run| ==> Forward(run[k])
    ensures Proceeds(s.txs, s'.txs)
    ensures forall i: nat :: i < |s'.txs| ==> !Active(s', i)
    decreases 7 * |s.txs| - TotalDepth(s.txs)
  {
    hide Enabled, Apply, Over, Reachable;
    DepthBound(s.txs);
    if i: nat :| i < |s.txs| && Active(s, i) {
      var step := DeadlockFree(s, i);
      StepsDeeper(s, step);
      ReachableStep(s, step);
      ForwardProceeds(s, step);
      DepthBound(Apply(s, step).txs);
      var rest, last := AllCanFinish(Apply(s, step));
      AfterCons(s, step, rest);
      run, s' := [step] + rest, last;
    } else {
      run, s' := [], s;
    }
  }

  // Availability

  /** A run goes one step further. */
  lemma Go(s0: State, run: seq<Step>, s: State, step: Step) returns (run': seq<Step>, s': State)
    requires After(s0, run) == Some(s) && Enabled(s, step)
    ensures run' == run + [step] && s' == Apply(s, step) && After(s0, run') == Some(s')
  {
    hide Enabled, Apply;
    run', s' := run + [step], Apply(s, step);
    assert run'[..|run|] == run;
  }

  lemma LoginInserts(s0: State, run: seq<Step>, s: State, user: Id, id: Id, hash: string)
    returns (run': seq<Step>, s': State, tx: Tx)
    requires After(s0, run) == Some(s) && Unseen(s, id, hash)
    ensures After(s0, run') == Some(s') && s' == s.(txs := s.txs + [tx])
    ensures tx.call == Root(user) && tx.phase == Inserted && tx.newId == Some(id)
    ensures tx.issuedAt == s.now && tx.newRow == NewRow(user, hash, s.now + s.ttl)
  {
    hide After;
    var run1, s1 := Go(s0, run, s, Begin(Root(user)));
    run', s' := Go(s0, run1, s1, Insert(|s.txs|, id, hash));
    tx := s'.txs[|s.txs|];
  }

  /** An undisturbed login commits its token. */
  lemma LoginSucceeds(s0: State, run: seq<Step>, s: State, user: Id, id: Id, hash: string)
    returns (run': seq<Step>, s': State, tx: Tx)
    requires After(s0, run) == Some(s) && Unseen(s, id, hash)
    ensures After(s0, run') == Some(s') && tx.newId == Some(id) && tx.newRow.hash == hash && tx.phase == Committed
    ensures s' == s.(table := s.table[id := NewRow(user, hash, s.now + s.ttl)], txs := s.txs + [tx],
                     log := s.log + [Issued(|s.txs|, id, user, hash, s.now)])
  {
    hide After, Unseen;
    var t := |s.txs|;
    var run1, s1, tx1 := LoginInserts(s0, run, s, user, id, hash);
    var run2, s2 := Go(s0, run1, s1, Audit(t));
    run', s' := Go(s0, run2, s2, Commit(t));
    tx := s'.txs[t];
  }

  /** The first half of a refresh: the token is found and passes the check. */
  lemma CheckSucceeds(s0: State, run: seq<Step>, s: State, id: Id) returns (run': seq<Step>, s': State, tx: Tx)
    requires After(s0, run) == Some(s) && id in s.table && Live(s.table[id], s.now)
    ensures After(s0, run') == Some(s') && s' == s.(txs := s.txs + [tx])
    ensures tx == Opened(Refresh(s.table[id].hash), s.now).(
                    phase := Checked, target := id, seen := s.table[id], checkedAt := s.now)
  {
    hide After;
    var t := |s.txs|;
    var run1, s1 := Go(s0, run, s, Begin(Refresh(s.table[id].hash)));
    var run2, s2 := Go(s0, run1, s1, Fetch(t, id));
    run', s' := Go(s0, run2, s2, Check(t));
    tx := s'.txs[t];
  }

  /** Some time later the replacement is inserted, still invisible. */
  lemma InsertSucceeds(s0: State, run: seq<Step>, s: State, t: nat, delay: nat, newId: Id, newHash: string)
    returns (run': seq<Step>, s': State)
    requires After(s0, run) == Some(s)
    requires t < |s.txs| && s.txs[t].call.Refresh? && s.txs[t].phase == Checked && Unseen(s, newId, newHash)
    ensures After(s0, run') == Some(s') && s' == s.(txs := s'.txs, now := s.now + delay)
    ensures s'.txs == s.txs[t := s.txs[t].(phase := Inserted, newId := Some(newId), issuedAt := s.now + delay,
                                           newRow := NewRow(s.txs[t].seen.user, newHash, s.now + delay + s.ttl))]
  {
    hide After;
    var run1, s1 := Go(s0, run, s, Tick(delay));
    run', s' := Go(s0, run1, s1, Insert(t, newId, newHash));
  }

  /** The second half: with the row free, the guarded UPDATE matches and the call commits. */
  lemma RotateSucceeds(s0: State, run: seq<Step>, s: State, t: nat) returns (run': seq<Step>, s': State)
    requires After(s0, run) == Some(s)
    requires t < |s.txs| && s.txs[t].call.Refresh? && s.txs[t].phase == Inserted && s.txs[t].newId.Some?
    requires s.txs[t].target in s.table && Unclaimed(s.table[s.txs[t].target]) && !Locked(s, s.txs[t].target)
    ensures After(s0, run') == Some(s') && s'.ttl == s.ttl && s'.now == s.now
    ensures
      var tx := s.txs[t];
      var pending := Claimed(s.table[tx.target], tx.start, tx.newId.value);
      && s'.table == s.table[tx.newId.value := tx.newRow][tx.target := pending]
      && s'.txs == s.txs[t := tx.(phase := Committed, pending := pending)]
      && s'.log == s.log + [CommitEvent(t, tx)]
  {
    hide After;
    var run1, s1 := Go(s0, run, s, Update(t));
    var run2, s2 := Go(s0, run1, s1, Audit(t));
    run', s' := Go(s0, run2, s2, Commit(t));
  }

  /** A newcomer that has inserted nothing takes no identifier and no lock. */
  lemma NewcomerIsQuiet(s: State, s': State, tx: Tx, id: Id, newId: Id, newHash: string)
    requires s'.table == s.table && s'.txs == s.txs + [tx] && !Locked(s, id)
    ensures tx.newId.None? && Unseen(s, newId, newHash) ==> Unseen(s', newId, newHash)
    ensures !Holds(tx, id) ==> !Locked(s', id)
  {
    forall i | 0 <= i < |s.txs| ensures s'.txs[i] == s.txs[i] && !Holds(s'.txs[i], id) {}
  }

  /** The event of a refresh that passes its check now and issues its replacement `delay` later. */
  function Replacement(s: State, id: Id, delay: nat, newId: Id, newHash: string): Event
    requires id in s.table
  {
    Rotated(|s.txs|, id, s.table[id].hash, s.now, s.now, newId, newHash, s.now + delay)
  }

  /** The state after that refresh, which is transaction tx. */
  predicate Replaced(s: State, s': State, tx: Tx, id: Id, delay: nat, newId: Id, newHash: string)
    requires id in s.table
  {
    && tx.call == Refresh(s.table[id].hash) && tx.phase == Committed && tx.newId == Some(newId)
    && s' == s.(table := s.table[newId := NewRow(s.table[id].user, newHash, s.now + delay + s.ttl)]
                                [id := Claimed(s.table[id], s.now, newId)],
                txs := s.txs + [tx],
                now := s.now + delay,
                log := s.log + [Replacement(s, id, delay, newId, newHash)])
  }

  lemma RefreshGoesThrough(s0: State, run: seq<Step>, s: State, id: Id, delay: nat, newId: Id, newHash: string)
    returns (run': seq<Step>, s': State, tx: Tx)
    requires After(s0, run) == Some(s)
    requires id in s.table && Live(s.table[id], s.now) && !Locked(s, id) && Unseen(s, newId, newHash)
    ensures After(s0, run') == Some(s') && Replaced(s, s', tx, id, delay, newId, newHash)
  {
    hide After, Locked, Unseen;
    var t := |s.txs|;
    var run1, s1, tx1 := CheckSucceeds(s0, run, s, id);
    NewcomerIsQuiet(s, s1, tx1, id, newId, newHash);
    var run2, s2 := InsertSucceeds(s0, run1, s1, t, delay, newId, newHash);
    NewcomerIsQuiet(s, s2, s2.txs[t], id, newId, newHash);
    run', s' := RotateSucceeds(s0, run2, s2, t);
    tx := s'.txs[t];
  }

  /** Availability: from any state, whoever presents a live token that no other call is rotating can
      run to a commit that uses the token up and gives a replacement which expires one lifetime
      after it is issued; the other transactions are where they were. */
  lemma RefreshSucceeds(s: State, id: Id, delay: nat, newId: Id, newHash: string)
    returns (run: seq<Step>, s': State, tx: Tx)
    requires id in s.table && Live(s.table[id], s.now) && !Locked(s, id) && Unseen(s, newId, newHash)
    ensures After(s, run) == Some(s') && Replaced(s, s', tx, id, delay, newId, newHash)
  {
    run, s', tx := RefreshGoesThrough(s, [], s, id, delay, newId, newHash);
  }

  /** The delay in the expiry bound cannot be dropped: the code reads the clock once for the
      expiry check and again for the new expiry, so a refresh that passes the check in the last
      moment and then takes `delay` gets a token that outlives two lifetimes by the delay. */
  lemma DelayIsReal(ttl: nat, delay: nat) returns (s: State)
    ensures Reachable(s) && s.ttl == ttl
    ensures |s.log| == 2 && s.log[1].Rotated? && s.log[1].id == 1 && s.log[1].newId == 2
    ensures s.log[1].issuedAt == s.log[1].checkedAt + delay && Prompt(s.log, delay)
    ensures 1 in s.table && 2 in s.table && s.table[1].replacedBy == Some(2)
    ensures s.table[1].expires == ttl && s.table[2].expires == 2 * ttl + delay
  {
    hide After, Locked;
    var init := Start(ttl, 0);
    StartsHere(init);
    var run1, s1, login := LoginSucceeds(init, [], init, 7, 1, "a");
    var run2, s2 := Go(init, run1, s1, Tick(ttl));
    NobodyHolds(s2, 1);
    var run3, s3, refresh := RefreshGoesThrough(init, run2, s2, 1, delay, 2, "b");
    s := s3;
  }

  lemma StartsHere(s: State)
    ensures After(s, []) == Some(s)
  {}

  lemma NobodyHolds(s: State, id: Id)
    requires forall i :: 0 <= i < |s.txs| ==> s.txs[i].phase == Committed
    ensures !Locked(s, id)
  {}
}
