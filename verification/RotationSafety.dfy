/** The inductive invariant of the interleaved protocol, and its refinement to a service
    that runs its calls one at a time. */
module RotationSafety {
  import opened Wrappers
  import opened Tokens
  import opened Rotation

  /** Token hashes are unique. */
  ghost predicate UniqueHashes(t: Table) {
    forall a, b :: a in t && b in t && t[a].hash == t[b].hash ==> a == b
  }

  lemma {:induction false} ReplayHashes(ttl: int, log: seq<Event>)
    requires Replay(ttl, log).Some?
    ensures UniqueHashes(Replay(ttl, log).value)
  {
    if log != [] {
      ReplayHashes(ttl, log[..|log| - 1]);
    }
  }

  /** What the call has read agrees with the committed row in every column that cannot change. */
  ghost predicate SeenAgrees(t: Table, tx: Tx) {
    && tx.call.Refresh? && tx.target in t
    && t[tx.target].hash == tx.call.presented == tx.seen.hash
    && t[tx.target].user == tx.seen.user
    && t[tx.target].expires == tx.seen.expires
    && (tx.seen.usedAt.Some? ==> t[tx.target].usedAt.Some?)
    && (tx.seen.revokedAt.Some? ==> t[tx.target].revokedAt.Some?)
  }

  /** The uncommitted replacement row of an open transaction. */
  ghost predicate PrivateRow(s: State, tx: Tx) {
    && tx.newId.Some?
    && tx.newId.value !in s.table
    && !HashTaken(s.table, tx.newRow.hash)
    && tx.newRow == NewRow(Owner(tx), tx.newRow.hash, tx.issuedAt + s.ttl)
    && tx.checkedAt <= tx.issuedAt
    && (tx.call.Refresh? ==> tx.seen.expires <= tx.issuedAt + s.ttl)
  }

  ghost predicate TxOk(s: State, tx: Tx)
  {
    && (tx.call.Root? ==> tx.phase in {Begun, Inserted, Audited, Committed, Failed})
    && (tx.phase in {Begun, Fetched, Checked} ==> tx.newId.None?)
    && tx.start <= tx.checkedAt <= s.now && tx.issuedAt <= s.now
    && (tx.call.Refresh? && tx.phase in {Fetched, Checked, Inserted, Waiting, Updated, Audited} ==>
        SeenAgrees(s.table, tx))
    && (tx.call.Refresh? && tx.phase in {Checked, Inserted, Waiting, Updated, Audited} ==>
        tx.checkedAt <= tx.seen.expires)
    && (tx.phase in {Inserted, Waiting, Updated, Audited} ==> PrivateRow(s, tx))
    && (tx.call.Refresh? && tx.phase in {Updated, Audited} ==>
          Unclaimed(s.table[tx.target]) && tx.pending == Claimed(s.table[tx.target], tx.start, tx.newId.value))
    && (tx.phase == Committed ==> tx.newId.Some? && tx.newId.value in s.table)
    && (tx.phase in {Refused, Failed} && tx.newId.Some? ==>
        tx.newId.value !in s.table && !HashTaken(s.table, tx.newRow.hash))
  }

  ghost predicate Txs(s: State) {
    forall i :: 0 <= i < |s.txs| ==> TxOk(s, s.txs[i])
  }

  /** Two transactions never insert the same identifier or hash. */
  ghost predicate FreshApart(s: State) {
    forall i, j :: 0 <= i < j < |s.txs| && s.txs[i].newId.Some? && s.txs[j].newId.Some? ==>
                     s.txs[i].newId != s.txs[j].newId && s.txs[i].newRow.hash != s.txs[j].newRow.hash
  }

  /** A row lock has at most one holder. */
  ghost predicate OneHolder(s: State) {
    forall i, j, id :: 0 <= i < j < |s.txs| && Holds(s.txs[i], id) ==> !Holds(s.txs[j], id)
  }

  /** The event that a finished transaction's answer amounts to. */
  function CommitEvent(i: nat, tx: Tx): Event
    requires tx.newId.Some?
  {
    if tx.call.Refresh?
    then Rotated(i, tx.target, tx.call.presented, tx.checkedAt, tx.start, tx.newId.value, tx.newRow.hash, tx.issuedAt)
    else Issued(i, tx.newId.value, tx.call.user, tx.newRow.hash, tx.issuedAt)
  }

  /** The event is the answer transaction i gave to its caller. */
  predicate Answers(e: Event, i: nat) {
    match e
    case Issued(tx, _, _, _, _) => tx == i
    case Rotated(tx, _, _, _, _, _, _, _) => tx == i
    case Denied(tx, _, _) => tx == i
    case Revoked(_, _) => false
  }

  /** Event e is what the history must say about transaction i, which is tx now. */
  ghost predicate Truthful(e: Event, i: nat, tx: Tx) {
    match tx.phase
    case Committed => tx.newId.Some? && e == CommitEvent(i, tx)
    case Refused => tx.call.Refresh? && e == Denied(i, tx.call.presented, tx.checkedAt)
    case _ => false
  }

  /** Committed and refused calls have exactly one event, the others none. */
  ghost predicate Answered(txs: seq<Tx>, log: seq<Event>) {
    && (forall k :: 0 <= k < |log| && !log[k].Revoked? ==>
                      log[k].tx < |txs| && Truthful(log[k], log[k].tx, txs[log[k].tx]))
    && (forall i :: 0 <= i < |txs| && txs[i].phase in {Committed, Refused} ==>
                      exists k :: 0 <= k < |log| && Answers(log[k], i))
    && (forall k, l, i: nat :: 0 <= k < l < |log| && Answers(log[k], i) ==> !Answers(log[l], i))
  }

  /** The clock never runs backwards, so a replacement is never issued before its expiry check
      nor before the token it replaces. */
  ghost predicate Timely(ttl: int, log: seq<Event>) {
    log != [] ==>
      var before, e := log[..|log| - 1], log[|log| - 1];
      && Timely(ttl, before)
      && (e.Rotated? ==>
            && e.checkedAt <= e.issuedAt
            && Replay(ttl, before).Some? && e.id in Replay(ttl, before).value
            && Replay(ttl, before).value[e.id].expires <= e.issuedAt + ttl)
  }

  lemma TimelyAppend(ttl: int, log: seq<Event>, e: Event)
    requires Timely(ttl, log)
    requires e.Rotated? ==>
               && e.checkedAt <= e.issuedAt
               && Replay(ttl, log).Some? && e.id in Replay(ttl, log).value
               && Replay(ttl, log).value[e.id].expires <= e.issuedAt + ttl
    ensures Timely(ttl, log + [e])
  {
    assert (log + [e])[..|log|] == log;
  }

  ghost predicate Inv(s: State) {
    && Replay(s.ttl, s.log) == Some(s.table)
    && Txs(s)
    && FreshApart(s)
    && OneHolder(s)
    && Answered(s.txs, s.log)
    && (forall id :: id in s.table ==> s.table[id].expires <= s.now + s.ttl)
    && Timely(s.ttl, s.log)
  }

  lemma AnswerOnce(txs: seq<Tx>, log: seq<Event>, i: nat, tx: Tx, e: Event)
    requires Answered(txs, log) && i < |txs| && !Over(txs[i]) && Answers(e, i) && Truthful(e, i, tx)
    ensures Answered(txs[i := tx], log + [e])
  {
    var txs', log' := txs[i := tx], log + [e];
    assert log'[|log|] == e;
    forall k | 0 <= k < |log| ensures !Answers(log[k], i) {}
    forall j | 0 <= j < |txs'| && txs'[j].phase in {Committed, Refused}
      ensures exists k :: 0 <= k < |log'| && Answers(log'[k], j)
    {
      if j != i {
        var k :| 0 <= k < |log| && Answers(log[k], j);
        assert log'[k] == log[k];
      }
    }
  }

  lemma AnswerKept(txs: seq<Tx>, log: seq<Event>, i: nat, tx: Tx)
    requires Answered(txs, log) && i < |txs| && !Over(txs[i]) && tx.phase !in {Committed, Refused}
    ensures Answered(txs[i := tx], log)
  {}

  /** A transaction that moves without touching what is committed. */
  lemma Move(s: State, i: nat, tx: Tx)
    requires Inv(s) && i < |s.txs| && !Over(s.txs[i])
    requires TxOk(s, tx) && tx.phase !in {Committed, Refused}
    requires
      || (tx.newId == s.txs[i].newId && tx.newRow.hash == s.txs[i].newRow.hash)
      || (tx.newId.Some? && Unseen(s, tx.newId.value, tx.newRow.hash))
    requires forall id :: Holds(tx, id) ==> Holds(s.txs[i], id) || !Locked(s, id)
    ensures Inv(Set(s, i, tx))
  {
    hide Replay, Answered, Timely;
    AnswerKept(s.txs, s.log, i, tx);
    var s' := Set(s, i, tx);
    forall j | 0 <= j < |s'.txs| ensures TxOk(s', s'.txs[j]) {
      assert j != i ==> TxOk(s, s.txs[j]);
    }
    forall j, k, id | 0 <= j < k < |s'.txs| && Holds(s'.txs[j], id) ensures !Holds(s'.txs[k], id) {
      if j == i && !Holds(s.txs[i], id) {
        assert !Locked(s, id);
      }
    }
  }

  /** A refusal at a moment when a lone refresh would be refused too. */
  lemma Denial(s: State, i: nat, clock: int)
    requires Inv(s) && i < |s.txs| && !Over(s.txs[i]) && s.txs[i].call.Refresh?
    requires !Acceptable(s.table, s.txs[i].call.presented, clock) && s.txs[i].start <= clock <= s.now
    ensures Inv(Deny(s, i, clock))
  {
    hide Replay, Answered, Timely;
    var s' := Deny(s, i, clock);
    var tx := s'.txs[i];
    AnswerOnce(s.txs, s.log, i, tx, Denied(i, s.txs[i].call.presented, clock));
    ReplayAppend(s.ttl, s.log, Denied(i, s.txs[i].call.presented, clock));
    TimelyAppend(s.ttl, s.log, Denied(i, s.txs[i].call.presented, clock));
    assert TxOk(s, s.txs[i]);
    forall j | 0 <= j < |s'.txs| ensures TxOk(s', s'.txs[j]) {
      assert j != i ==> TxOk(s, s.txs[j]);
    }
  }

  /** With unique hashes, one row that is not live rules out every other. */
  lemma NotAcceptable(s: State, id: Id, clock: int)
    requires Inv(s) && id in s.table && !Live(s.table[id], clock)
    ensures !Acceptable(s.table, s.table[id].hash, clock)
  {
    ReplayHashes(s.ttl, s.log);
  }

  lemma ClaimStep(s: State, i: nat)
    requires Inv(s) && i < |s.txs| && s.txs[i].call.Refresh? && s.txs[i].phase in {Inserted, Waiting}
    requires s.txs[i].target in s.table && !(Unclaimed(s.table[s.txs[i].target]) && Locked(s, s.txs[i].target))
    ensures s.txs[i].newId.Some? && Inv(Claim(s, i))
  {
    var tx := s.txs[i];
    assert TxOk(s, tx);
    if Unclaimed(s.table[tx.target]) {
      Move(s, i, tx.(phase := Updated, pending := Claimed(s.table[tx.target], tx.start, tx.newId.value)));
    } else {
      NotAcceptable(s, tx.target, tx.checkedAt);
      Denial(s, i, tx.checkedAt);
    }
  }

  /** A commit changes the table exactly as the same call run alone would. */
  lemma PublishIsSerial(s: State, i: nat)
    requires Inv(s) && i < |s.txs| && s.txs[i].phase == Audited
    ensures s.txs[i].newId.Some?
    ensures Serially(s.table, s.ttl, CommitEvent(i, s.txs[i])) == Some(Publish(s, i).table)
  {
    var tx := s.txs[i];
    assert TxOk(s, tx);
    if tx.call.Refresh? {
      assert Live(s.table[tx.target], tx.checkedAt);
      assert tx.newRow == NewRow(s.table[tx.target].user, tx.newRow.hash, tx.issuedAt + s.ttl);
    }
  }

  /** A commit disturbs no other transaction: the lock and fresh identifiers keep them apart. */
  lemma PublishApart(s: State, i: nat, j: nat)
    requires Txs(s) && FreshApart(s) && OneHolder(s)
    requires i < |s.txs| && s.txs[i].phase == Audited && s.txs[i].newId.Some?
    requires j < |s.txs| && j != i
    ensures TxOk(Publish(s, i), s.txs[j])
  {
    var tx, other := s.txs[i], s.txs[j];
    assert TxOk(s, tx) && TxOk(s, other);
    if tx.call.Refresh? && other.call.Refresh? && other.phase in {Updated, Audited} {
      assert Holds(tx, tx.target) && Holds(other, other.target);
      assert tx.target != other.target;
    }
    if other.newId.Some? {
      assert other.newId != tx.newId && other.newRow.hash != tx.newRow.hash;
    }
  }

  lemma PublishStep(s: State, i: nat)
    requires Inv(s) && i < |s.txs| && s.txs[i].phase == Audited
    ensures s.txs[i].newId.Some? && Inv(Publish(s, i))
  {
    hide Serially, Replay, Answered, Timely;
    PublishIsSerial(s, i);
    var tx := s.txs[i];
    var e := CommitEvent(i, tx);
    assert TxOk(s, tx);
    ReplayAppend(s.ttl, s.log, e);
    TimelyAppend(s.ttl, s.log, e);
    AnswerOnce(s.txs, s.log, i, tx.(phase := Committed), e);
    var s' := Publish(s, i);
    forall j | 0 <= j < |s'.txs| ensures TxOk(s', s'.txs[j]) {
      if j != i {
        PublishApart(s, i, j);
      } else {
        assert TxOk(s, tx);
      }
    }
  }

  lemma RevokeStep(s: State, id: Id)
    requires Inv(s) && Enabled(s, Revoke(id))
    ensures Inv(Apply(s, Revoke(id)))
  {
    hide Replay, Timely;
    var s' := Apply(s, Revoke(id));
    ReplayAppend(s.ttl, s.log, Revoked(id, s.now));
    TimelyAppend(s.ttl, s.log, Revoked(id, s.now));
    forall j | 0 <= j < |s'.txs| ensures TxOk(s', s'.txs[j]) {
      assert TxOk(s, s.txs[j]);
      if s.txs[j].call.Refresh? && s.txs[j].phase in {Updated, Audited} {
        assert Holds(s.txs[j], s.txs[j].target);
      }
    }
    forall j | 0 <= j < |s'.txs| && s'.txs[j].phase in {Committed, Refused}
      ensures exists k :: 0 <= k < |s'.log| && Answers(s'.log[k], j)
    {
      var k :| 0 <= k < |s.log| && Answers(s.log[k], j);
      assert s'.log[k] == s.log[k];
    }
  }

  lemma BeginStep(s: State, call: Call)
    requires Inv(s)
    ensures Inv(Apply(s, Begin(call)))
  {
    var s' := Apply(s, Begin(call));
    forall j | 0 <= j < |s'.txs| ensures TxOk(s', s'.txs[j]) {
      assert j < |s.txs| ==> TxOk(s, s.txs[j]);
    }
  }

  lemma TickStep(s: State, d: nat)
    requires Inv(s)
    ensures Inv(Apply(s, Tick(d)))
  {
    var s' := Apply(s, Tick(d));
    forall j | 0 <= j < |s'.txs| ensures TxOk(s', s'.txs[j]) {
      assert TxOk(s, s.txs[j]);
    }
  }

  lemma ReadingStep(s: State, step: Step)
    requires Inv(s) && Enabled(s, step) && (step.Fetch? || step.Miss? || step.Check?)
    ensures Inv(Apply(s, step))
  {
    var t := step.t;
    assert TxOk(s, s.txs[t]);
    match step
    case Fetch(_, id) => Move(s, t, s.txs[t].(phase := Fetched, target := id, seen := s.table[id]));
    case Miss(_) => Denial(s, t, s.now);
    case Check(_) =>
      if Live(s.txs[t].seen, s.now) {
        Move(s, t, s.txs[t].(phase := Checked, checkedAt := s.now));
      } else {
        NotAcceptable(s, s.txs[t].target, s.now);
        Denial(s, t, s.now);
      }
  }

  /** No transaction has read a row that expires more than one lifetime from now. */
  lemma SeenExpiry(s: State, t: nat)
    requires Inv(s) && Active(s, t)
    ensures TxOk(s, s.txs[t])
    ensures s.txs[t].call.Refresh? && s.txs[t].phase == Checked ==> s.txs[t].seen.expires <= s.now + s.ttl
  {
    hide Replay, Answered, Timely, FreshApart, OneHolder;
  }

  lemma InsertStep(s: State, t: nat, id: Id, hash: string)
    requires Inv(s) && Enabled(s, Insert(t, id, hash))
    ensures Inv(Apply(s, Insert(t, id, hash)))
  {
    hide Inv;
    SeenExpiry(s, t);
    Move(s, t, s.txs[t].(phase := Inserted, newId := Some(id), issuedAt := s.now,
                         newRow := NewRow(Owner(s.txs[t]), hash, s.now + s.ttl)));
  }

  lemma UpdateStep(s: State, t: nat)
    requires Inv(s) && Enabled(s, Update(t))
    ensures Inv(Apply(s, Update(t)))
  {
    if Unclaimed(s.table[s.txs[t].target]) && Locked(s, s.txs[t].target) {
      assert TxOk(s, s.txs[t]);
      Move(s, t, s.txs[t].(phase := Waiting));
    } else {
      ClaimStep(s, t);
    }
  }

  lemma ClosingStep(s: State, step: Step)
    requires Inv(s) && Enabled(s, step) && (step.Audit? || step.Fail?)
    ensures Inv(Apply(s, step))
  {
    var t := step.t;
    assert TxOk(s, s.txs[t]);
    Move(s, t, s.txs[t].(phase := if step.Audit? then Audited else Failed));
  }

  /** Every step of every transaction keeps the invariant. */
  lemma InvStep(s: State, step: Step)
    requires Inv(s) && Enabled(s, step)
    ensures Inv(Apply(s, step))
  {
    match step
    case Begin(call) => BeginStep(s, call);
    case Fetch(_, _) => ReadingStep(s, step);
    case Miss(_) => ReadingStep(s, step);
    case Check(_) => ReadingStep(s, step);
    case Insert(t, id, hash) => InsertStep(s, t, id, hash);
    case Update(t) => UpdateStep(s, t);
    case Wake(t) => ClaimStep(s, t);
    case Audit(_) => ClosingStep(s, step);
    case Commit(t) => PublishStep(s, t);
    case Fail(_) => ClosingStep(s, step);
    case Revoke(id) => RevokeStep(s, id);
    case Tick(d) => TickStep(s, d);
  }

  lemma {:induction false} InvAlways(ttl: nat, now: int, run: seq<Step>)
    requires After(Start(ttl, now), run).Some?
    ensures Inv(After(Start(ttl, now), run).value)
    ensures After(Start(ttl, now), run).value.ttl == ttl
  {
    if run != [] {
      InvAlways(ttl, now, run[..|run| - 1]);
      InvStep(After(Start(ttl, now), run[..|run| - 1]).value, run[|run| - 1]);
    }
  }

  lemma ReachableInv(s: State)
    requires Reachable(s)
    ensures Inv(s)
  {
    var now, run :| After(Start(s.ttl, now), run) == Some(s);
    InvAlways(s.ttl, now, run);
  }
}
