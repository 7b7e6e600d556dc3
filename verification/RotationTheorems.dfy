/** What the rotation protocol promises, over every run of every number of transactions. */
module RotationTheorems {
  import opened Wrappers
  import opened Tokens
  import opened Rotation
  import opened RotationSafety

  /** Serial refinement: the committed table of any interleaving is that of running the
      answered calls one at a time in the order of the history, each giving the answer its
      caller got; committed and refused calls occur in that history exactly once, with their own
      arguments, and no other call occurs in it. */
  lemma SerialRefinement(s: State)
    requires Reachable(s)
    ensures Replay(s.ttl, s.log) == Some(s.table) && Answered(s.txs, s.log)
  {
    ReachableInv(s);
  }

  /** The history respects real time: what was answered before a point of the run precedes
      everything answered after it. */
  lemma {:induction false} HistoryOnlyGrows(s: State, run: seq<Step>, n: nat)
    requires n <= |run| && After(s, run).Some?
    ensures After(s, run[..n]).Some? && After(s, run[..n]).value.log <= After(s, run).value.log
  {
    if n == |run| {
      assert run[..n] == run;
    } else {
      var before := run[..|run| - 1];
      HistoryOnlyGrows(s, before, n);
      assert before[..n] == run[..n];
      var pre := After(s, before).value;
      assert pre.log <= Apply(pre, run[|run| - 1]).log;
    }
  }

  /** A prefix of a replayable history is replayable. */
  lemma {:induction false} ReplayPrefix(ttl: int, log: seq<Event>, n: nat)
    requires n <= |log| && Replay(ttl, log).Some?
    ensures Replay(ttl, log[..n]).Some?
  {
    if n == |log| {
      assert log[..n] == log;
    } else {
      ReplayPrefix(ttl, log[..|log| - 1], n);
      assert log[..|log| - 1][..n] == log[..n];
    }
  }

  /** Once claimed, a token stays claimed by the same replacement. */
  lemma {:induction false} ClaimedForever(ttl: int, log: seq<Event>, k: nat)
    requires k < |log| && log[k].Rotated? && Replay(ttl, log).Some?
    ensures
      var t := Replay(ttl, log).value;
      && log[k].id in t && t[log[k].id].usedAt == Some(log[k].start)
      && t[log[k].id].replacedBy == Some(log[k].newId)
      && log[k].newId in t && t[log[k].newId].hash == log[k].newHash
  {
    if k < |log| - 1 {
      ClaimedForever(ttl, log[..|log| - 1], k);
    }
  }

  /** At most one refresh ever consumes a token, serially. */
  lemma ConsumedOnceSerially(ttl: int, log: seq<Event>, k: nat, l: nat)
    requires Replay(ttl, log).Some?
    requires k < l < |log| && log[k].Rotated? && log[l].Rotated?
    ensures log[k].id != log[l].id
  {
    ReplayPrefix(ttl, log, l + 1);
    assert log[..l + 1][..l] == log[..l];
    ClaimedForever(ttl, log[..l], k);
  }

  /** Where the history records the answer of a finished call. */
  lemma AnswerOf(s: State, i: nat) returns (k: nat)
    requires Answered(s.txs, s.log) && i < |s.txs| && s.txs[i].phase == Committed
    ensures k < |s.log| && Truthful(s.log[k], i, s.txs[i])
  {
    var l :| 0 <= l < |s.log| && Answers(s.log[l], i);
    k := l;
  }

  /** The row a refresh consumed is the one whose hash it presented. */
  lemma {:induction false} KeepsHash(ttl: int, log: seq<Event>, k: nat)
    requires k < |log| && log[k].Rotated? && Replay(ttl, log).Some?
    ensures log[k].id in Replay(ttl, log).value && Replay(ttl, log).value[log[k].id].hash == log[k].hash
  {
    if k < |log| - 1 {
      KeepsHash(ttl, log[..|log| - 1], k);
    }
  }

  /** Two different refreshes that both succeed consumed different tokens, whatever the interleaving. */
  lemma AtMostOnce(s: State, i: nat, j: nat)
    requires Reachable(s) && i < |s.txs| && j < |s.txs| && i != j
    requires s.txs[i].call.Refresh? && s.txs[i].phase == Committed
    requires s.txs[j].call.Refresh? && s.txs[j].phase == Committed
    ensures s.txs[i].target != s.txs[j].target && s.txs[i].call.presented != s.txs[j].call.presented
  {
    ReachableInv(s);
    var k := AnswerOf(s, i);
    var l := AnswerOf(s, j);
    if k < l {
      ConsumedOnceSerially(s.ttl, s.log, k, l);
    } else {
      ConsumedOnceSerially(s.ttl, s.log, l, k);
    }
    KeepsHash(s.ttl, s.log, k);
    KeepsHash(s.ttl, s.log, l);
    ReplayHashes(s.ttl, s.log);
  }

  /** The replacement a losing, failing or unfinished refresh has inserted is never visible. */
  lemma NoOrphans(s: State, i: nat)
    requires Reachable(s) && i < |s.txs| && s.txs[i].newId.Some?
    ensures s.txs[i].phase == Committed <==> s.txs[i].newId.value in s.table
    ensures s.txs[i].phase != Committed ==> !HashTaken(s.table, s.txs[i].newRow.hash)
    ensures s.txs[i].phase == Committed && s.txs[i].call.Refresh? ==>
              s.txs[i].target in s.table && s.table[s.txs[i].target].replacedBy == s.txs[i].newId
  {
    ReachableInv(s);
    assert TxOk(s, s.txs[i]);
    if s.txs[i].phase == Committed && s.txs[i].call.Refresh? {
      var k := AnswerOf(s, i);
      ClaimedForever(s.ttl, s.log, k);
    }
  }

  /** The early read is made safe: a call that answers "invalid" answers it at a moment when a
      refresh run alone on the committed table, presenting the same token and with the clock
      reading the call itself took, would be refused. */
  lemma RefusalIsSerial(s: State, k: nat)
    requires Reachable(s) && k < |s.log| && s.log[k].Denied?
    ensures Replay(s.ttl, s.log[..k]).Some?
    ensures !Acceptable(Replay(s.ttl, s.log[..k]).value, s.log[k].hash, s.log[k].clock)
    ensures
      var i := s.log[k].tx;
      && i < |s.txs| && s.txs[i].phase == Refused && s.txs[i].call == Refresh(s.log[k].hash)
      && s.log[k].clock == s.txs[i].checkedAt && s.txs[i].start <= s.txs[i].checkedAt <= s.now
  {
    ReachableInv(s);
    ReplayPrefix(s.ttl, s.log, k + 1);
    assert s.log[..k + 1][..k] == s.log[..k];
    assert Truthful(s.log[k], s.log[k].tx, s.txs[s.log[k].tx]);
    assert TxOk(s, s.txs[s.log[k].tx]);
  }
}
