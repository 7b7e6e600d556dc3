/** Whose clock readings the history of the protocol holds: each transaction keeps, to its end, the readings its own
    steps took, the row it read and the row it inserted. */
module RotationClock {
  import opened Wrappers
  import opened Tokens
  import opened Rotation

  function Stage(p: Phase): nat {
    match p
    case Begun => 0
    case Fetched => 1
    case Checked => 2
    case Inserted => 3
    case Waiting => 4
    case Updated => 5
    case Audited => 6
    case _ => 7
  }

  /** What a transaction never takes back. */
  predicate Later(tx: Tx, tx': Tx) {
    && tx'.call == tx.call && tx'.start == tx.start && Stage(tx.phase) <= Stage(tx'.phase)
    && (tx.phase in {Committed, Refused, Failed} ==> tx' == tx)
    && (Stage(tx.phase) >= 1 ==> tx'.target == tx.target && tx'.seen == tx.seen)
    && (Stage(tx.phase) >= 2 ==> tx'.checkedAt == tx.checkedAt)
    && (Stage(tx.phase) >= 3 ==> tx'.newId == tx.newId && tx'.newRow == tx.newRow && tx'.issuedAt == tx.issuedAt)
  }

  lemma StepLater(s: State, step: Step, t: nat)
    requires Enabled(s, step) && t < |s.txs|
    ensures t < |Apply(s, step).txs| && Later(s.txs[t], Apply(s, step).txs[t])
    ensures s.now <= Apply(s, step).now && Apply(s, step).ttl == s.ttl
  {
    hide HashTaken, Locked, Unseen;
  }

  lemma AfterSnoc(s: State, run: seq<Step>)
    requires run != [] && After(s, run).Some?
    ensures
      var pre, last := After(s, run[..|run| - 1]), run[|run| - 1];
      pre.Some? && Enabled(pre.value, last) && After(s, run) == Some(Apply(pre.value, last))
  {}

  lemma Unmoved(s: State, t: nat)
    requires t < |s.txs|
    ensures Later(s.txs[t], s.txs[t])
  {}

  lemma {:induction false} RunLater(s: State, run: seq<Step>, n: nat, t: nat)
    requires n <= |run| && After(s, run).Some?
    ensures After(s, run[..n]).Some?
    ensures
      var pre, post := After(s, run[..n]).value, After(s, run).value;
      && pre.now <= post.now && pre.ttl == post.ttl
      && (t < |pre.txs| ==> t < |post.txs| && Later(pre.txs[t], post.txs[t]))
  {
    hide After, Apply, Enabled, Later;
    if n == |run| {
      assert run[..n] == run;
      if t < |After(s, run).value.txs| {
        Unmoved(After(s, run).value, t);
      }
    } else {
      var before := run[..|run| - 1];
      AfterSnoc(s, run);
      RunLater(s, before, n, t);
      assert before[..n] == run[..n];
      LastStep(After(s, run[..n]).value, After(s, before).value, run[|run| - 1], t);
    }
  }

  lemma LastStep(pre: State, mid: State, step: Step, t: nat)
    requires Enabled(mid, step) && pre.now <= mid.now && pre.ttl == mid.ttl
    requires t < |pre.txs| ==> t < |mid.txs| && Later(pre.txs[t], mid.txs[t])
    ensures
      var post := Apply(mid, step);
      && pre.now <= post.now && pre.ttl == post.ttl
      && (t < |pre.txs| ==> t < |post.txs| && Later(pre.txs[t], post.txs[t]))
  {
    hide Apply, Enabled;
    if t < |pre.txs| {
      StepLater(mid, step, t);
    } else {
      ClockAlone(mid, step);
    }
  }

  lemma ClockAlone(s: State, step: Step)
    requires Enabled(s, step)
    ensures s.now <= Apply(s, step).now && Apply(s, step).ttl == s.ttl
  {}

  /** What a step has left in its transaction, seen from the end of the run. */
  ghost predicate Recorded(pre: State, step: Step, post: State) {
    match step
    case Begin(call) =>
      |pre.txs| < |post.txs| && post.txs[|pre.txs|].call == call && post.txs[|pre.txs|].start == pre.now
    case Fetch(t, id) =>
      t < |post.txs| && post.txs[t].target == id && id in pre.table && post.txs[t].seen == pre.table[id]
    case Miss(t) => t < |post.txs| && post.txs[t].phase == Refused && post.txs[t].checkedAt == pre.now
    case Check(t) => t < |post.txs| && post.txs[t].checkedAt == pre.now
    case Insert(t, id, hash) =>
      && t < |post.txs| && post.txs[t].newId == Some(id) && post.txs[t].issuedAt == pre.now
      && post.txs[t].newRow == Row(
           if post.txs[t].call.Refresh? then post.txs[t].seen.user else post.txs[t].call.user,
           hash, pre.now + post.ttl, None, None, None)
    case _ => true
  }

  /** The transaction a step works on. */
  function Worker(s: State, step: Step): nat {
    match step
    case Begin(_) => |s.txs|
    case Fetch(t, _) => t
    case Miss(t) => t
    case Check(t) => t
    case Insert(t, _, _) => t
    case _ => 0
  }

  /** A step leaves its record at once, and no later step changes it. */
  lemma RecordStays(s: State, step: Step, post: State)
    requires Enabled(s, step) && post.ttl == s.ttl
    requires var t, next := Worker(s, step), Apply(s, step);
             t < |next.txs| ==> t < |post.txs| && Later(next.txs[t], post.txs[t])
    ensures Recorded(s, step, post)
  {
    hide HashTaken, Locked, Unseen;
  }

  /** Every clock reading, row and identifier a transaction ends with is the one its own step took: the start that is
      written to used_at when it began, the expiry check and the refusal when they were made, the expiry of the
      replacement from the clock at its insertion, for the user of the row that was read. */
  lemma ReadingsAreReal(s: State, run: seq<Step>, n: nat)
    requires n < |run| && After(s, run).Some?
    ensures After(s, run[..n]).Some? && Enabled(After(s, run[..n]).value, run[n])
    ensures Recorded(After(s, run[..n]).value, run[n], After(s, run).value)
    ensures After(s, run[..n]).value.now <= After(s, run).value.now
  {
    hide After, Apply, Enabled, Later, Recorded;
    RunLater(s, run, n, 0);
    var pre := After(s, run[..n]).value;
    RunLater(s, run, n + 1, Worker(pre, run[n]));
    assert run[..n + 1][..n] == run[..n];
    AfterSnoc(s, run[..n + 1]);
    RecordStays(pre, run[n], After(s, run).value);
  }
}
