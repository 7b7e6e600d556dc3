/** The replaced_by relation: single-user chains, conservation of usable tokens, expiry. */
module RotationChains {
  import opened Wrappers
  import opened Tokens
  import opened Rotation
  import opened RotationSafety

  type Chain = seq<Id>

  function Extended(cs: seq<Chain>, id: Id, newId: Id): seq<Chain> {
    seq(|cs|, i requires 0 <= i < |cs| =>
      if cs[i] != [] && cs[i][|cs[i]| - 1] == id then cs[i] + [newId] else cs[i])
  }

  /** The chains a history builds: a login starts one, a rotation lengthens one. */
  function Chains(log: seq<Event>): seq<Chain> {
    if log == [] then []
    else
      var cs := Chains(log[..|log| - 1]);
      match log[|log| - 1]
      case Issued(_, id, _, _, _) => cs + [[id]]
      case Rotated(_, id, _, _, _, newId, _, _) => Extended(cs, id, newId)
      case _ => cs
  }

  predicate At(cs: seq<Chain>, c: int, k: int, id: Id) {
    0 <= c < |cs| && 0 <= k < |cs[c]| && cs[c][k] == id
  }

  /** A row is linked to its successor exactly when it has one, and is used exactly then. */
  predicate Linked(t: Table, chain: Chain, k: nat)
    requires k < |chain|
  {
    && chain[k] in t && chain[0] in t
    && t[chain[k]].user == t[chain[0]].user
    && t[chain[k]].replacedBy == (if k + 1 < |chain| then Some(chain[k + 1]) else None)
    && (t[chain[k]].usedAt.Some? <==> k + 1 < |chain|)
  }

  /** The chains split the table: every token is at exactly one place of one chain. */
  ghost predicate Partition(t: Table, cs: seq<Chain>) {
    && (forall c :: 0 <= c < |cs| ==> cs[c] != [])
    && (forall c, k :: 0 <= c < |cs| && 0 <= k < |cs[c]| ==> Linked(t, cs[c], k))
    && (forall id :: id in t ==> exists c, k :: At(cs, c, k, id))
    && (forall c, k, d, l, id :: At(cs, c, k, id) && At(cs, d, l, id) ==> c == d && k == l)
  }

  lemma IssueKeepsPartition(t: Table, cs: seq<Chain>, id: Id, row: Row)
    requires Partition(t, cs) && id !in t && row == NewRow(row.user, row.hash, row.expires)
    ensures Partition(t[id := row], cs + [[id]])
  {
    var t', cs' := t[id := row], cs + [[id]];
    forall c, k | 0 <= c < |cs'| && 0 <= k < |cs'[c]| ensures Linked(t', cs'[c], k) {
      if c < |cs| {
        assert Linked(t, cs[c], k) && Linked(t, cs[c], 0);
        if k + 1 < |cs[c]| {
          assert Linked(t, cs[c], k + 1);
        }
      }
    }
    forall x | x in t' ensures exists c, k :: At(cs', c, k, x) {
      if x == id {
        assert At(cs', |cs|, 0, x);
      } else {
        var c, k :| At(cs, c, k, x);
        assert At(cs', c, k, x);
      }
    }
    forall c, k, d, l, x | At(cs', c, k, x) && At(cs', d, l, x) ensures c == d && k == l {
      if c < |cs| {
        assert Linked(t, cs[c], k);
        assert At(cs, c, k, x);
      }
      if d < |cs| {
        assert Linked(t, cs[d], l);
        assert At(cs, d, l, x);
      }
    }
  }

  /** An unclaimed token is the last of its chain. */
  lemma UnclaimedIsLast(t: Table, cs: seq<Chain>, id: Id) returns (c: nat)
    requires Partition(t, cs) && id in t && t[id].usedAt.None?
    ensures c < |cs| && cs[c] != [] && cs[c][|cs[c]| - 1] == id
    ensures forall d :: 0 <= d < |cs| && d != c ==> cs[d][|cs[d]| - 1] != id
  {
    var d, k :| At(cs, d, k, id);
    c := d;
    assert Linked(t, cs[c], k);
    forall d | 0 <= d < |cs| && d != c ensures cs[d][|cs[d]| - 1] != id {
      if cs[d][|cs[d]| - 1] == id {
        assert At(cs, d, |cs[d]| - 1, id);
      }
    }
  }

  lemma RotateKeepsLinks(t: Table, cs: seq<Chain>, id: Id, at: int, newId: Id, row: Row, c: nat, k: nat)
    requires Partition(t, cs) && id in t && t[id].usedAt.None? && newId !in t
    requires row == NewRow(t[id].user, row.hash, row.expires)
    requires c < |cs| && k < |Extended(cs, id, newId)[c]|
    ensures Linked(t[newId := row][id := Claimed(t[id], at, newId)], Extended(cs, id, newId)[c], k)
  {
    assert Linked(t, cs[c], 0);
    if k < |cs[c]| {
      assert Linked(t, cs[c], k);
      var e := UnclaimedIsLast(t, cs, id);
      assert At(cs, e, |cs[e]| - 1, id);
      assert At(cs, c, k, cs[c][k]) && At(cs, c, 0, cs[c][0]);
    } else {
      assert Linked(t, cs[c], |cs[c]| - 1);
    }
  }

  lemma RotateKeepsPartition(t: Table, cs: seq<Chain>, id: Id, at: int, newId: Id, row: Row)
    requires Partition(t, cs) && id in t && t[id].usedAt.None? && newId !in t
    requires row == NewRow(t[id].user, row.hash, row.expires)
    ensures Partition(t[newId := row][id := Claimed(t[id], at, newId)], Extended(cs, id, newId))
  {
    var t', cs' := t[newId := row][id := Claimed(t[id], at, newId)], Extended(cs, id, newId);
    var e := UnclaimedIsLast(t, cs, id);
    forall c, k | 0 <= c < |cs'| && 0 <= k < |cs'[c]| ensures Linked(t', cs'[c], k) {
      RotateKeepsLinks(t, cs, id, at, newId, row, c, k);
    }
    forall x | x in t' ensures exists c, k :: At(cs', c, k, x) {
      if x == newId {
        assert At(cs', e, |cs[e]|, x);
      } else {
        var c, k :| At(cs, c, k, x);
        assert At(cs', c, k, x);
      }
    }
    forall c, k, d, l, x | At(cs', c, k, x) && At(cs', d, l, x) ensures c == d && k == l {
      if k < |cs[c]| {
        assert Linked(t, cs[c], k);
        assert At(cs, c, k, x);
      }
      if l < |cs[d]| {
        assert Linked(t, cs[d], l);
        assert At(cs, d, l, x);
      }
    }
  }

  lemma RevokeKeepsPartition(t: Table, cs: seq<Chain>, id: Id, at: int)
    requires Partition(t, cs) && id in t
    ensures Partition(t[id := t[id].(revokedAt := Some(at))], cs)
  {
    var t' := t[id := t[id].(revokedAt := Some(at))];
    forall c, k | 0 <= c < |cs| && 0 <= k < |cs[c]| ensures Linked(t', cs[c], k) {
      assert Linked(t, cs[c], k);
    }
  }

  lemma NoChains()
    ensures Partition(map[], [])
  {}

  /** The chains of any serial history split its table. */
  lemma {:induction false} SerialChains(ttl: int, log: seq<Event>)
    requires Replay(ttl, log).Some?
    ensures Partition(Replay(ttl, log).value, Chains(log))
  {
    hide Partition, HashTaken, Extended;
    if log == [] {
      NoChains();
    } else {
      var before := log[..|log| - 1];
      SerialChains(ttl, before);
      var t, cs := Replay(ttl, before).value, Chains(before);
      match log[|log| - 1]
      case Issued(_, id, user, hash, issuedAt) =>
        IssueKeepsPartition(t, cs, id, NewRow(user, hash, issuedAt + ttl));
      case Rotated(_, id, _, _, start, newId, newHash, issuedAt) =>
        RotateKeepsPartition(t, cs, id, start, newId, NewRow(t[id].user, newHash, issuedAt + ttl));
      case Denied(_, _, _) =>
      case Revoked(id, at) => RevokeKeepsPartition(t, cs, id, at);
    }
  }

  /** In every reachable state of the interleaved protocol replaced_by splits the table into
      finite single-user chains, used_at set exactly where replaced_by is, one unused token at
      the end of each. */
  lemma ChainStructure(s: State)
    requires Reachable(s)
    ensures Partition(s.table, Chains(s.log))
  {
    ReachableInv(s);
    SerialChains(s.ttl, s.log);
  }

  /** Every token is the first of a chain or the replacement of exactly one used token. */
  lemma RootOrReplacement(t: Table, cs: seq<Chain>, id: Id)
    requires Partition(t, cs) && id in t
    ensures (exists c :: At(cs, c, 0, id)) <==> !exists a :: a in t && t[a].replacedBy == Some(id)
    ensures forall a, b :: a in t && b in t && t[a].replacedBy == Some(id) && t[b].replacedBy == Some(id) ==> a == b
  {
    forall a | a in t && t[a].replacedBy == Some(id)
      ensures exists c, k :: At(cs, c, k, a) && At(cs, c, k + 1, id)
    {
      var c, k :| At(cs, c, k, a);
      assert Linked(t, cs[c], k);
      assert At(cs, c, k, a) && At(cs, c, k + 1, id);
    }
    var c, k :| At(cs, c, k, id);
    if k > 0 {
      assert Linked(t, cs[c], k - 1);
      assert t[cs[c][k - 1]].replacedBy == Some(id);
    }
    forall a, b | a in t && b in t && t[a].replacedBy == Some(id) && t[b].replacedBy == Some(id)
      ensures a == b
    {
      var ca, ka :| At(cs, ca, ka, a) && At(cs, ca, ka + 1, id);
      var cb, kb :| At(cs, cb, kb, b) && At(cs, cb, kb + 1, id);
    }
  }

  // Conservation

  /** Chain c ends with this token. */
  predicate EndsWith(cs: seq<Chain>, c: int, id: Id) {
    0 <= c < |cs| && cs[c] != [] && cs[c][|cs[c]| - 1] == id
  }

  function Ends(cs: seq<Chain>): set<Id> {
    if cs == [] then {}
    else
      var last := cs[|cs| - 1];
      Ends(cs[..|cs| - 1]) + if last == [] then {} else {last[|last| - 1]}
  }

  lemma {:induction false} EndsAre(cs: seq<Chain>, id: Id)
    ensures id in Ends(cs) <==> exists c :: EndsWith(cs, c, id)
  {
    if cs != [] {
      var before := cs[..|cs| - 1];
      EndsAre(before, id);
      assert forall c :: 0 <= c < |before| ==> (EndsWith(cs, c, id) <==> EndsWith(before, c, id));
      if id in Ends(before) {
        var c :| EndsWith(before, c, id);
        assert EndsWith(cs, c, id);
      }
      assert EndsWith(cs, |cs| - 1, id) <==> cs[|cs| - 1] != [] && cs[|cs| - 1][|cs[|cs| - 1]| - 1] == id;
    }
  }

  lemma {:induction false} CountEnds(cs: seq<Chain>)
    requires forall c :: 0 <= c < |cs| ==> cs[c] != []
    requires forall c, d, id :: EndsWith(cs, c, id) && EndsWith(cs, d, id) ==> c == d
    ensures |Ends(cs)| == |cs|
  {
    if cs != [] {
      var before, last := cs[..|cs| - 1], cs[|cs| - 1];
      var end := last[|last| - 1];
      assert forall c, id :: EndsWith(before, c, id) ==> EndsWith(cs, c, id);
      CountEnds(before);
      EndsAre(before, end);
      assert EndsWith(cs, |cs| - 1, end);
    }
  }

  function Unused(t: Table): set<Id> {
    set id | id in t && t[id].usedAt.None?
  }

  lemma UnusedAreEnds(t: Table, cs: seq<Chain>)
    requires Partition(t, cs)
    ensures Unused(t) == Ends(cs) && |Unused(t)| == |cs|
  {
    forall c, d, id | EndsWith(cs, c, id) && EndsWith(cs, d, id) ensures c == d {
      assert At(cs, c, |cs[c]| - 1, id) && At(cs, d, |cs[d]| - 1, id);
    }
    CountEnds(cs);
    forall id ensures id in Unused(t) <==> id in Ends(cs) {
      EndsAre(cs, id);
      if id in Unused(t) {
        var c := UnclaimedIsLast(t, cs, id);
        assert EndsWith(cs, c, id);
      }
      if id in Ends(cs) {
        var c :| EndsWith(cs, c, id);
        assert Linked(t, cs[c], |cs[c]| - 1);
      }
    }
  }

  /** The number of committed Register, Login and FinishWebAuthnLogin calls. */
  function CommittedRoots(txs: seq<Tx>): nat {
    if txs == [] then 0
    else CommittedRoots(txs[..|txs| - 1]) + (if IsCommittedRoot(txs[|txs| - 1]) then 1 else 0)
  }

  predicate IsCommittedRoot(tx: Tx) {
    tx.call.Root? && tx.phase == Committed
  }

  lemma {:induction false} RootsAfterSet(txs: seq<Tx>, i: nat, tx: Tx)
    requires i < |txs| && !IsCommittedRoot(txs[i])
    ensures CommittedRoots(txs[i := tx]) == CommittedRoots(txs) + (if IsCommittedRoot(tx) then 1 else 0)
  {
    if i == |txs| - 1 {
      assert txs[i := tx][..|txs| - 1] == txs[..|txs| - 1];
    } else {
      RootsAfterSet(txs[..|txs| - 1], i, tx);
      assert txs[i := tx][..|txs| - 1] == txs[..|txs| - 1][i := tx];
    }
  }

  lemma ChainsAppend(log: seq<Event>, e: Event)
    ensures |Chains(log + [e])| == |Chains(log)| + (if e.Issued? then 1 else 0)
  {
    assert (log + [e])[..|log|] == log;
  }

  /** The step commits a registration or a login. */
  predicate CommitsRoot(s: State, step: Step)
    requires Enabled(s, step)
  {
    step.Commit? && s.txs[step.t].call.Root?
  }

  lemma RootsOfTxs(s: State, step: Step)
    requires Enabled(s, step)
    ensures CommittedRoots(Apply(s, step).txs) == CommittedRoots(s.txs) + if CommitsRoot(s, step) then 1 else 0
  {
    var s' := Apply(s, step);
    if step.Begin? {
      assert s'.txs[..|s.txs|] == s.txs;
    } else if !step.Revoke? && !step.Tick? {
      assert s'.txs == s.txs[step.t := s'.txs[step.t]];
      RootsAfterSet(s.txs, step.t, s'.txs[step.t]);
    }
  }

  lemma RootsOfLog(s: State, step: Step)
    requires Txs(s) && Enabled(s, step)
    ensures |Chains(Apply(s, step).log)| == |Chains(s.log)| + if CommitsRoot(s, step) then 1 else 0
  {
    hide Chains;
    var s' := Apply(s, step);
    if step.Commit? {
      assert TxOk(s, s.txs[step.t]);
    }
    if s'.log != s.log {
      assert s'.log == s.log + [s'.log[|s.log|]];
      ChainsAppend(s.log, s'.log[|s.log|]);
    }
  }

  lemma RootsStep(s: State, step: Step)
    requires Inv(s) && Enabled(s, step) && |Chains(s.log)| == CommittedRoots(s.txs)
    ensures |Chains(Apply(s, step).log)| == CommittedRoots(Apply(s, step).txs)
  {
    hide Chains, CommittedRoots, Apply;
    RootsOfTxs(s, step);
    RootsOfLog(s, step);
  }

  lemma {:induction false} RootsAlways(ttl: nat, now: int, run: seq<Step>)
    requires After(Start(ttl, now), run).Some?
    ensures
      var s := After(Start(ttl, now), run).value;
      |Chains(s.log)| == CommittedRoots(s.txs)
  {
    if run != [] {
      RootsAlways(ttl, now, run[..|run| - 1]);
      InvAlways(ttl, now, run[..|run| - 1]);
      RootsStep(After(Start(ttl, now), run[..|run| - 1]).value, run[|run| - 1]);
    }
  }

  /** Conservation: refreshing, refusing, failing and revoking never change how many unused
      tokens there are; only a committed Register, Login or FinishWebAuthnLogin adds one. */
  lemma Conservation(s: State)
    requires Reachable(s)
    ensures |Unused(s.table)| == CommittedRoots(s.txs)
  {
    ChainStructure(s);
    UnusedAreEnds(s.table, Chains(s.log));
    var now, run :| After(Start(s.ttl, now), run) == Some(s);
    RootsAlways(s.ttl, now, run);
  }

  // Expiry

  /** What the history fixes about a rotation for ever after: the link, and when both rows expire. */
  lemma {:induction false} RotationLasts(ttl: int, log: seq<Event>, k: nat)
    requires Replay(ttl, log).Some? && Timely(ttl, log) && k < |log| && log[k].Rotated?
    ensures
      var t, e := Replay(ttl, log).value, log[k];
      && e.id in t && e.newId in t && t[e.id].usedAt.Some? && t[e.id].replacedBy == Some(e.newId)
      && t[e.newId].expires == e.issuedAt + ttl
      && t[e.id].expires <= t[e.newId].expires
      && e.checkedAt <= t[e.id].expires && e.checkedAt <= e.issuedAt
  {
    if k < |log| - 1 {
      RotationLasts(ttl, log[..|log| - 1], k);
    }
  }

  /** A link of the table was made by a rotation of the history. */
  lemma {:induction false} LinkIsRotation(ttl: int, log: seq<Event>, id: Id) returns (k: nat)
    requires Replay(ttl, log).Some? && id in Replay(ttl, log).value && Replay(ttl, log).value[id].replacedBy.Some?
    ensures k < |log| && log[k].Rotated? && log[k].id == id
    ensures Replay(ttl, log).value[id].replacedBy == Some(log[k].newId)
  {
    var before, last := log[..|log| - 1], log[|log| - 1];
    if last.Rotated? && last.id == id {
      k := |log| - 1;
    } else {
      k := LinkIsRotation(ttl, before, id);
    }
  }

  /** One rotation keeps to one lifetime exactly if it issued the replacement no later than the expiry of
      the token it replaced; the replacement never expires before that token. */
  lemma OneLifetime(s: State, k: nat)
    requires Reachable(s) && k < |s.log| && s.log[k].Rotated?
    ensures
      var e := s.log[k];
      && e.id in s.table && e.newId in s.table && s.table[e.id].replacedBy == Some(e.newId)
      && s.table[e.id].expires <= s.table[e.newId].expires
      && (s.table[e.newId].expires <= s.table[e.id].expires + s.ttl <==> e.issuedAt <= s.table[e.id].expires)
  {
    ReachableInv(s);
    RotationLasts(s.ttl, s.log, k);
  }

  /** No replacement was issued more than `late` after the expiry of the token it replaced. */
  ghost predicate IssuedWithin(t: Table, log: seq<Event>, late: int) {
    forall k :: 0 <= k < |log| && log[k].Rotated? && log[k].id in t ==> log[k].issuedAt <= t[log[k].id].expires + late
  }

  /** Along the chains no token expires more than a lifetime and `late` after the one before it. */
  ghost predicate Expiries(t: Table, cs: seq<Chain>, ttl: int, late: int) {
    forall c, k :: Next(t, cs, c, k, ttl, late)
  }

  predicate Next(t: Table, cs: seq<Chain>, c: int, k: int, ttl: int, late: int) {
    0 <= c < |cs| && 0 <= k < |cs[c]| - 1 ==>
      && cs[c][k] in t && cs[c][k + 1] in t
      && t[cs[c][k]].expires <= t[cs[c][k + 1]].expires <= t[cs[c][k]].expires + ttl + late
  }

  /** A place in a chain that is not its last is a rotation of the history. */
  lemma LinkAt(s: State, c: nat, k: nat) returns (n: nat)
    requires Reachable(s) && c < |Chains(s.log)| && k + 1 < |Chains(s.log)[c]|
    ensures n < |s.log| && s.log[n].Rotated?
    ensures s.log[n].id == Chains(s.log)[c][k] && s.log[n].newId == Chains(s.log)[c][k + 1]
  {
    ReachableInv(s);
    ChainStructure(s);
    assert Linked(s.table, Chains(s.log)[c], k);
    n := LinkIsRotation(s.ttl, s.log, Chains(s.log)[c][k]);
  }

  /** A rotation of the history is a link of a chain. */
  lemma RotationAt(s: State, n: nat) returns (c: nat, k: nat)
    requires Reachable(s) && n < |s.log| && s.log[n].Rotated?
    ensures c < |Chains(s.log)| && k + 1 < |Chains(s.log)[c]|
    ensures s.log[n].id == Chains(s.log)[c][k] && s.log[n].newId == Chains(s.log)[c][k + 1]
  {
    ReachableInv(s);
    ChainStructure(s);
    RotationLasts(s.ttl, s.log, n);
    var cs := Chains(s.log);
    var d, l :| At(cs, d, l, s.log[n].id);
    assert Linked(s.table, cs[d], l);
    c, k := d, l;
  }

  /** The expiry rule in full: every link of every chain keeps to a lifetime and `late` exactly if every
      rotation issued its replacement at most `late` after the expiry of the token it replaced. With
      `late` 0 this says when one lifetime per rotation holds. */
  lemma ExpiryRule(s: State, late: int)
    requires Reachable(s)
    ensures Expiries(s.table, Chains(s.log), s.ttl, late) <==> IssuedWithin(s.table, s.log, late)
  {
    hide Chains, Reachable;
    ReachableInv(s);
    var cs := Chains(s.log);
    if IssuedWithin(s.table, s.log, late) {
      forall c, k ensures Next(s.table, cs, c, k, s.ttl, late) {
        if 0 <= c < |cs| && 0 <= k < |cs[c]| - 1 {
          var n := LinkAt(s, c, k);
          RotationLasts(s.ttl, s.log, n);
        }
      }
    }
    if Expiries(s.table, cs, s.ttl, late) {
      forall n | 0 <= n < |s.log| && s.log[n].Rotated? && s.log[n].id in s.table
        ensures s.log[n].issuedAt <= s.table[s.log[n].id].expires + late
      {
        var c, k := RotationAt(s, n);
        assert Next(s.table, cs, c, k, s.ttl, late);
        RotationLasts(s.ttl, s.log, n);
      }
    }
  }

  lemma {:induction false} ChainBound(t: Table, cs: seq<Chain>, ttl: nat, late: int, c: nat, k: nat)
    requires Partition(t, cs) && Expiries(t, cs, ttl, late) && c < |cs| && k < |cs[c]|
    ensures Linked(t, cs[c], k) && Linked(t, cs[c], 0)
    ensures t[cs[c][0]].expires <= t[cs[c][k]].expires <= t[cs[c][0]].expires + k * (ttl + late)
  {
    assert Linked(t, cs[c], k);
    if k > 0 {
      ChainBound(t, cs, ttl, late, c, k - 1);
      assert Next(t, cs, c, k - 1, ttl, late);
      assert k * (ttl + late) == (k - 1) * (ttl + late) + ttl + late;
    }
  }

  /** Expiry bound: the token k rotations after a root expires no earlier than the root and no later
      than k lifetimes after it, plus `late` for each rotation. */
  lemma ExpiryBound(s: State, late: int, c: nat, k: nat)
    requires Reachable(s) && IssuedWithin(s.table, s.log, late)
    requires c < |Chains(s.log)| && k < |Chains(s.log)[c]|
    ensures
      var chain := Chains(s.log)[c];
      && chain[0] in s.table && chain[k] in s.table
      && s.table[chain[0]].expires <= s.table[chain[k]].expires
      && s.table[chain[k]].expires <= s.table[chain[0]].expires + k * (s.ttl + late)
  {
    ChainStructure(s);
    ExpiryRule(s, late);
    ChainBound(s.table, Chains(s.log), s.ttl, late, c, k);
  }

  /** No replacement is issued more than `delay` after the clock reading of its expiry check. */
  predicate Prompt(log: seq<Event>, delay: int) {
    forall k :: 0 <= k < |log| && log[k].Rotated? ==> log[k].issuedAt <= log[k].checkedAt + delay
  }

  /** A call that takes no longer than `delay` between its two clock readings is at most that late. */
  lemma PromptIsWithin(s: State, delay: int)
    requires Reachable(s) && Prompt(s.log, delay)
    ensures IssuedWithin(s.table, s.log, delay)
  {
    ReachableInv(s);
    forall k | 0 <= k < |s.log| && s.log[k].Rotated? && s.log[k].id in s.table
      ensures s.log[k].issuedAt <= s.table[s.log[k].id].expires + delay
    {
      RotationLasts(s.ttl, s.log, k);
    }
  }
}
