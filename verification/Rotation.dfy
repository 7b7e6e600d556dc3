/** Refresh-token rotation as interleaved database transactions at READ COMMITTED.

    Every transaction sees the committed table plus its own writes. The replacement row a
    refresh has inserted and the new version of the row it is rotating stay in the
    transaction until it commits; the guarded UPDATE locks its row, and an UPDATE that had
    to wait looks at the row again when the lock is free. */
module Rotation {
  import opened Wrappers
  import opened Tokens

  /** Refresh presents a token hash; Root stands for Register, Login and FinishWebAuthnLogin,
      which insert a token without consuming one. */
  datatype Call = Refresh(presented: string) | Root(user: Id)

  datatype Phase = Begun | Fetched | Checked | Inserted | Waiting | Updated | Audited | Committed | Refused | Failed

  /** One transaction and the local variables of the call that runs it. */
  datatype Tx = Tx(
    call: Call,
    phase: Phase,
    start: int,        // now() inside the transaction
    target: Id,        // the session row that was read
    seen: Row,         // its version at that time
    checkedAt: int,    // the clock reading the expiry check or the refusal used
    newId: Option<Id>, // the id of the inserted row
    newRow: Row,       // the inserted row
    issuedAt: int,     // the clock reading its expiry is counted from
    pending: Row)      // the uncommitted version of the target row

  datatype State = State(ttl: nat, table: Table, txs: seq<Tx>, now: int, log: seq<Event>)

  datatype Step =
    | Begin(call: Call)
    | Fetch(t: nat, id: Id)
    | Miss(t: nat)
    | Check(t: nat)
    | Insert(t: nat, id: Id, hash: string)
    | Update(t: nat)
    | Wake(t: nat)
    | Audit(t: nat)
    | Commit(t: nat)
    | Fail(t: nat)
    | Revoke(id: Id)
    | Tick(d: nat)

  const NO_ROW := NewRow(0, "", 0)

  function Opened(call: Call, now: int): Tx {
    Tx(call, Begun, now, 0, NO_ROW, now, None, NO_ROW, now, NO_ROW)
  }

  predicate Over(tx: Tx) {
    tx.phase in {Committed, Refused, Failed}
  }

  /** The transaction has passed its guarded UPDATE and holds the lock of that row. */
  predicate Holds(tx: Tx, id: Id) {
    tx.call.Refresh? && tx.phase in {Updated, Audited} && tx.target == id
  }

  predicate Locked(s: State, id: Id) {
    exists i :: 0 <= i < |s.txs| && Holds(s.txs[i], id)
  }

  /** Random identifiers and token hashes never repeat. */
  predicate Unseen(s: State, id: Id, hash: string) {
    && id !in s.table
    && !HashTaken(s.table, hash)
    && (forall i :: 0 <= i < |s.txs| && s.txs[i].newId.Some? ==>
        s.txs[i].newId.value != id && s.txs[i].newRow.hash != hash)
  }

  predicate Active(s: State, t: nat) {
    t < |s.txs| && !Over(s.txs[t])
  }

  predicate Enabled(s: State, step: Step) {
    match step
    case Begin(_) => true
    case Fetch(t, id) =>
      && Active(s, t) && s.txs[t].phase == Begun && s.txs[t].call.Refresh?
      && id in s.table && s.table[id].hash == s.txs[t].call.presented
    case Miss(t) =>
      && Active(s, t) && s.txs[t].phase == Begun && s.txs[t].call.Refresh?
      && !HashTaken(s.table, s.txs[t].call.presented)
    case Check(t) => Active(s, t) && s.txs[t].phase == Fetched && s.txs[t].call.Refresh?
    case Insert(t, id, hash) =>
      && Active(s, t) && s.txs[t].phase == (if s.txs[t].call.Refresh? then Checked else Begun)
      && Unseen(s, id, hash)
    case Update(t) =>
      && Active(s, t) && s.txs[t].phase == Inserted && s.txs[t].call.Refresh? && s.txs[t].newId.Some?
      && s.txs[t].target in s.table
    case Wake(t) =>
      && Active(s, t) && s.txs[t].phase == Waiting && s.txs[t].call.Refresh? && s.txs[t].newId.Some?
      && s.txs[t].target in s.table && !Locked(s, s.txs[t].target)
    case Audit(t) => Active(s, t) && s.txs[t].phase == (if s.txs[t].call.Refresh? then Updated else Inserted)
    case Commit(t) => Active(s, t) && s.txs[t].phase == Audited && s.txs[t].newId.Some?
    case Fail(t) => Active(s, t)
    case Revoke(id) => id in s.table && s.table[id].revokedAt.None? && !Locked(s, id)
    case Tick(_) => true
  }

  function Owner(tx: Tx): Id {
    if tx.call.Refresh? then tx.seen.user else tx.call.user
  }

  function Set(s: State, t: nat, tx: Tx): State
    requires t < |s.txs|
  {
    s.(txs := s.txs[t := tx])
  }

  /** The call answers, on this clock reading, that the refresh token is invalid; its deferred rollback drops
      whatever it had written. */
  function Deny(s: State, t: nat, clock: int): State
    requires t < |s.txs| && s.txs[t].call.Refresh?
  {
    Set(s, t, s.txs[t].(phase := Refused, checkedAt := clock)).(
      log := s.log + [Denied(t, s.txs[t].call.presented, clock)])
  }

  /** The guarded UPDATE on a row nobody holds: no row matches, or the row is claimed. */
  function Claim(s: State, t: nat): State
    requires t < |s.txs| && s.txs[t].call.Refresh? && s.txs[t].target in s.table && s.txs[t].newId.Some?
  {
    var tx := s.txs[t];
    if !Unclaimed(s.table[tx.target]) then Deny(s, t, tx.checkedAt)
    else Set(s, t, tx.(phase := Updated, pending := Claimed(s.table[tx.target], tx.start, tx.newId.value)))
  }

  /** Committed rows become visible together with the event the commit stands for. */
  function Publish(s: State, t: nat): State
    requires t < |s.txs| && s.txs[t].newId.Some?
  {
    var tx := s.txs[t];
    var id := tx.newId.value;
    var rows := s.table[id := tx.newRow];
    Set(s, t, tx.(phase := Committed)).(
      table := if tx.call.Refresh? then rows[tx.target := tx.pending] else rows,
      log := s.log + [if tx.call.Refresh?
                      then Rotated(t, tx.target, tx.call.presented, tx.checkedAt, tx.start, id,
                                   tx.newRow.hash, tx.issuedAt)
                      else Issued(t, id, tx.call.user, tx.newRow.hash, tx.issuedAt)])
  }

  function Apply(s: State, step: Step): State
    requires Enabled(s, step)
  {
    match step
    case Begin(call) => s.(txs := s.txs + [Opened(call, s.now)])
    case Fetch(t, id) => Set(s, t, s.txs[t].(phase := Fetched, target := id, seen := s.table[id]))
    case Miss(t) => Deny(s, t, s.now)
    case Check(t) =>
      if Live(s.txs[t].seen, s.now) then Set(s, t, s.txs[t].(phase := Checked, checkedAt := s.now))
      else Deny(s, t, s.now)
    case Insert(t, id, hash) =>
      Set(s, t, s.txs[t].(phase := Inserted, newId := Some(id), issuedAt := s.now,
                          newRow := NewRow(Owner(s.txs[t]), hash, s.now + s.ttl)))
    case Update(t) =>
      if Unclaimed(s.table[s.txs[t].target]) && Locked(s, s.txs[t].target)
      then Set(s, t, s.txs[t].(phase := Waiting))
      else Claim(s, t)
    case Wake(t) => Claim(s, t)
    case Audit(t) => Set(s, t, s.txs[t].(phase := Audited))
    case Commit(t) => Publish(s, t)
    case Fail(t) => Set(s, t, s.txs[t].(phase := Failed))
    case Revoke(id) =>
      s.(table := s.table[id := s.table[id].(revokedAt := Some(s.now))], log := s.log + [Revoked(id, s.now)])
    case Tick(d) => s.(now := s.now + d)
  }

  function Start(ttl: nat, now: int): State {
    State(ttl, map[], [], now, [])
  }

  /** The state after a run, or None when some step of it is not enabled. */
  function After(s: State, run: seq<Step>): Option<State> {
    if run == [] then Some(s)
    else
      match After(s, run[..|run| - 1])
      case None => None
      case Some(pre) => if Enabled(pre, run[|run| - 1]) then Some(Apply(pre, run[|run| - 1])) else None
  }

  /** Some run, of any number of transactions under any clock, ends in this state. */
  ghost predicate Reachable(s: State) {
    exists now, run :: After(Start(s.ttl, now), run) == Some(s)
  }
}
