/** The refresh-token table and what one refresh, run alone, does to it. */
module Tokens {
  import opened Wrappers

  type Id = nat

  /** A row of auth_refresh_tokens; created_at is display only. */
  datatype Row = Row(
    user: Id,
    hash: string,
    expires: int,
    usedAt: Option<int>,
    revokedAt: Option<int>,
    replacedBy: Option<Id>)

  type Table = map<Id, Row>

  /** A newly inserted row: every nullable column is NULL. */
  function NewRow(user: Id, hash: string, expires: int): Row {
    Row(user, hash, expires, None, None, None)
  }

  /** The WHERE clause of the guarded UPDATE. */
  predicate Unclaimed(row: Row) {
    row.usedAt.None? && row.revokedAt.None?
  }

  /** The service's own check of a row it has read, at clock reading `clock`. */
  predicate Live(row: Row, clock: int) {
    Unclaimed(row) && clock <= row.expires
  }

  /** The row version the guarded UPDATE writes. */
  function Claimed(row: Row, at: int, next: Id): Row {
    row.(usedAt := Some(at), replacedBy := Some(next))
  }

  predicate HashTaken(t: Table, hash: string) {
    exists id :: id in t && t[id].hash == hash
  }

  /** Some row with this hash would be accepted at this clock reading. */
  predicate Acceptable(t: Table, hash: string, clock: int) {
    exists id :: id in t && t[id].hash == hash && Live(t[id], clock)
  }

  /** The answer to one call, in the order in which the calls took effect. */
  datatype Event =
    | Issued(tx: nat, id: Id, user: Id, hash: string, issuedAt: int)
    | Rotated(tx: nat, id: Id, hash: string, checkedAt: int, start: int, newId: Id, newHash: string, issuedAt: int)
    | Denied(tx: nat, hash: string, clock: int)
    | Revoked(id: Id, at: int)

  /** The atomic reading of one event: the table after it, or None when a service that runs
      its calls one at a time would not have given that answer. */
  function Serially(t: Table, ttl: int, e: Event): Option<Table> {
    match e
    case Issued(_, id, user, hash, issuedAt) =>
      if id in t || HashTaken(t, hash) then None
      else Some(t[id := NewRow(user, hash, issuedAt + ttl)])
    case Rotated(_, id, hash, checkedAt, start, newId, newHash, issuedAt) =>
      if id !in t || t[id].hash != hash || !Live(t[id], checkedAt) || newId in t || HashTaken(t, newHash) then None
      else Some(t[newId := NewRow(t[id].user, newHash, issuedAt + ttl)][id := Claimed(t[id], start, newId)])
    case Denied(_, hash, clock) =>
      if Acceptable(t, hash, clock) then None else Some(t)
    case Revoked(id, at) =>
      if id !in t || t[id].revokedAt.Some? then None
      else Some(t[id := t[id].(revokedAt := Some(at))])
  }

  /** Running the events one at a time from the empty table. */
  function Replay(ttl: int, log: seq<Event>): Option<Table> {
    if log == [] then Some(map[])
    else
      match Replay(ttl, log[..|log| - 1])
      case None => None
      case Some(t) => Serially(t, ttl, log[|log| - 1])
  }

  lemma {:induction false} ReplayAppend(ttl: int, log: seq<Event>, e: Event)
    ensures Replay(ttl, log + [e]) == match Replay(ttl, log) case None => None case Some(t) => Serially(t, ttl, e)
  {
    assert (log + [e])[..|log|] == log;
  }
}
