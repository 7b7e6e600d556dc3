/** The repository: committed tables, at most one open transaction, and round trips that can
    fail at any time. */
module Database {
  import opened Wrappers
  import opened Tables

  /** What one statement answers: a constraint violation or an empty result is Rejected, a
      failure of the database itself is Fault. */
  datatype Answer = Done | Rejected | Fault

  class Db {
    const faults: nat -> bool   // the round trips that fail
    var calls: nat              // round trips made so far
    var failures: nat           // how many of them failed
    var committed: Tables
    var pending: Tables         // the tables as the open transaction sees them
    var open: bool

    constructor (faults: nat -> bool)
      ensures this.faults == faults && calls == failures == 0 && !open && committed == EMPTY
    {
      this.faults := faults;
      calls, failures := 0, 0;
      committed, pending, open := EMPTY, EMPTY, false;
    }

    /** What a statement sends its reads to: the transaction's own view, or the committed tables. */
    function View(): Tables
      reads this`open, this`pending, this`committed
    {
      if open then pending else committed
    }

    /** One round trip. */
    method Query() returns (ok: bool)
      modifies this`calls, this`failures
      ensures ok == !faults(old(calls))
      ensures calls == old(calls) + 1 && failures == old(failures) + (if ok then 0 else 1)
    {
      ok := !faults(calls);
      calls := calls + 1;
      if !ok {
        failures := failures + 1;
      }
    }

    method Begin() returns (ok: bool)
      requires !open
      modifies this`calls, this`failures, this`pending, this`open
      ensures ok == !faults(old(calls))
      ensures calls == old(calls) + 1 && failures == old(failures) + (if ok then 0 else 1)
      ensures open == ok && (ok ==> pending == committed)
    {
      ok := Query();
      if ok {
        open, pending := true, committed;
      }
    }

    /** A commit that fails is not applied. */
    method Commit() returns (ok: bool)
      requires open
      modifies this
      ensures ok == !faults(old(calls))
      ensures calls == old(calls) + 1 && failures == old(failures) + (if ok then 0 else 1)
      ensures !open && committed == (if ok then old(pending) else old(committed))
    {
      ok := Query();
      if ok {
        committed := pending;
      }
      open := false;
    }

    /** The deferred rollback: drops an open transaction, and after a commit there is nothing left
        to undo. Its own errors are ignored. */
    method Rollback()
      modifies this`open
      ensures !open
    {
      open := false;
    }

    /** Runs a statement whose effect on the current view is `next`. */
    method Execute(next: Option<Tables>) returns (answer: Answer)
      modifies this
      ensures answer == (if faults(old(calls)) then Fault else if next.None? then Rejected else Done)
      ensures calls == old(calls) + 1 && failures == old(failures) + (if answer == Fault then 1 else 0)
      ensures open == old(open)
      ensures answer == Done && open ==> pending == next.value && committed == old(committed)
      ensures answer == Done && !open ==> committed == next.value && pending == old(pending)
      ensures answer != Done ==> pending == old(pending) && committed == old(committed)
    {
      var ok := Query();
      if !ok {
        return Fault;
      }
      if next.None? {
        return Rejected;
      }
      if open {
        pending := next.value;
      } else {
        committed := next.value;
      }
      return Done;
    }
  }
}
