/**
 How long a lease lasts: recovery of expired leases at any time text, and runs of queue calls in which the
 lease is left to its worker.
 */
module OutboxLeases {
  import opened Wrappers
  import opened RoutePlanner
  import opened Outbox
  import opened OutboxCalls
  import Timestamps

  /** What recovery at `at` makes of a row that was ready when it was leased until `until`. */
  predicate AfterRecovery(before: Row, after: Row, worker: string, until: string, now: string, at: string, max: nat)
  {
    if !Timestamps.Less(until, at) then
      after == before.(status := Leased, hold := Hold(Some(worker), Some(until)), updated := now)
    else if before.retries + 1 < max then
      after == before.(status := Queued, hold := Hold(None, None), retries := before.retries + 1, updated := at)
    else
      after == before.(status := Dead, hold := Hold(Some(worker), Some(until)), cause := Some(RetryExhausted),
                       updated := at)
  }

  /** What recovery at `at` makes of any row: exactly rows in flight whose end has passed are queued again
      without owner, or die with their owner kept. */
  lemma RecoveryOfRow(t: Table, at: string, max: nat, id: nat)
    requires id in t
    ensures var before, after := t[id], Recovered(t, at, max)[id];
            if (before.status == Leased || before.status == Sending || before.status == SentOk)
                && before.hold.until.Some? && Timestamps.Less(before.hold.until.value, at) then
              if before.retries + 1 < max then
                after == before.(status := Queued, hold := Hold(None, None), retries := before.retries + 1,
                                 updated := at)
              else after == before.(status := Dead, cause := Some(RetryExhausted), updated := at)
            else after == before
  {
  }

  /** Leasing `ids` and then recovering: the leased rows as above, the others as if nothing was leased. */
  predicate AfterBoth(t: Table, ids: seq<nat>, worker: string, until: string, now: string, at: string, max: nat,
                      id: nat)
    requires id in t
  {
    var n := Recovered(LeaseAll(t, ids, worker, until, now), at, max);
    if id in ids then AfterRecovery(t[id], n[id], worker, until, now, at, max)
    else n[id] == Recovered(t, at, max)[id]
  }

  /** A lease ends exactly when the time text has passed its end: before that, recovery leaves the row to its
      worker; after it, the row is queued again, or dies if this was its last attempt. */
  lemma LeaseLasts(t: Table, ids: seq<nat>, worker: string, until: string, now: string, at: string, max: nat, id: nat)
    requires id in t
    ensures AfterBoth(t, ids, worker, until, now, at, max, id)
  {
  }

  /** The rows queued again by a recovery at `at` after `ids` were leased until `until`. */
  function RequeuedAfterLease(t: Table, ids: seq<nat>, until: string, at: string, max: nat): set<nat>
  {
    set id | id in t && if id in ids then Timestamps.Less(until, at) && t[id].retries + 1 < max
                        else Requeues(t[id], at, max)
  }

  lemma RequeuedAre(t: Table, ids: seq<nat>, worker: string, until: string, now: string, at: string, max: nat)
    ensures RequeuedIds(LeaseAll(t, ids, worker, until, now), at, max) == RequeuedAfterLease(t, ids, until, at, max)
  {
  }

  /** A batch is leased, and expired leases are recovered at `at`. */
  method LeaseThenRecover(q: Queue, worker: string, limit: int, selected: seq<nat>, now: string, until: string,
                          at: string)
    returns (recovered: nat)
    requires q.Valid() && IsBatch(q.rows, if limit <= 0 then 1 else limit, selected)
    modifies q`rows
    ensures q.Valid() && q.rows.Keys == old(q.rows.Keys)
    ensures forall id :: id in old(q.rows) && id in selected ==>
              AfterRecovery(old(q.rows)[id], q.rows[id], worker, until, now, at, q.maxRetry)
    ensures forall id :: id in old(q.rows) && id !in selected ==>
              q.rows[id] == Recovered(old(q.rows), at, q.maxRetry)[id]
    ensures recovered == |RequeuedAfterLease(old(q.rows), selected, until, at, q.maxRetry)|
  {
    RequeuedAre(q.rows, selected, worker, until, now, at, q.maxRetry);
    forall id | id in q.rows ensures AfterBoth(q.rows, selected, worker, until, now, at, q.maxRetry, id) {
      LeaseLasts(q.rows, selected, worker, until, now, at, q.maxRetry, id);
    }
    var leases := q.LeaseOutbound(worker, limit, selected, now, until);
    recovered := q.RecoverExpiredLeases(at);
  }

  // ---------------------------------------------------------------------------------------------
  // Runs

  /** A call that is not the worker's, and recovers leases at most until the end of this one. */
  predicate LeavesLease(c: Call, worker: string, until: string)
  {
    match c
    case Lease(limit, ids, w, ends, now) => true
    case Update(id, w, status, cause, now) => w != worker
    case Retry(id, w, why, now) => w != worker
    case ExhaustExpired(at) => !Timestamps.Less(until, at)
    case RequeueExpired(at) => !Timestamps.Less(until, at)
    case _ => true
  }

  lemma LeftToItsWorker(l: Ledger, c: Call, max: nat, id: nat, worker: string, until: string)
    requires Inv(l, max) && Possible(l, c) && LeavesLease(c, worker, until)
    requires id in l.rows && l.rows[id].status == Leased && l.rows[id].hold == Hold(Some(worker), Some(until))
    ensures id in After(l, c, max).rows && After(l, c, max).rows[id] == l.rows[id]
    ensures LeaseCount(After(l, c, max), id) == LeaseCount(l, id)
  {
    assert RowOk(l.rows[id], LeaseCount(l, id), max);
    assert id !in LeasableIds(l.rows);
    if c.Lease? {
      GrantsAddUp(l.grants, c.ids, c.worker, id);
    }
  }

  lemma {:induction false} StaysWithWorker(l: Ledger, run: seq<Call>, max: nat, id: nat, worker: string, until: string)
    requires 0 < max && Inv(l, max) && PossibleRun(l, run, max)
    requires forall k :: 0 <= k < |run| ==> LeavesLease(run[k], worker, until)
    requires id in l.rows && l.rows[id].status == Leased && l.rows[id].hold == Hold(Some(worker), Some(until))
    ensures id in AfterRun(l, run, max).rows && AfterRun(l, run, max).rows[id] == l.rows[id]
    ensures LeaseCount(AfterRun(l, run, max), id) == LeaseCount(l, id)
    decreases |run|
  {
    if run == [] {
    } else {
      LeftToItsWorker(l, run[0], max, id, worker, until);
      CallKeeps(l, run[0], max);
      StaysWithWorker(After(l, run[0], max), run[1..], max, id, worker, until);
    }
  }

  /** Until its end a lease is exclusive: from the moment a row is leased, no run of calls by others, recovery
      up to that end included, changes the row or leases it again. */
  lemma LeaseIsExclusive(l: Ledger, limit: nat, ids: seq<nat>, worker: string, until: string, now: string,
                         run: seq<Call>, max: nat, id: nat)
    requires 0 < max && Inv(l, max) && IsBatch(l.rows, limit, ids) && id in ids
    requires PossibleRun(After(l, Call.Lease(limit, ids, worker, until, now), max), run, max)
    requires forall k :: 0 <= k < |run| ==> LeavesLease(run[k], worker, until)
    ensures id in l.rows
    ensures var leased := After(l, Call.Lease(limit, ids, worker, until, now), max);
            var n := AfterRun(leased, run, max);
            && id in n.rows && LeaseCount(n, id) == LeaseCount(l, id) + 1
            && n.rows[id] == l.rows[id].(status := Leased, hold := Hold(Some(worker), Some(until)), updated := now)
  {
    var c := Call.Lease(limit, ids, worker, until, now);
    assert id in LeasableIds(l.rows);
    LeaseChangesRow(l, c, max, id);
    LeaseKeeps(l, c, max);
    StaysWithWorker(After(l, c, max), run, max, id, worker, until);
  }
}
