/**
 The outbox under any sequence of calls, from owners that may be stale, wrong or misbehaving.
 Rows are followed together with the log of every lease ever granted.
 */
module OutboxCalls {
  import opened Wrappers
  import opened RoutePlanner
  import opened Outbox

  datatype Grant = Grant(id: nat, worker: string)

  datatype Ledger = Ledger(rows: Table, nextId: nat, grants: seq<Grant>)

  const EMPTY := Ledger(map[], 1, [])

  datatype Call =
    | Enqueue(item: Item, plan: RoutePlan)
    | Lease(limit: nat, ids: seq<nat>, worker: string, until: string, now: string)
    | Update(id: nat, worker: string, status: Status, cause: Option<Cause>, now: string)
    | Retry(id: nat, worker: string, why: Cause, now: string)
    | ExhaustExpired(now: string)
    | RequeueExpired(now: string)
    | Replan(id: nat, plan: RoutePlan, now: string)
    | Compact(cutoff: string)

  predicate Possible(l: Ledger, c: Call)
  {
    && (c.Lease? ==> IsBatch(l.rows, c.limit, c.ids))
    && (c.Update? ==> InUse(c.status))
  }

  function GrantAll(ids: seq<nat>, worker: string): seq<Grant>
  {
    seq(|ids|, i requires 0 <= i < |ids| => Grant(ids[i], worker))
  }

  /** A key that is taken keeps its row. */
  function Enqueued(l: Ledger, item: Item, plan: RoutePlan): Ledger
  {
    if KeyTaken(l.rows, item.key) then l else Ledger(l.rows[l.nextId := NewRow(item, plan)], l.nextId + 1, l.grants)
  }

  /** The ledger after a call; the rows change as the methods of the queue say. */
  function After(l: Ledger, c: Call, max: nat): Ledger
  {
    match c
    case Enqueue(item, plan) => Enqueued(l, item, plan)
    case Lease(limit, ids, worker, until, now) =>
      Ledger(LeaseAll(l.rows, ids, worker, until, now), l.nextId, l.grants + GrantAll(ids, worker))
    case Update(id, worker, status, cause, now) => l.(rows := Updated(l.rows, id, worker, status, cause, now))
    case Retry(id, worker, cause, now) => l.(rows := Retried(l.rows, id, worker, cause, now, max))
    case ExhaustExpired(now) => l.(rows := ExhaustAll(l.rows, now, max))
    case RequeueExpired(now) => l.(rows := RequeueAll(l.rows, now, max))
    case Replan(id, plan, now) => l.(rows := Replanned(l.rows, id, plan, now))
    case Compact(cutoff) => l.(rows := Compacted(l.rows, cutoff))
  }

  // ---------------------------------------------------------------------------------------------
  // Counting leases

  function GrantsOf(grants: seq<Grant>, id: nat): set<nat> { set k | 0 <= k < |grants| && grants[k].id == id }

  function LeaseCount(l: Ledger, id: nat): nat { |GrantsOf(l.grants, id)| }

  lemma GrantsAddUp(grants: seq<Grant>, ids: seq<nat>, worker: string, id: nat)
    requires Distinct(ids)
    ensures |GrantsOf(grants + GrantAll(ids, worker), id)| == |GrantsOf(grants, id)| + if id in ids then 1 else 0
  {
    var all := grants + GrantAll(ids, worker);
    forall k | 0 <= k < |all| ensures all[k] == if k < |grants| then grants[k] else Grant(ids[k - |grants|], worker) {
    }
    if id in ids {
      var i :| 0 <= i < |ids| && ids[i] == id;
      assert all[|grants| + i].id == id;
      assert GrantsOf(all, id) == GrantsOf(grants, id) + {|grants| + i};
    } else {
      assert GrantsOf(all, id) == GrantsOf(grants, id);
    }
  }

  // ---------------------------------------------------------------------------------------------
  // The invariant

  predicate RowOk(r: Row, leases: nat, max: nat)
  {
    && r.route == RouteStatusForPlan(r.plan)
    && (r.hold.owner.Some? <==> r.hold.until.Some?)
    && (r.status == Queued ==> r.hold == UNHELD && leases <= r.retries < max)
    && (r.status != Queued ==> r.route == ReadyToSend && leases <= r.retries + 1)
    && (0 < leases ==> r.route == ReadyToSend)
  }

  ghost predicate Inv(l: Ledger, max: nat)
  {
    && 0 < l.nextId
    && (forall id :: id in l.rows ==> 0 < id < l.nextId)
    && KeysUnique(l.rows)
    && (forall id :: id in l.rows ==> RowOk(l.rows[id], LeaseCount(l, id), max))
    && (forall id :: LeaseCount(l, id) <= max)
    && (forall k :: 0 <= k < |l.grants| ==> l.grants[k].id < l.nextId)
  }

  lemma UnusedIdHasNoLease(l: Ledger, max: nat)
    requires Inv(l, max)
    ensures LeaseCount(l, l.nextId) == 0
  {
    assert GrantsOf(l.grants, l.nextId) == {};
  }

  lemma ItemsKeepKeysUnique(t: Table, n: Table)
    requires KeysUnique(t) && n.Keys <= t.Keys && forall id :: id in n ==> n[id].item == t[id].item
    ensures KeysUnique(n)
  {
  }

  lemma EnqueueKeeps(l: Ledger, c: Call, max: nat)
    requires 0 < max && Inv(l, max) && c.Enqueue?
    ensures Inv(After(l, c, max), max)
  {
    UnusedIdHasNoLease(l, max);
    var n := After(l, c, max);
    forall id ensures LeaseCount(n, id) == LeaseCount(l, id) {
    }
  }

  /** A leased row has one more lease, which the bound allows: it was queued. */
  lemma LeaseChangesRow(l: Ledger, c: Call, max: nat, id: nat)
    requires Inv(l, max) && c.Lease? && AllLeasable(l.rows, c.ids)
    ensures id in c.ids ==> id in l.rows && Leasable(l.rows[id])
    ensures LeaseCount(After(l, c, max), id) == LeaseCount(l, id) + if id in c.ids then 1 else 0
    ensures LeaseCount(After(l, c, max), id) <= max
    ensures id in l.rows ==> RowOk(After(l, c, max).rows[id], LeaseCount(After(l, c, max), id), max)
  {
    GrantsAddUp(l.grants, c.ids, c.worker, id);
    if id in c.ids {
      assert id in LeasableIds(l.rows);
    }
    if id in l.rows {
      assert RowOk(l.rows[id], LeaseCount(l, id), max);
    }
  }

  lemma LeaseKeeps(l: Ledger, c: Call, max: nat)
    requires Inv(l, max) && c.Lease? && AllLeasable(l.rows, c.ids)
    ensures Inv(After(l, c, max), max)
  {
    var n := After(l, c, max);
    forall id ensures LeaseCount(n, id) <= max && (id in c.ids ==> id in l.rows)
              ensures id in n.rows ==> RowOk(n.rows[id], LeaseCount(n, id), max) {
      LeaseChangesRow(l, c, max, id);
    }
    ItemsKeepKeysUnique(l.rows, n.rows);
  }

  /** Whatever else changes a row keeps its identity, its plan once leased, and its lease bound. */
  predicate RowStep(a: Row, b: Row, max: nat)
  {
    && b.item == a.item && (b.hold == a.hold || b.hold == UNHELD)
    && (a.route == ReadyToSend ==> b.route == ReadyToSend && b.plan == a.plan)
    && b.route == RouteStatusForPlan(b.plan)
    && (b.status == Queued ==> b.hold == UNHELD && (b == a || (a.status == Queued && b.retries == a.retries)
                                                    || (a.status != Queued && b.retries == a.retries + 1 < max)))
    && (b.status != Queued ==> a.status != Queued && a.retries <= b.retries)
  }

  lemma CallChangesRow(l: Ledger, c: Call, max: nat, id: nat)
    requires Inv(l, max) && !c.Lease? && (c.Update? ==> InUse(c.status))
    requires id in l.rows && id in After(l, c, max).rows
    ensures RowStep(l.rows[id], After(l, c, max).rows[id], max)
  {
    assert RowOk(l.rows[id], LeaseCount(l, id), max);
    assert id < l.nextId;
  }

  lemma OtherCallKeeps(l: Ledger, c: Call, max: nat)
    requires Inv(l, max) && Possible(l, c) && !c.Lease? && !c.Enqueue?
    ensures Inv(After(l, c, max), max)
  {
    var n := After(l, c, max);
    assert n.rows.Keys <= l.rows.Keys && n.grants == l.grants && n.nextId == l.nextId;
    forall id | id in n.rows ensures n.rows[id].item == l.rows[id].item && RowOk(n.rows[id], LeaseCount(n, id), max) {
      CallChangesRow(l, c, max, id);
      assert RowOk(l.rows[id], LeaseCount(l, id), max);
    }
    ItemsKeepKeysUnique(l.rows, n.rows);
    forall id ensures LeaseCount(n, id) == LeaseCount(l, id) {
    }
  }

  lemma CallKeeps(l: Ledger, c: Call, max: nat)
    requires 0 < max && Inv(l, max) && Possible(l, c)
    ensures Inv(After(l, c, max), max)
  {
    if c.Enqueue? {
      EnqueueKeeps(l, c, max);
    } else if c.Lease? {
      LeaseKeeps(l, c, max);
    } else {
      OtherCallKeeps(l, c, max);
    }
  }

  // ---------------------------------------------------------------------------------------------
  // Runs of calls

  predicate PossibleRun(l: Ledger, run: seq<Call>, max: nat)
    decreases |run|
  {
    run == [] || (Possible(l, run[0]) && PossibleRun(After(l, run[0], max), run[1..], max))
  }

  function AfterRun(l: Ledger, run: seq<Call>, max: nat): Ledger
    decreases |run|
  {
    if run == [] then l else AfterRun(After(l, run[0], max), run[1..], max)
  }

  lemma {:induction false} RunKeeps(l: Ledger, run: seq<Call>, max: nat)
    requires 0 < max && Inv(l, max) && PossibleRun(l, run, max)
    ensures Inv(AfterRun(l, run, max), max)
    decreases |run|
  {
    if run == [] {
    } else {
      CallKeeps(l, run[0], max);
      RunKeeps(After(l, run[0], max), run[1..], max);
    }
  }

  lemma EmptyHolds(max: nat)
    requires 0 < max
    ensures Inv(EMPTY, max)
  {
    forall id ensures LeaseCount(EMPTY, id) == 0 {
      assert GrantsOf(EMPTY.grants, id) == {};
    }
  }

  /** In no run is a row leased more often than the retry limit, not even one that was deleted since. */
  lemma LeasedAtMostMaxTimes(run: seq<Call>, max: nat, id: nat)
    requires 0 < max && PossibleRun(EMPTY, run, max)
    ensures LeaseCount(AfterRun(EMPTY, run, max), id) <= max
  {
    EmptyHolds(max);
    RunKeeps(EMPTY, run, max);
  }

  /** In every run: a queued row has retries left and was leased at most once per retry; any other
      row is ready to send, and at most one lease is not yet counted as a retry. */
  lemma RetriesCoverLeases(run: seq<Call>, max: nat, id: nat)
    requires 0 < max && PossibleRun(EMPTY, run, max) && id in AfterRun(EMPTY, run, max).rows
    ensures var l := AfterRun(EMPTY, run, max);
            var r := l.rows[id];
            && (r.status == Queued ==> LeaseCount(l, id) <= r.retries < max)
            && (r.status != Queued ==> LeaseCount(l, id) <= r.retries + 1 && RouteStatusForPlan(r.plan) == ReadyToSend)
  {
    EmptyHolds(max);
    RunKeeps(EMPTY, run, max);
    assert RowOk(AfterRun(EMPTY, run, max).rows[id], LeaseCount(AfterRun(EMPTY, run, max), id), max);
  }

  // ---------------------------------------------------------------------------------------------
  // Single calls

  /** A plan that was ready once is never replaced. */
  lemma ReadyPlanStays(l: Ledger, c: Call, max: nat, id: nat)
    requires Inv(l, max) && Possible(l, c)
    requires id in l.rows && l.rows[id].route == ReadyToSend && id in After(l, c, max).rows
    ensures After(l, c, max).rows[id].route == ReadyToSend && After(l, c, max).rows[id].plan == l.rows[id].plan
  {
    if !c.Lease? {
      CallChangesRow(l, c, max, id);
    }
  }

  predicate ByOwner(l: Ledger, c: Call, id: nat) { c.Update? && c.id == id && HeldBy(l.rows, id, c.worker) }

  /** Nothing but a state change by its last owner touches an acknowledged row; not even compaction does. */
  lemma AckedRowStays(l: Ledger, c: Call, max: nat, id: nat)
    requires Inv(l, max) && Possible(l, c)
    requires id in l.rows && l.rows[id].status == Acked && !ByOwner(l, c, id)
    ensures id in After(l, c, max).rows && After(l, c, max).rows[id] == l.rows[id]
    ensures LeaseCount(After(l, c, max), id) == LeaseCount(l, id)
  {
    if c.Lease? {
      assert id !in LeasableIds(l.rows);
      GrantsAddUp(l.grants, c.ids, c.worker, id);
    }
  }

  /** A dead row is not final. As long as it is kept it changes only by a state change of the owner it still
      records, and is revived exactly if that puts it into another state. */
  lemma DeadRowRevivedByOwner(l: Ledger, c: Call, max: nat, id: nat)
    requires Inv(l, max) && Possible(l, c) && id in l.rows && l.rows[id].status == Dead && id in After(l, c, max).rows
    ensures After(l, c, max).rows[id] != l.rows[id] ==> ByOwner(l, c, id)
    ensures After(l, c, max).rows[id].status != Dead <==> ByOwner(l, c, id) && c.status != Dead
  {
    if c.Lease? {
      assert id !in LeasableIds(l.rows);
    }
  }

  /** The owner named by a row is the only worker whose calls can change it, lease expiry aside. */
  lemma OnlyTheHolderChanges(l: Ledger, c: Call, max: nat, id: nat, holder: string)
    requires Inv(l, max) && Possible(l, c) && HeldBy(l.rows, id, holder)
    requires (c.Lease? || c.Update? || c.Retry?) && c.worker != holder
    ensures id in After(l, c, max).rows && After(l, c, max).rows[id] == l.rows[id]
  {
    assert RowOk(l.rows[id], LeaseCount(l, id), max);
    assert id !in LeasableIds(l.rows);
  }

  /** A row keeps its key and message for life, and its id is never given to another row. */
  lemma RowIdentity(l: Ledger, c: Call, max: nat, id: nat)
    requires Inv(l, max) && id < l.nextId
    ensures id in After(l, c, max).rows ==> id in l.rows && After(l, c, max).rows[id].item == l.rows[id].item
    ensures l.nextId <= After(l, c, max).nextId
  {
  }
}
