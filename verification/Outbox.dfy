/**
 The outbox of the Site Router: rows leased to workers, finished, retried, recovered and compacted.
 Each SQL statement or transaction is one atomic method; its effect is a function on the row or table.
 Times are the stored texts, compared byte by byte.
 */
module Outbox {
  import opened Wrappers
  import opened RoutePlanner
  import Timestamps

  datatype Status = Queued | Leased | Sending | SentOk | Acked | Dead

  /** The states a row is put into by its owner: all but queued and leased. */
  predicate InUse(s: Status) { s != Queued && s != Leased }

  datatype Priority = Critical | Control | Normal | OtherPriority

  function Rank(p: Priority): nat
  {
    match p
    case Critical => 0
    case Control => 1
    case Normal => 2
    case OtherPriority => 3
  }

  /** What a row keeps for life: `request` are the facts of its envelope that the planner looks at. */
  datatype Item = Item(key: string, message: string, priority: Priority, created: string, request: Request)

  datatype Hold = Hold(owner: Option<string>, until: Option<string>)

  /** Why a row is dead; the texts the code writes itself are constructors. */
  datatype Cause = RetryExhausted | DispatchRetry | EncodeFailed | Because(text: string)

  datatype Row = Row(
    item: Item, status: Status, route: RouteStatus, plan: RoutePlan, hold: Hold,
    retries: nat, cause: Option<Cause>, updated: string)

  type Table = map<nat, Row>

  const UNHELD := Hold(None, None)

  predicate InFlight(s: Status) { s == Leased || s == Sending || s == SentOk }

  // ---------------------------------------------------------------------------------------------
  // Enqueueing

  function NewRow(item: Item, plan: RoutePlan): Row
  {
    Row(item, Queued, RouteStatusForPlan(plan), plan, UNHELD, 0, None, item.created)
  }

  predicate KeysUnique(t: Table)
  {
    forall i, j :: i in t && j in t && t[i].item.key == t[j].item.key ==> i == j
  }

  predicate KeyTaken(t: Table, key: string) { exists id :: id in t && t[id].item.key == key }

  // ---------------------------------------------------------------------------------------------
  // Leasing: ORDER BY priority rank, created_at LIMIT n

  predicate Leasable(r: Row) { r.status == Queued && r.route == ReadyToSend }

  function LeasableIds(t: Table): set<nat> { set id | id in t && Leasable(t[id]) }

  predicate NotAfter(a: Item, b: Item)
  {
    || Rank(a.priority) < Rank(b.priority)
    || (Rank(a.priority) == Rank(b.priority) && !Timestamps.Less(b.created, a.created))
  }

  predicate Distinct(ids: seq<nat>) { forall i, j :: 0 <= i < j < |ids| ==> ids[i] != ids[j] }

  predicate AllLeasable(t: Table, ids: seq<nat>)
  {
    Distinct(ids) && forall i :: 0 <= i < |ids| ==> ids[i] in LeasableIds(t)
  }

  /** `ids` is a possible answer of the query: leasable rows in order, no leasable row left out
      unless the limit is reached and it does not come before the ones taken. */
  predicate IsBatch(t: Table, limit: nat, ids: seq<nat>)
  {
    && AllLeasable(t, ids)
    && |ids| == (if |LeasableIds(t)| < limit then |LeasableIds(t)| else limit)
    && (forall i, j :: 0 <= i < j < |ids| ==> NotAfter(t[ids[i]].item, t[ids[j]].item))
    && (forall id, i :: id in LeasableIds(t) && id !in ids && 0 <= i < |ids| ==> NotAfter(t[ids[i]].item, t[id].item))
  }

  function LeaseRow(r: Row, worker: string, until: string, now: string): Row
  {
    r.(status := Leased, hold := Hold(Some(worker), Some(until)), updated := now)
  }

  function LeaseAll(t: Table, ids: seq<nat>, worker: string, until: string, now: string): Table
  {
    map id | id in t :: if id in ids then LeaseRow(t[id], worker, until, now) else t[id]
  }

  lemma LeaseNext(t: Table, ids: seq<nat>, id: nat, worker: string, until: string, now: string)
    requires id in t && id !in ids
    ensures var n := LeaseAll(t, ids, worker, until, now);
            && n[id] == t[id]
            && LeaseAll(t, ids + [id], worker, until, now) == n[id := LeaseRow(t[id], worker, until, now)]
  {
  }

  // ---------------------------------------------------------------------------------------------
  // State changes by the owner

  predicate HeldBy(t: Table, id: nat, worker: string) { id in t && t[id].hold.owner == Some(worker) }

  function Updated(t: Table, id: nat, worker: string, status: Status, cause: Option<Cause>, now: string): Table
  {
    if HeldBy(t, id, worker) then t[id := t[id].(status := status, cause := cause, updated := now)] else t
  }

  datatype RetryOutcome = RetriedToDead | RetriedToQueued | NotRetryable

  predicate Retryable(t: Table, id: nat, worker: string) { HeldBy(t, id, worker) && InFlight(t[id].status) }

  function RetryOutcomeOf(t: Table, id: nat, worker: string, max: nat): RetryOutcome
  {
    if id == 0 || worker == "" || !Retryable(t, id, worker) then NotRetryable
    else if t[id].retries + 1 >= max then RetriedToDead
    else RetriedToQueued
  }

  function DeadRow(r: Row, cause: Cause, now: string): Row
  {
    r.(status := Dead, retries := r.retries + 1, cause := Some(cause), updated := now)
  }

  function QueuedAgain(r: Row, cause: Option<Cause>, now: string): Row
  {
    r.(status := Queued, hold := UNHELD, retries := r.retries + 1, cause := cause, updated := now)
  }

  function CauseOf(reason: Option<Cause>): Cause { if reason.None? then DispatchRetry else reason.value }

  function Retried(t: Table, id: nat, worker: string, cause: Cause, now: string, max: nat): Table
  {
    match RetryOutcomeOf(t, id, worker, max)
    case NotRetryable => t
    case RetriedToDead => t[id := DeadRow(t[id], cause, now)]
    case RetriedToQueued => t[id := QueuedAgain(t[id], None, now)]
  }

  // ---------------------------------------------------------------------------------------------
  // Lease expiry: two statements, first the rows without retries left, then the others

  predicate Expired(r: Row, now: string)
  {
    InFlight(r.status) && r.hold.until.Some? && Timestamps.Less(r.hold.until.value, now)
  }

  predicate Exhausted(r: Row, now: string, max: nat) { Expired(r, now) && r.retries + 1 >= max }

  predicate Requeues(r: Row, now: string, max: nat) { Expired(r, now) && r.retries + 1 < max }

  function ExhaustRow(r: Row, now: string, max: nat): Row
  {
    if Exhausted(r, now, max) then r.(status := Dead, cause := Some(RetryExhausted), updated := now) else r
  }

  function RequeueRow(r: Row, now: string, max: nat): Row
  {
    if Requeues(r, now, max) then QueuedAgain(r, r.cause, now) else r
  }

  function ExhaustAll(t: Table, now: string, max: nat): Table { map id | id in t :: ExhaustRow(t[id], now, max) }

  function RequeueAll(t: Table, now: string, max: nat): Table { map id | id in t :: RequeueRow(t[id], now, max) }

  /** Both statements. */
  function Recovered(t: Table, now: string, max: nat): Table { RequeueAll(ExhaustAll(t, now, max), now, max) }

  function RequeuedIds(t: Table, now: string, max: nat): set<nat> { set id | id in t && Requeues(t[id], now, max) }

  /** The first statement leaves the rows of the second one alone. */
  lemma RequeuedIdsAreIndependent(t: Table, now: string, max: nat)
    ensures RequeuedIds(ExhaustAll(t, now, max), now, max) == RequeuedIds(t, now, max)
  {
    var u := ExhaustAll(t, now, max);
    forall id ensures id in RequeuedIds(u, now, max) <==> id in RequeuedIds(t, now, max) {
    }
  }

  // ---------------------------------------------------------------------------------------------
  // Replanning and compaction

  predicate Replannable(t: Table, id: nat) { id in t && t[id].status == Queued && t[id].route != ReadyToSend }

  function Replanned(t: Table, id: nat, plan: RoutePlan, now: string): Table
  {
    if Replannable(t, id) then t[id := t[id].(route := RouteStatusForPlan(plan), plan := plan, updated := now)] else t
  }

  predicate Compactable(r: Row, cutoff: string) { r.status == Dead && Timestamps.Less(r.updated, cutoff) }

  function Compacted(t: Table, cutoff: string): Table { map id | id in t && !Compactable(t[id], cutoff) :: t[id] }

  // ---------------------------------------------------------------------------------------------
  // Comparing created_at texts is a total preorder

  lemma NotAfterTransitive(a: Item, b: Item, c: Item)
    ensures NotAfter(a, a)
    ensures NotAfter(a, b) || NotAfter(b, a)
    ensures NotAfter(a, b) && NotAfter(b, c) ==> NotAfter(a, c)
  {
    Timestamps.LessIsTotal(a.created, b.created, c.created);
    Timestamps.LessIsTotal(c.created, b.created, a.created);
  }

  // ---------------------------------------------------------------------------------------------
  // The lease query always has an answer

  lemma FirstExists(t: Table, rest: set<nat>) returns (first: nat)
    requires rest != {} && rest <= t.Keys
    ensures first in rest && forall id :: id in rest ==> NotAfter(t[first].item, t[id].item)
    decreases |rest|
  {
    first :| first in rest;
    NotAfterTransitive(t[first].item, t[first].item, t[first].item);
    if rest != {first} {
      var others := rest - {first};
      assert forall id :: id in rest ==> id == first || id in others;
      var other := FirstExists(t, others);
      NotAfterTransitive(t[first].item, t[other].item, t[other].item);
      if NotAfter(t[first].item, t[other].item) {
        forall id | id in others ensures NotAfter(t[first].item, t[id].item) {
          NotAfterTransitive(t[first].item, t[other].item, t[id].item);
        }
      } else {
        first := other;
      }
    }
  }

  function Members(ids: seq<nat>): set<nat> { set id | id in ids }

  lemma {:induction false} MembersSize(ids: seq<nat>)
    requires Distinct(ids)
    ensures |Members(ids)| == |ids|
  {
    if ids == [] {
    } else {
      var last, front := ids[|ids| - 1], ids[..|ids| - 1];
      MembersSize(front);
      assert Members(ids) == Members(front) + {last};
      assert last !in Members(front);
    }
  }

  /** One more row joins a batch that has not taken all rows yet. */
  lemma BatchGrows(t: Table, limit: nat, ids: seq<nat>) returns (more: seq<nat>)
    requires IsBatch(t, limit, ids)
    ensures IsBatch(t, limit + 1, more)
  {
    MembersSize(ids);
    var rest := LeasableIds(t) - Members(ids);
    assert LeasableIds(t) == Members(ids) + rest;
    more := ids;
    if rest != {} {
      var first := FirstExists(t, rest);
      more := ids + [first];
      forall id, i | id in LeasableIds(t) && id !in more && 0 <= i < |more|
        ensures NotAfter(t[more[i]].item, t[id].item) {
        assert id in rest;
      }
    }
  }

  lemma {:induction false} BatchExists(t: Table, limit: nat) returns (ids: seq<nat>)
    ensures IsBatch(t, limit, ids)
  {
    if limit == 0 {
      ids := [];
    } else {
      var fewer := BatchExists(t, limit - 1);
      ids := BatchGrows(t, limit - 1, fewer);
    }
  }

  lemma LargeBatchTakesAll(t: Table, limit: nat, ids: seq<nat>)
    requires IsBatch(t, limit, ids) && |LeasableIds(t)| <= limit
    ensures Members(ids) == LeasableIds(t)
  {
    MembersSize(ids);
    var rest := LeasableIds(t) - Members(ids);
    assert LeasableIds(t) == Members(ids) + rest;
  }

  /** Does the first row go before the second: by urgency, and within one priority by age? */
  predicate GoesBefore(a: Item, b: Item)
  {
    match (a.priority, b.priority)
    case (Critical, Critical) => Timestamps.Less(a.created, b.created)
    case (Critical, _) => true
    case (Control, Critical) => false
    case (Control, Control) => Timestamps.Less(a.created, b.created)
    case (Control, _) => true
    case (Normal, Normal) => Timestamps.Less(a.created, b.created)
    case (Normal, OtherPriority) => true
    case (OtherPriority, OtherPriority) => Timestamps.Less(a.created, b.created)
    case _ => false
  }

  /** No row is leased while a ready one that goes before it is passed over, and none is leased before it. */
  lemma UrgentAndOldFirst(t: Table, limit: nat, ids: seq<nat>, first: nat, j: nat)
    requires IsBatch(t, limit, ids) && first in LeasableIds(t) && j < |ids| && GoesBefore(t[first].item, t[ids[j]].item)
    ensures exists i :: 0 <= i < j && ids[i] == first
  {
    NotAfterTransitive(t[first].item, t[ids[j]].item, t[first].item);
    assert !NotAfter(t[ids[j]].item, t[first].item);
    var i :| 0 <= i < |ids| && ids[i] == first;
    assert i != j && !(j < i);
  }

  /** Compaction keeps every row but the dead ones that were last updated before the cutoff. */
  lemma CompactedIff(t: Table, cutoff: string, id: nat)
    requires id in t
    ensures id in Compacted(t, cutoff) <==> t[id].status != Dead || !Timestamps.Less(t[id].updated, cutoff)
    ensures id in Compacted(t, cutoff) ==> Compacted(t, cutoff)[id] == t[id]
  {
  }

  // ---------------------------------------------------------------------------------------------
  // The outbox

  class Queue {
    var rows: Table
    var nextId: nat
    const maxRetry: nat

    predicate Valid()
      reads this
    {
      && maxRetry > 0 && nextId > 0
      && (forall id :: id in rows ==> 0 < id < nextId)
      && KeysUnique(rows)
    }

    /** `Open` with an empty database; a retry limit below one means five. */
    constructor (maxRetryCount: int)
      ensures Valid() && rows == map[] && nextId == 1 && maxRetry == if maxRetryCount <= 0 then 5 else maxRetryCount
    {
      rows, nextId := map[], 1;
      maxRetry := if maxRetryCount <= 0 then 5 else maxRetryCount;
    }

    /** `enqueueOutboundTx`: a key that is already queued keeps its row. */
    method Enqueue(item: Item, plan: RoutePlan) returns (id: nat)
      requires Valid()
      modifies this
      ensures Valid()
      ensures KeyTaken(old(rows), item.key) ==>
                rows == old(rows) && nextId == old(nextId) && id in rows && rows[id].item.key == item.key
      ensures !KeyTaken(old(rows), item.key) ==>
                id == old(nextId) && nextId == id + 1 && rows == old(rows)[id := NewRow(item, plan)]
    {
      if exists j :: j in rows && rows[j].item.key == item.key {
        id :| id in rows && rows[id].item.key == item.key;
        return;
      }
      id := nextId;
      rows := rows[id := NewRow(item, plan)];
      nextId := nextId + 1;
    }

    /** `LeaseOutbound`: one transaction, row by row over the answer of its query, which is a parameter. */
    method LeaseOutbound(worker: string, limit: int, selected: seq<nat>, now: string, until: string)
      returns (leases: seq<nat>)
      requires Valid() && IsBatch(rows, if limit <= 0 then 1 else limit, selected)
      modifies this`rows
      ensures Valid()
      ensures leases == selected
      ensures rows == LeaseAll(old(rows), selected, worker, until, now)
    {
      leases := LeaseSelected(worker, selected, now, until);
    }

    /** The loop of `LeaseOutbound`. */
    method LeaseSelected(worker: string, selected: seq<nat>, now: string, until: string) returns (leases: seq<nat>)
      requires Valid() && AllLeasable(rows, selected)
      modifies this`rows
      ensures Valid()
      ensures leases == selected
      ensures rows == LeaseAll(old(rows), selected, worker, until, now)
    {
      ghost var before := rows;
      leases := [];
      assert selected[..0] == [];
      for k := 0 to |selected|
        invariant leases == selected[..k]
        invariant rows == LeaseAll(before, selected[..k], worker, until, now)
      {
        var id := selected[k];
        assert id in LeasableIds(before);
        LeaseNext(before, selected[..k], id, worker, until, now);
        if rows[id].status == Queued && rows[id].route == ReadyToSend {
          rows := rows[id := rows[id].(status := Leased, hold := Hold(Some(worker), Some(until)), updated := now)];
          leases := leases + [id];
        }
        assert selected[..k + 1] == selected[..k] + [id];
      }
      assert selected[..|selected|] == selected;
    }

    /** `updateQueueState`: the owner alone decides, the current status does not. */
    method UpdateQueueState(id: nat, worker: string, status: Status, cause: Option<Cause>, now: string)
      returns (ok: bool)
      requires Valid() && InUse(status)
      modifies this`rows
      ensures Valid()
      ensures ok == HeldBy(old(rows), id, worker)
      ensures rows == Updated(old(rows), id, worker, status, cause, now)
    {
      ok := id in rows && rows[id].hold.owner == Some(worker);
      if ok {
        rows := rows[id := rows[id].(status := status, cause := cause, updated := now)];
      }
    }

    /** `RecoverExpiredLeases` */
    method RecoverExpiredLeases(now: string) returns (recovered: nat)
      requires Valid()
      modifies this`rows
      ensures Valid()
      ensures rows == Recovered(old(rows), now, maxRetry)
      ensures recovered == |RequeuedIds(old(rows), now, maxRetry)|
    {
      RequeuedIdsAreIndependent(rows, now, maxRetry);
      rows := ExhaustAll(rows, now, maxRetry);
      recovered := |RequeuedIds(rows, now, maxRetry)|;
      rows := RequeueAll(rows, now, maxRetry);
    }

    /** `RetryOutbound`: dead when the retries are used up, otherwise back to the queue. */
    method RetryOutbound(id: nat, worker: string, reason: Option<Cause>, now: string) returns (outcome: RetryOutcome)
      requires Valid()
      modifies this`rows
      ensures Valid()
      ensures outcome == RetryOutcomeOf(old(rows), id, worker, maxRetry)
      ensures rows == Retried(old(rows), id, worker, CauseOf(reason), now, maxRetry)
    {
      if id == 0 || worker == "" {
        return NotRetryable;
      }
      var cause := CauseOf(reason);
      if Retryable(rows, id, worker) && rows[id].retries + 1 >= maxRetry {
        rows := rows[id := DeadRow(rows[id], cause, now)];
        return RetriedToDead;
      }
      if Retryable(rows, id, worker) && rows[id].retries + 1 < maxRetry {
        rows := rows[id := QueuedAgain(rows[id], None, now)];
        return RetriedToQueued;
      }
      outcome := NotRetryable;
    }

    /** `updateQueueRoutePlan`: only a queued row whose route is not ready is replanned. */
    method UpdateQueueRoutePlan(id: nat, plan: RoutePlan, now: string) returns (updated: bool)
      requires Valid()
      modifies this`rows
      ensures Valid()
      ensures updated == Replannable(old(rows), id)
      ensures rows == Replanned(old(rows), id, plan, now)
    {
      updated := id in rows && rows[id].status == Queued
                 && (rows[id].route == RoutePending || rows[id].route == RouteBlocked);
      if updated {
        rows := rows[id := rows[id].(route := RouteStatusForPlan(plan), plan := plan, updated := now)];
      }
    }

    /** The outbox part of `Compact`: old dead rows go, their ids are never used again. */
    method DeleteDeadOlderThan(cutoff: string) returns (deleted: nat)
      requires Valid()
      modifies this`rows
      ensures Valid()
      ensures rows == Compacted(old(rows), cutoff)
      ensures deleted == |set id | id in old(rows) && Compactable(old(rows)[id], cutoff)|
    {
      deleted := |set id | id in rows && Compactable(rows[id], cutoff)|;
      rows := Compacted(rows, cutoff);
    }
  }
}
