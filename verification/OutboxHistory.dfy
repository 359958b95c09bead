/**
 What the histories of a run record. Leases, handoffs and acknowledgements are counted off the run itself, and
 the calls of a run are what the methods of the queue do, so the bounds on them are bounds on what happens.
 */
module OutboxHistory {
  import opened Wrappers
  import opened RoutePlanner
  import opened Outbox
  import opened OutboxCalls
  import opened OutboxWorkers
  import opened OutboxRuns

  // ---------------------------------------------------------------------------------------------
  // Leases

  /** How many calls of the run lease the row. */
  function LeasesIn(run: seq<Call>, id: nat): nat
    decreases |run|
  {
    if run == [] then 0 else (if run[0].Lease? && id in run[0].ids then 1 else 0) + LeasesIn(run[1..], id)
  }

  lemma CallCountsLease(l: Ledger, c: Call, max: nat, id: nat)
    requires Possible(l, c)
    ensures LeaseCount(After(l, c, max), id) == LeaseCount(l, id) + if c.Lease? && id in c.ids then 1 else 0
  {
    if c.Lease? {
      GrantsAddUp(l.grants, c.ids, c.worker, id);
    }
  }

  lemma {:induction false} LeasesAreCounted(l: Ledger, run: seq<Call>, max: nat, id: nat)
    requires PossibleRun(l, run, max)
    ensures LeaseCount(AfterRun(l, run, max), id) == LeaseCount(l, id) + LeasesIn(run, id)
    decreases |run|
  {
    if run == [] {
    } else {
      CallCountsLease(l, run[0], max, id);
      LeasesAreCounted(After(l, run[0], max), run[1..], max, id);
    }
  }

  /** Whatever is called by anybody in any order, no row is leased more often than the retry limit. */
  lemma NeverLeasedTooOften(run: seq<Call>, max: nat, id: nat)
    requires 0 < max && PossibleRun(EMPTY, run, max)
    ensures LeasesIn(run, id) <= max
  {
    LeasesAreCounted(EMPTY, run, max, id);
    LeasedAtMostMaxTimes(run, max, id);
  }

  // ---------------------------------------------------------------------------------------------
  // Handoffs

  /** What an event gives to the transport: the first ticket of the worker, with the plan it has read. */
  function GivenBy(s: World, e: Event): seq<Handoff>
    requires Can(s, e)
  {
    if e.By? && e.action.HandOver? then [Handoff(WorkOf(s, e.worker).todo[0], e.worker, WorkOf(s, e.worker).phase.plan)]
    else []
  }

  function Given(s: World, run: seq<Event>, max: nat): seq<Handoff>
    requires PossibleEvents(s, run, max)
    decreases |run|
  {
    if run == [] then [] else GivenBy(s, run[0]) + Given(Step(s, run[0], max), run[1..], max)
  }

  lemma StepGives(s: World, e: Event, max: nat)
    requires Can(s, e)
    ensures Step(s, e, max).handoffs == s.handoffs + GivenBy(s, e)
  {
  }

  /** The handoffs of a run are what its events give to the transport, in order. */
  lemma {:induction false} HandoffsAreRecorded(s: World, run: seq<Event>, max: nat)
    requires PossibleEvents(s, run, max)
    ensures AfterEvents(s, run, max).handoffs == s.handoffs + Given(s, run, max)
    decreases |run|
  {
    if run == [] {
    } else {
      var n := Step(s, run[0], max);
      StepGives(s, run[0], max);
      HandoffsAreRecorded(n, run[1..], max);
    }
  }

  /** How often the transport was given the row. */
  function TimesGiven(given: seq<Handoff>, id: nat): nat
  {
    if given == [] then 0
    else TimesGiven(given[..|given| - 1], id) + if given[|given| - 1].ticket.id == id then 1 else 0
  }

  lemma {:induction false} TimesGivenIsCount(given: seq<Handoff>, id: nat)
    ensures TimesGiven(given, id) == |HandoffsOf(given, id)|
  {
    if given == [] {
    } else {
      var front, last := given[..|given| - 1], |given| - 1;
      TimesGivenIsCount(front, id);
      if given[last].ticket.id == id {
        assert HandoffsOf(given, id) == HandoffsOf(front, id) + {last};
      } else {
        assert HandoffsOf(given, id) == HandoffsOf(front, id);
      }
    }
  }

  /** Over every interleaving, the transport is given no row more often than the retry limit. */
  lemma NeverGivenTooOften(run: seq<Event>, max: nat, id: nat)
    requires 0 < max && PossibleEvents(BEGINNING, run, max)
    ensures TimesGiven(Given(BEGINNING, run, max), id) <= max
  {
    HandoffsAreRecorded(BEGINNING, run, max);
    assert AfterEvents(BEGINNING, run, max).handoffs == Given(BEGINNING, run, max);
    TimesGivenIsCount(Given(BEGINNING, run, max), id);
    HandedOverAtMostMaxTimes(run, max, id);
  }

  // ---------------------------------------------------------------------------------------------
  // Acknowledgements

  ghost predicate AckedRowsKnown(s: World)
  {
    forall id :: id in s.ledger.rows && s.ledger.rows[id].status == Acked ==> id in s.acked
  }

  /** Only a worker's own state change acknowledges a row. */
  lemma AckNeedsUpdate(l: Ledger, c: Call, max: nat, id: nat)
    requires id in After(l, c, max).rows && After(l, c, max).rows[id].status == Acked
    requires !(id in l.rows && l.rows[id].status == Acked)
    ensures c.Update? && c.id == id && c.status == Acked && HeldBy(l.rows, id, c.worker)
  {
  }

  lemma {:induction false} AckedRowsStayKnown(s: World, run: seq<Event>, max: nat)
    requires PossibleEvents(s, run, max) && AckedRowsKnown(s)
    ensures AckedRowsKnown(AfterEvents(s, run, max))
    decreases |run|
  {
    if run == [] {
    } else {
      var n := Step(s, run[0], max);
      forall id | id in n.ledger.rows && n.ledger.rows[id].status == Acked ensures id in n.acked {
        var c := if run[0].Around? then Some(run[0].call) else CallOf(s, run[0].worker, run[0].action);
        if c.Some? && !(id in s.ledger.rows && s.ledger.rows[id].status == Acked) {
          AckNeedsUpdate(s.ledger, c.value, max, id);
        }
      }
      AckedRowsStayKnown(n, run[1..], max);
    }
  }

  /** After any interleaving the acknowledged rows are those with that status. */
  lemma AckedAreTheAckedRows(run: seq<Event>, max: nat, id: nat)
    requires 0 < max && PossibleEvents(BEGINNING, run, max)
    ensures var s := AfterEvents(BEGINNING, run, max);
            id in s.acked <==> id in s.ledger.rows && s.ledger.rows[id].status == Acked
  {
    BeginningIsOk(max);
    EventsKeep(BEGINNING, run, max);
    AckedRowsStayKnown(BEGINNING, run, max);
  }

  // ---------------------------------------------------------------------------------------------
  // Calls

  predicate IsLedgerOf(l: Ledger, q: Queue)
    reads q
  {
    l.rows == q.rows && l.nextId == q.nextId
  }

  /** Every call but the two statements of the recovery is a method of the queue. */
  method Make(q: Queue, c: Call, ghost l: Ledger)
    requires q.Valid() && IsLedgerOf(l, q) && Possible(l, c) && !c.ExhaustExpired? && !c.RequeueExpired?
    requires c.Lease? ==> 0 < c.limit
    modifies q
    ensures q.Valid() && IsLedgerOf(After(l, c, q.maxRetry), q)
  {
    match c
    case Enqueue(item, plan) => var _ := q.Enqueue(item, plan);
    case Lease(limit, ids, worker, until, now) => var _ := q.LeaseOutbound(worker, limit, ids, now, until);
    case Update(id, worker, status, cause, now) => var _ := q.UpdateQueueState(id, worker, status, cause, now);
    case Retry(id, worker, why, now) => var _ := q.RetryOutbound(id, worker, Some(why), now);
    case Replan(id, plan, now) => var _ := q.UpdateQueueRoutePlan(id, plan, now);
    case Compact(cutoff) => var _ := q.DeleteDeadOlderThan(cutoff);
  }

  lemma TwoCalls(l: Ledger, c: Call, d: Call, max: nat)
    ensures AfterRun(l, [c, d], max) == After(After(l, c, max), d, max)
  {
    assert [c, d][1..] == [d] && [d][1..] == [];
    assert AfterRun(After(l, c, max), [d], max) == AfterRun(After(After(l, c, max), d, max), [], max);
  }

  /** The recovery is its two statements, one after the other. */
  method Recover(q: Queue, now: string, ghost l: Ledger)
    requires q.Valid() && IsLedgerOf(l, q)
    modifies q
    ensures q.Valid()
    ensures IsLedgerOf(AfterRun(l, [ExhaustExpired(now), RequeueExpired(now)], q.maxRetry), q)
  {
    var _ := q.RecoverExpiredLeases(now);
    TwoCalls(l, ExhaustExpired(now), RequeueExpired(now), q.maxRetry);
  }
}
