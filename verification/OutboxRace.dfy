/**
 A worker may mark a row as sending, lose its lease, and hand the row over although another worker has
 acknowledged it meanwhile. This happens in some run exactly when the row has a retry left.
 */
module OutboxRace {
  import opened Wrappers
  import opened RoutePlanner
  import Timestamps
  import opened Outbox
  import opened OutboxCalls
  import opened OutboxWorkers
  import opened OutboxRuns

  predicate Without(run: seq<Event>, w: string) { forall k :: 0 <= k < |run| ==> !(run[k].By? && run[k].worker == w) }

  /** `w` has just marked the row as sending and not handed it over yet. */
  predicate AboutToHandOver(s: World, w: string, id: nat)
  {
    var work := WorkOf(s, w);
    && work.todo != [] && work.phase.Marked? && work.todo[0].id == id
    && HeldBy(s.ledger.rows, id, w) && s.ledger.rows[id].status == Sending
  }

  /** Some run in which `w` takes no step ends with the row acknowledged. */
  ghost predicate AckedMeanwhile(s: World, w: string, id: nat, max: nat)
  {
    exists run :: PossibleEvents(s, run, max) && Without(run, w) && id in AfterEvents(s, run, max).acked
  }

  // ---------------------------------------------------------------------------------------------
  // On the last attempt nobody else gets the row

  predicate LastAttempt(s: World, w: string, id: nat, max: nat)
  {
    && id !in s.acked && id < s.ledger.nextId
    && (id in s.ledger.rows ==>
          var r := s.ledger.rows[id];
          r.hold.owner == Some(w) && (r.status == Sending || r.status == Dead) && r.retries + 1 >= max)
  }

  lemma LastAttemptAround(s: World, c: Call, w: string, id: nat, max: nat)
    requires WorldOk(s, max) && Can(s, Around(c)) && LastAttempt(s, w, id, max)
    ensures LastAttempt(Step(s, Around(c), max), w, id, max)
  {
    RowIdentity(s.ledger, c, max, id);
  }

  lemma LastAttemptBy(s: World, u: string, a: Action, w: string, id: nat, max: nat)
    requires WorldOk(s, max) && CanDo(s, u, a) && LastAttempt(s, w, id, max) && u != w
    ensures LastAttempt(Do(s, u, a, max), w, id, max)
  {
    var call := CallOf(s, u, a);
    if call.Some? {
      RowIdentity(s.ledger, call.value, max, id);
    }
    if id in s.ledger.rows {
      StaleWorkerChangesNothing(s, u, a, max, id, w);
    }
  }

  lemma {:induction false} LastAttemptRun(s: World, run: seq<Event>, w: string, id: nat, max: nat)
    requires 0 < max && WorldOk(s, max) && PossibleEvents(s, run, max) && Without(run, w) && LastAttempt(s, w, id, max)
    ensures LastAttempt(AfterEvents(s, run, max), w, id, max)
    decreases |run|
  {
    if run == [] {
    } else {
      StepKeeps(s, run[0], max);
      match run[0] {
        case Around(c) => LastAttemptAround(s, c, w, id, max);
        case By(u, a) => LastAttemptBy(s, u, a, w, id, max);
      }
      assert forall k :: 0 <= k < |run[1..]| ==> run[1..][k] == run[k + 1];
      LastAttemptRun(Step(s, run[0], max), run[1..], w, id, max);
    }
  }

  // ---------------------------------------------------------------------------------------------
  // With a retry left, another worker can

  predicate OnlyOther(run: seq<Event>, u: string) { forall k :: 0 <= k < |run| && run[k].By? ==> run[k].worker == u }

  lemma AfterText(text: string)
    ensures Timestamps.Less(text, text + "0")
  {
    if text == [] {
    } else {
      AfterText(text[1..]);
      assert (text + "0")[1..] == text[1..] + "0";
    }
  }

  /** The other worker skips the tickets before the one it is after. */
  lemma {:induction false} SkipTo(s: World, u: string, id: nat, k: nat, max: nat) returns (run: seq<Event>)
    requires k < |WorkOf(s, u).todo| && WorkOf(s, u).todo[k].id == id && WorkOf(s, u).phase.Start?
    ensures PossibleEvents(s, run, max) && OnlyOther(run, u)
    ensures var n := AfterEvents(s, run, max);
            && n.ledger == s.ledger && WorkOf(n, u).todo != [] && WorkOf(n, u).todo[0].id == id
            && WorkOf(n, u).phase.Start? && WorkOf(n, u).kind == WorkOf(s, u).kind
    decreases k
  {
    if k == 0 {
      run := [];
    } else {
      var e := By(u, GiveUp);
      var rest := SkipTo(Step(s, e, max), u, id, k - 1, max);
      run := [e] + rest;
      assert run[1..] == rest;
    }
  }

  /** It then sends the row and gets it acknowledged: read, mark, hand over, finish. */
  lemma SendAndAck(s: World, u: string, id: nat, max: nat) returns (run: seq<Event>)
    requires WorkOf(s, u).todo != [] && WorkOf(s, u).todo[0].id == id && WorkOf(s, u).phase.Start?
    requires WorkOf(s, u).kind == SiteDispatch && HeldBy(s.ledger.rows, id, u)
    ensures PossibleEvents(s, run, max) && OnlyOther(run, u) && id in AfterEvents(s, run, max).acked
  {
    var e1, e2, e3, e4 := By(u, ReadPlan), By(u, MarkSending([])), By(u, HandOver(Acknowledged)), By(u, Finish([]));
    var s1 := Step(s, e1, max);
    var s2 := Step(s1, e2, max);
    var s3 := Step(s2, e3, max);
    assert WorkOf(s3, u).phase == Handed(Acknowledged) && HeldBy(s3.ledger.rows, id, u);
    var s4 := Step(s3, e4, max);
    assert id in s4.acked;
    RunOfFour(s, e1, e2, e3, e4, max);
    run := [e1, e2, e3, e4];
  }

  /** The lease expires, and the row is ready for anybody. */
  lemma LeaseExpires(s: World, id: nat, max: nat) returns (e: Event)
    requires WorldOk(s, max) && id in s.ledger.rows && s.ledger.rows[id].status == Sending
    requires s.ledger.rows[id].hold.owner.Some? && s.ledger.rows[id].retries + 1 < max
    ensures e.Around? && Can(s, e)
    ensures var n := Step(s, e, max); id in LeasableIds(n.ledger.rows)
  {
    assert RowOk(s.ledger.rows[id], LeaseCount(s.ledger, id), max);
    var until := s.ledger.rows[id].hold.until.value;
    AfterText(until);
    e := Around(RequeueExpired(until + "0"));
    assert Step(s, e, max).ledger.rows[id] == RequeueRow(s.ledger.rows[id], until + "0", max);
  }

  /** The other worker, restarted, leases every row that is ready. */
  lemma LeaseReadyRows(s: World, u: string, id: nat, max: nat) returns (e1: Event, e2: Event, k: nat)
    requires u != "" && id in LeasableIds(s.ledger.rows)
    ensures e1.By? && e2.By? && e1.worker == e2.worker == u && Can(s, e1) && Can(Step(s, e1, max), e2)
    ensures var n := Step(Step(s, e1, max), e2, max);
            && k < |WorkOf(n, u).todo| && WorkOf(n, u).todo[k].id == id && WorkOf(n, u).phase.Start?
            && WorkOf(n, u).kind == SiteDispatch && HeldBy(n.ledger.rows, id, u)
  {
    e1 := By(u, Crash);
    var limit := |LeasableIds(s.ledger.rows)|;
    var ids := BatchExists(s.ledger.rows, limit);
    LargeBatchTakesAll(s.ledger.rows, limit, ids);
    assert id in Members(ids);
    e2 := By(u, TakeBatch(SiteDispatch, limit, ids, [], []));
    k :| 0 <= k < |ids| && ids[k] == id;
  }

  lemma TakeOver(s: World, u: string, id: nat, max: nat) returns (run: seq<Event>, k: nat)
    requires WorldOk(s, max) && u != "" && id in s.ledger.rows && s.ledger.rows[id].status == Sending
    requires s.ledger.rows[id].hold.owner.Some? && s.ledger.rows[id].retries + 1 < max
    ensures PossibleEvents(s, run, max) && OnlyOther(run, u)
    ensures var n := AfterEvents(s, run, max);
            && k < |WorkOf(n, u).todo| && WorkOf(n, u).todo[k].id == id && WorkOf(n, u).phase.Start?
            && WorkOf(n, u).kind == SiteDispatch && HeldBy(n.ledger.rows, id, u)
  {
    var e1 := LeaseExpires(s, id, max);
    var s1 := Step(s, e1, max);
    var e2, e3, at := LeaseReadyRows(s1, u, id, max);
    var s2 := Step(s1, e2, max);
    k := at;
    RunOfThree(s, e1, e2, e3, max);
    run := [e1, e2, e3];
  }

  lemma OtherRunsAreWithout(run: seq<Event>, u: string, w: string)
    requires OnlyOther(run, u) && u != w
    ensures Without(run, w)
  {
  }

  lemma OthersCanAck(s: World, w: string, id: nat, max: nat)
    requires 0 < max && WorldOk(s, max) && AboutToHandOver(s, w, id) && s.ledger.rows[id].retries + 1 < max
    ensures AckedMeanwhile(s, w, id, max)
  {
    var u := w + "0";
    var take, k := TakeOver(s, u, id, max);
    var s1 := AfterEvents(s, take, max);
    var skip := SkipTo(s1, u, id, k, max);
    var s2 := AfterEvents(s1, skip, max);
    var send := SendAndAck(s2, u, id, max);
    EventsConcat(s1, skip, send, max);
    EventsConcat(s, take, skip + send, max);
    OtherRunsAreWithout(take + (skip + send), u, w);
  }

  /** A row marked as sending can be acknowledged by somebody else before it is handed over, and so be
      handed over after its acknowledgement, exactly when it has a retry left. */
  lemma HandedOverAfterAckIffRetryLeft(s: World, w: string, id: nat, max: nat)
    requires 0 < max && WorldOk(s, max) && AboutToHandOver(s, w, id)
    ensures AckedMeanwhile(s, w, id, max) <==> s.ledger.rows[id].retries + 1 < max
  {
    if s.ledger.rows[id].retries + 1 < max {
      OthersCanAck(s, w, id, max);
    } else {
      assert LastAttempt(s, w, id, max) by {
        assert id !in s.acked by {
          assert AckedOk(s.ledger, s.acked);
        }
      }
      forall run | PossibleEvents(s, run, max) && Without(run, w) ensures id !in AfterEvents(s, run, max).acked {
        LastAttemptRun(s, run, w, id, max);
      }
    }
  }

  /** Nobody else touches a worker's tickets: it goes on where it stopped. */
  lemma {:induction false} OwnTicketWaits(s: World, run: seq<Event>, w: string, max: nat)
    requires PossibleEvents(s, run, max) && Without(run, w)
    ensures WorkOf(AfterEvents(s, run, max), w) == WorkOf(s, w)
    decreases |run|
  {
    if run == [] {
    } else {
      assert forall k :: 0 <= k < |run[1..]| ==> run[1..][k] == run[k + 1];
      OwnTicketWaits(Step(s, run[0], max), run[1..], w, max);
    }
  }

  /** A first attempt: the only row is leased and marked as sending. */
  lemma FirstAttempt(item: Item, plan: RoutePlan, max: nat) returns (run: seq<Event>)
    requires 0 < max && RouteStatusForPlan(plan) == ReadyToSend
    ensures PossibleEvents(BEGINNING, run, max)
    ensures var s := AfterEvents(BEGINNING, run, max); AboutToHandOver(s, "w", 1) && s.ledger.rows[1].retries == 0
  {
    var e1, e2 := Around(Enqueue(item, plan)), By("w", TakeBatch(HostEgress, 1, [1], "t", []));
    var e3, e4 := By("w", ReadPlan), By("w", MarkSending([]));
    var s1 := Step(BEGINNING, e1, max);
    assert LeasableIds(s1.ledger.rows) == {1};
    var s2 := Step(s1, e2, max);
    assert WorkOf(s2, "w").todo == [Ticket(1, 0, item)] && HeldBy(s2.ledger.rows, 1, "w");
    RunOfFour(BEGINNING, e1, e2, e3, e4, max);
    run := [e1, e2, e3, e4];
  }

  /** So with a retry limit above one the transport can receive an acknowledged row: here is the run. */
  lemma HandedOverAfterAck(item: Item, plan: RoutePlan, max: nat) returns (run: seq<Event>)
    requires 1 < max && RouteStatusForPlan(plan) == ReadyToSend
    ensures PossibleEvents(BEGINNING, run, max)
    ensures var s := AfterEvents(BEGINNING, run, max);
            && CanDo(s, "w", HandOver(Sent))
            && var n := Do(s, "w", HandOver(Sent), max);
               |n.handoffs| == |s.handoffs| + 1 && n.handoffs[|s.handoffs|].ticket.id in s.acked
  {
    var first := FirstAttempt(item, plan, max);
    var s := AfterEvents(BEGINNING, first, max);
    BeginningIsOk(max);
    EventsKeep(BEGINNING, first, max);
    OthersCanAck(s, "w", 1, max);
    var later :| PossibleEvents(s, later, max) && Without(later, "w") && 1 in AfterEvents(s, later, max).acked;
    OwnTicketWaits(s, later, "w", max);
    EventsConcat(BEGINNING, first, later, max);
    run := first + later;
  }

  // ---------------------------------------------------------------------------------------------
  // A dead row comes back

  /** The only row is ready for a lease after `r` retries, and "w" has nothing to do. */
  predicate ReadyAfter(s: World, plan: RoutePlan, r: nat)
  {
    && s.ledger.rows.Keys == {1} && Leasable(s.ledger.rows[1])
    && s.ledger.rows[1].plan == plan && s.ledger.rows[1].retries == r && WorkOf(s, "w").todo == []
  }

  /** "w" leases the only row and reads its plan. */
  lemma LeaseAndRead(s: World, plan: RoutePlan, r: nat, max: nat) returns (e1: Event, e2: Event)
    requires ReadyAfter(s, plan, r)
    ensures Can(s, e1) && Can(Step(s, e1, max), e2)
    ensures var n := Step(Step(s, e1, max), e2, max);
            && n.ledger.rows.Keys == {1} && WorkOf(n, "w").phase == HasPlan(plan)
            && WorkOf(n, "w").todo != [] && WorkOf(n, "w").todo[0].id == 1
            && n.ledger.rows[1] == LeaseRow(s.ledger.rows[1], "w", "t", [])
  {
    assert LeasableIds(s.ledger.rows) == {1};
    e1, e2 := By("w", TakeBatch(SiteDispatch, 1, [1], "t", [])), By("w", ReadPlan);
    assert WorkOf(Step(s, e1, max), "w").todo == [Ticket(1, |s.ledger.grants|, s.ledger.rows[1].item)];
  }

  /** One retry more: the worker crashes and its lease expires. */
  lemma OneRetryMore(s: World, plan: RoutePlan, r: nat, max: nat) returns (run: seq<Event>)
    requires ReadyAfter(s, plan, r) && r + 1 < max
    ensures PossibleEvents(s, run, max) && ReadyAfter(AfterEvents(s, run, max), plan, r + 1)
  {
    var e1, e2 := LeaseAndRead(s, plan, r, max);
    var e3, e4 := By("w", Crash), Around(RequeueExpired("t" + "0"));
    var s2 := Step(Step(s, e1, max), e2, max);
    var s3 := Step(s2, e3, max);
    AfterText("t");
    assert s3.ledger == s2.ledger && Requeues(s3.ledger.rows[1], "t" + "0", max);
    RunOfFour(s, e1, e2, e3, e4, max);
    run := [e1, e2, e3, e4];
  }

  /** Any number of retries below the limit is reached. */
  lemma {:induction false} RetriesAreReached(item: Item, plan: RoutePlan, r: nat, max: nat) returns (run: seq<Event>)
    requires r < max && RouteStatusForPlan(plan) == ReadyToSend
    ensures PossibleEvents(BEGINNING, run, max) && ReadyAfter(AfterEvents(BEGINNING, run, max), plan, r)
    decreases r
  {
    if r == 0 {
      RunOfOne(BEGINNING, Around(Enqueue(item, plan)), max);
      run := [Around(Enqueue(item, plan))];
    } else {
      var before := RetriesAreReached(item, plan, r - 1, max);
      var more := OneRetryMore(AfterEvents(BEGINNING, before, max), plan, r - 1, max);
      EventsConcat(BEGINNING, before, more, max);
      run := before + more;
    }
  }

  /** The only row is dead, and "w" still holds a ticket whose plan it has read. */
  predicate DeadWithTicket(s: World, plan: RoutePlan)
  {
    && s.ledger.rows.Keys == {1} && s.ledger.rows[1].status == Dead && s.ledger.rows[1].cause == Some(RetryExhausted)
    && HeldBy(s.ledger.rows, 1, "w") && WorkOf(s, "w").phase == HasPlan(plan)
    && WorkOf(s, "w").todo != [] && WorkOf(s, "w").todo[0].id == 1
  }

  lemma ExpiryKillsLastAttempt(s: World, plan: RoutePlan, max: nat) returns (run: seq<Event>)
    requires 0 < max && ReadyAfter(s, plan, max - 1)
    ensures PossibleEvents(s, run, max) && DeadWithTicket(AfterEvents(s, run, max), plan)
  {
    var e1, e2 := LeaseAndRead(s, plan, max - 1, max);
    var e3 := Around(ExhaustExpired("t" + "0"));
    var s2 := Step(Step(s, e1, max), e2, max);
    AfterText("t");
    assert Exhausted(s2.ledger.rows[1], "t" + "0", max);
    RunOfThree(s, e1, e2, e3, max);
    run := [e1, e2, e3];
  }

  /** For every retry limit there is a run in which expiry kills the row on its last attempt, and the worker
      that still holds the ticket, conforming to its procedure, revives it by marking it as sending. */
  lemma ConformingWorkerRevivesDeadRow(item: Item, plan: RoutePlan, max: nat) returns (run: seq<Event>)
    requires 0 < max && RouteStatusForPlan(plan) == ReadyToSend
    ensures PossibleEvents(BEGINNING, run, max)
    ensures var s := AfterEvents(BEGINNING, run, max);
            && 1 in s.ledger.rows && s.ledger.rows[1].status == Dead && s.ledger.rows[1].cause == Some(RetryExhausted)
            && CanDo(s, "w", MarkSending([])) && 1 in Do(s, "w", MarkSending([]), max).ledger.rows
            && Do(s, "w", MarkSending([]), max).ledger.rows[1].status == Sending
  {
    var before := RetriesAreReached(item, plan, max - 1, max);
    var last := ExpiryKillsLastAttempt(AfterEvents(BEGINNING, before, max), plan, max);
    EventsConcat(BEGINNING, before, last, max);
    run := before + last;
  }
}
