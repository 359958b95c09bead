/**
 What holds over every run of the workers: acknowledged rows stay acknowledged, handoffs are paid for
 by leases, plans passed the gate, and exactly when a row can be handed over after its acknowledgement.
 */
module OutboxRuns {
  import opened Wrappers
  import opened RoutePlanner
  import opened Outbox
  import opened OutboxCalls
  import opened OutboxWorkers

  predicate PossibleEvents(s: World, run: seq<Event>, max: nat)
    decreases |run|
  {
    run == [] || (Can(s, run[0]) && PossibleEvents(Step(s, run[0], max), run[1..], max))
  }

  function AfterEvents(s: World, run: seq<Event>, max: nat): World
    requires PossibleEvents(s, run, max)
    decreases |run|
  {
    if run == [] then s else AfterEvents(Step(s, run[0], max), run[1..], max)
  }

  lemma {:induction false} EventsConcat(s: World, a: seq<Event>, b: seq<Event>, max: nat)
    requires PossibleEvents(s, a, max) && PossibleEvents(AfterEvents(s, a, max), b, max)
    ensures PossibleEvents(s, a + b, max) && AfterEvents(s, a + b, max) == AfterEvents(AfterEvents(s, a, max), b, max)
    decreases |a|
  {
    if a == [] {
      assert a + b == b;
    } else {
      EventsConcat(Step(s, a[0], max), a[1..], b, max);
      assert (a + b)[0] == a[0] && (a + b)[1..] == a[1..] + b;
    }
  }

  lemma Prepend(s: World, e: Event, run: seq<Event>, max: nat)
    requires Can(s, e) && PossibleEvents(Step(s, e, max), run, max)
    ensures PossibleEvents(s, [e] + run, max)
    ensures AfterEvents(s, [e] + run, max) == AfterEvents(Step(s, e, max), run, max)
  {
    assert ([e] + run)[1..] == run;
  }

  lemma RunOfOne(s: World, e: Event, max: nat)
    requires Can(s, e)
    ensures PossibleEvents(s, [e], max) && AfterEvents(s, [e], max) == Step(s, e, max)
  {
    Prepend(s, e, [], max);
    assert [e] + [] == [e];
  }

  lemma RunOfTwo(s: World, e1: Event, e2: Event, max: nat)
    requires Can(s, e1) && Can(Step(s, e1, max), e2)
    ensures PossibleEvents(s, [e1, e2], max) && AfterEvents(s, [e1, e2], max) == Step(Step(s, e1, max), e2, max)
  {
    RunOfOne(Step(s, e1, max), e2, max);
    Prepend(s, e1, [e2], max);
    assert [e1] + [e2] == [e1, e2];
  }

  lemma RunOfThree(s: World, e1: Event, e2: Event, e3: Event, max: nat)
    requires Can(s, e1) && Can(Step(s, e1, max), e2) && Can(Step(Step(s, e1, max), e2, max), e3)
    ensures PossibleEvents(s, [e1, e2, e3], max)
    ensures AfterEvents(s, [e1, e2, e3], max) == Step(Step(Step(s, e1, max), e2, max), e3, max)
  {
    RunOfTwo(Step(s, e1, max), e2, e3, max);
    Prepend(s, e1, [e2, e3], max);
    assert [e1] + [e2, e3] == [e1, e2, e3];
  }

  lemma RunOfFour(s: World, e1: Event, e2: Event, e3: Event, e4: Event, max: nat)
    requires Can(s, e1) && Can(Step(s, e1, max), e2) && Can(Step(Step(s, e1, max), e2, max), e3)
    requires Can(Step(Step(Step(s, e1, max), e2, max), e3, max), e4)
    ensures PossibleEvents(s, [e1, e2, e3, e4], max)
    ensures AfterEvents(s, [e1, e2, e3, e4], max) == Step(Step(Step(Step(s, e1, max), e2, max), e3, max), e4, max)
  {
    RunOfThree(Step(s, e1, max), e2, e3, e4, max);
    Prepend(s, e1, [e2, e3, e4], max);
    assert [e1] + [e2, e3, e4] == [e1, e2, e3, e4];
  }

  lemma {:induction false} EventsKeep(s: World, run: seq<Event>, max: nat)
    requires 0 < max && WorldOk(s, max) && PossibleEvents(s, run, max)
    ensures WorldOk(AfterEvents(s, run, max), max)
    decreases |run|
  {
    if run == [] {
    } else {
      StepKeeps(s, run[0], max);
      EventsKeep(Step(s, run[0], max), run[1..], max);
    }
  }

  lemma BeginningIsOk(max: nat)
    requires 0 < max
    ensures WorldOk(BEGINNING, max)
  {
    EmptyHolds(max);
  }

  // ---------------------------------------------------------------------------------------------
  // Acknowledged rows

  lemma AckedStep(s: World, e: Event, max: nat, id: nat)
    requires WorldOk(s, max) && Can(s, e) && id in s.acked
    ensures var n := Step(s, e, max);
            && id in n.acked && id in n.ledger.rows && n.ledger.rows[id] == s.ledger.rows[id]
            && LeaseCount(n.ledger, id) == LeaseCount(s.ledger, id)
  {
    match e
    case Around(c) => AckedRowStays(s.ledger, c, max, id);
    case By(w, a) =>
      assert WorkOk(s, w, WorkOf(s, w));
      var call := CallOf(s, w, a);
      if call.Some? {
        AckedRowStays(s.ledger, call.value, max, id);
      }
  }

  lemma {:induction false} AckedStays(s: World, run: seq<Event>, max: nat, id: nat)
    requires 0 < max && WorldOk(s, max) && PossibleEvents(s, run, max) && id in s.acked
    ensures var n := AfterEvents(s, run, max);
            && id in n.acked && id in n.ledger.rows && n.ledger.rows[id] == s.ledger.rows[id]
            && LeaseCount(n.ledger, id) == LeaseCount(s.ledger, id)
    decreases |run|
  {
    if run == [] {
    } else {
      StepKeeps(s, run[0], max);
      AckedStep(s, run[0], max, id);
      AckedStays(Step(s, run[0], max), run[1..], max, id);
    }
  }

  /** Once a row was acknowledged, no continuation of any run changes it, leases it or deletes it. */
  lemma AcknowledgedForGood(run: seq<Event>, later: seq<Event>, max: nat, id: nat)
    requires 0 < max && PossibleEvents(BEGINNING, run, max)
    requires var s := AfterEvents(BEGINNING, run, max); id in s.acked && PossibleEvents(s, later, max)
    ensures var s := AfterEvents(BEGINNING, run, max);
            var n := AfterEvents(s, later, max);
            && id in s.ledger.rows && s.ledger.rows[id].status == Acked
            && id in n.ledger.rows && n.ledger.rows[id] == s.ledger.rows[id]
            && LeaseCount(n.ledger, id) == LeaseCount(s.ledger, id)
  {
    BeginningIsOk(max);
    EventsKeep(BEGINNING, run, max);
    AckedStays(AfterEvents(BEGINNING, run, max), later, max, id);
  }

  // ---------------------------------------------------------------------------------------------
  // Stale workers

  /** A worker whose lease went to another one changes nothing about the row, whatever it still does. */
  lemma StaleWorkerChangesNothing(s: World, w: string, a: Action, max: nat, id: nat, holder: string)
    requires WorldOk(s, max) && CanDo(s, w, a) && HeldBy(s.ledger.rows, id, holder) && holder != w
    ensures var n := Do(s, w, a, max); id in n.ledger.rows && n.ledger.rows[id] == s.ledger.rows[id]
    ensures id in Do(s, w, a, max).acked ==> id in s.acked
  {
    var call := CallOf(s, w, a);
    if call.Some? {
      OnlyTheHolderChanges(s.ledger, call.value, max, id, holder);
    }
  }

  /** Only such a worker can hand over a row that is acknowledged. */
  lemma LateHandoffIsStale(s: World, w: string, outcome: Outcome, max: nat)
    requires WorldOk(s, max) && CanDo(s, w, HandOver(outcome)) && WorkOf(s, w).todo[0].id in s.acked
    ensures !HeldBy(s.ledger.rows, WorkOf(s, w).todo[0].id, w)
  {
    assert WorkOk(s, w, WorkOf(s, w));
  }

  // ---------------------------------------------------------------------------------------------
  // Every handoff spends a lease

  function HandoffsOf(handoffs: seq<Handoff>, id: nat): set<nat>
  {
    set h | 0 <= h < |handoffs| && handoffs[h].ticket.id == id
  }

  lemma {:induction false} NoMoreThanLeases(l: Ledger, handoffs: seq<Handoff>, id: nat, some: set<nat>,
                                            leases: set<nat>)
    requires HandoffsOk(l, handoffs) && some <= HandoffsOf(handoffs, id)
    requires forall h :: h in some ==> handoffs[h].ticket.lease in leases
    ensures |some| <= |leases|
    decreases |some|
  {
    if some == {} {
    } else {
      var h :| h in some;
      NoMoreThanLeases(l, handoffs, id, some - {h}, leases - {handoffs[h].ticket.lease});
    }
  }

  lemma HandoffsNeedLeases(s: World, max: nat, id: nat)
    requires WorldOk(s, max)
    ensures |HandoffsOf(s.handoffs, id)| <= LeaseCount(s.ledger, id) <= max
  {
    forall h | h in HandoffsOf(s.handoffs, id) ensures s.handoffs[h].ticket.lease in GrantsOf(s.ledger.grants, id) {
      assert IsGrant(s.ledger, s.handoffs[h].ticket, s.handoffs[h].worker);
    }
    NoMoreThanLeases(s.ledger, s.handoffs, id, HandoffsOf(s.handoffs, id), GrantsOf(s.ledger.grants, id));
  }

  /** In every run every row is handed to a transport at most as often as the retry limit says. */
  lemma HandedOverAtMostMaxTimes(run: seq<Event>, max: nat, id: nat)
    requires 0 < max && PossibleEvents(BEGINNING, run, max)
    ensures |HandoffsOf(AfterEvents(BEGINNING, run, max).handoffs, id)| <= max
  {
    BeginningIsOk(max);
    EventsKeep(BEGINNING, run, max);
    HandoffsNeedLeases(AfterEvents(BEGINNING, run, max), max, id);
  }

  // ---------------------------------------------------------------------------------------------
  // Plans reach a transport only through the planner's gate

  /** The planner's answers for a request, and the error plan of a failed replan, which is never ready. */
  ghost predicate FromPlanner(req: Request, plan: RoutePlan)
  {
    RouteStatusForPlan(plan) == ReadyToSend ==>
      exists art, nodes :: ValidNodes(nodes) && PlannedFrom(art, nodes, req, plan)
  }

  /** Rows get plans the planner made for their own envelope. */
  ghost predicate PlansInCall(l: Ledger, c: Call)
  {
    && (c.Enqueue? ==> FromPlanner(c.item.request, c.plan))
    && (c.Replan? && c.id in l.rows ==> FromPlanner(l.rows[c.id].item.request, c.plan))
  }

  ghost predicate PlansIn(s: World, run: seq<Event>, max: nat)
    requires PossibleEvents(s, run, max)
    decreases |run|
  {
    run == [] || ((run[0].Around? ==> PlansInCall(s.ledger, run[0].call))
                  && PlansIn(Step(s, run[0], max), run[1..], max))
  }

  ghost predicate RowPlans(l: Ledger)
  {
    forall id :: id in l.rows ==> FromPlanner(l.rows[id].item.request, l.rows[id].plan)
  }

  /** The ticket carries the envelope of its row. */
  predicate TicketFits(l: Ledger, t: Ticket)
  {
    t.id < l.nextId && (t.id in l.rows ==> l.rows[t.id].item == t.item)
  }

  ghost predicate WorkPlans(l: Ledger, work: Work)
  {
    && (forall k :: 0 <= k < |work.todo| ==> TicketFits(l, work.todo[k]))
    && (work.todo != [] && (work.phase.HasPlan? || work.phase.Marked?) ==>
          FromPlanner(work.todo[0].item.request, work.phase.plan))
  }

  ghost predicate HandoffPlans(l: Ledger, handoffs: seq<Handoff>)
  {
    forall h :: 0 <= h < |handoffs| ==>
      TicketFits(l, handoffs[h].ticket) && FromPlanner(handoffs[h].ticket.item.request, handoffs[h].plan)
  }

  ghost predicate PlansOk(s: World)
  {
    && RowPlans(s.ledger)
    && (forall w :: WorkPlans(s.ledger, WorkOf(s, w)))
    && HandoffPlans(s.ledger, s.handoffs)
  }

  /** A row's plan is the one it had, or the one the call brought for it. */
  lemma PlanComesFromCall(l: Ledger, c: Call, max: nat, id: nat)
    requires Inv(l, max) && id in After(l, c, max).rows
    ensures var r := After(l, c, max).rows[id];
            || (id in l.rows && r.item == l.rows[id].item && r.plan == l.rows[id].plan)
            || (c.Enqueue? && r.item == c.item && r.plan == c.plan)
            || (c.Replan? && c.id == id && id in l.rows && r.item == l.rows[id].item && r.plan == c.plan)
  {
  }

  lemma RowPlansKept(l: Ledger, c: Call, max: nat)
    requires Inv(l, max) && RowPlans(l) && PlansInCall(l, c)
    ensures RowPlans(After(l, c, max))
  {
    var n := After(l, c, max);
    forall id | id in n.rows ensures FromPlanner(n.rows[id].item.request, n.rows[id].plan) {
      PlanComesFromCall(l, c, max, id);
    }
  }

  lemma TicketsStayFit(l: Ledger, c: Call, max: nat, t: Ticket)
    requires Inv(l, max) && TicketFits(l, t)
    ensures TicketFits(After(l, c, max), t)
  {
    RowIdentity(l, c, max, t.id);
  }

  /** The call itself leaves plans, tickets and handoffs in order. */
  lemma PlansKeptByCall(s: World, c: Call, max: nat)
    requires Inv(s.ledger, max) && PlansOk(s) && PlansInCall(s.ledger, c)
    ensures PlansOk(s.(ledger := After(s.ledger, c, max)))
  {
    var n := s.(ledger := After(s.ledger, c, max));
    RowPlansKept(s.ledger, c, max);
    forall w ensures WorkPlans(n.ledger, WorkOf(n, w)) {
      var work := WorkOf(s, w);
      assert WorkPlans(s.ledger, work);
      forall k | 0 <= k < |work.todo| ensures TicketFits(n.ledger, work.todo[k]) {
        TicketsStayFit(s.ledger, c, max, work.todo[k]);
      }
    }
    forall h | 0 <= h < |s.handoffs| ensures TicketFits(n.ledger, s.handoffs[h].ticket) {
      TicketsStayFit(s.ledger, c, max, s.handoffs[h].ticket);
    }
  }

  lemma BatchPlans(s: World, w: string, a: Action, max: nat)
    requires WorldOk(s, max) && CanDo(s, w, a) && a.TakeBatch?
    ensures WorkPlans(s.ledger, WorkAfter(s, w, a))
  {
    forall k | 0 <= k < |a.ids| ensures a.ids[k] in s.ledger.rows && a.ids[k] < s.ledger.nextId {
      assert a.ids[k] in LeasableIds(s.ledger.rows);
    }
  }

  /** The work of the acting worker: its tickets carry envelopes, the plan it read is that of its row. */
  lemma OwnPlans(s: World, w: string, a: Action, max: nat)
    requires WorldOk(s, max) && PlansOk(s) && CanDo(s, w, a)
    ensures WorkPlans(s.ledger, WorkAfter(s, w, a))
  {
    assert WorkPlans(s.ledger, WorkOf(s, w));
    if a.TakeBatch? {
      BatchPlans(s, w, a, max);
    }
  }

  /** An action without its call. */
  function DoneButForCall(s: World, w: string, a: Action, max: nat): World
    requires CanDo(s, w, a)
  {
    s.(workers := s.workers[w := WorkAfter(s, w, a)], handoffs := Do(s, w, a, max).handoffs)
  }

  lemma DoneThenCalled(s: World, w: string, a: Action, max: nat)
    requires CanDo(s, w, a)
    ensures var n, call, m := Do(s, w, a, max), CallOf(s, w, a), DoneButForCall(s, w, a, max);
            && n == m.(ledger := n.ledger).(acked := n.acked)
            && n.ledger == if call.Some? then After(m.ledger, call.value, max) else m.ledger
  {
  }

  lemma PlansKeptByAction(s: World, w: string, a: Action, max: nat)
    requires WorldOk(s, max) && PlansOk(s) && CanDo(s, w, a)
    ensures PlansOk(DoneButForCall(s, w, a, max))
  {
    var n := DoneButForCall(s, w, a, max);
    OwnPlans(s, w, a, max);
    assert WorkPlans(s.ledger, WorkOf(s, w));
    forall v ensures WorkPlans(n.ledger, WorkOf(n, v)) {
      assert WorkPlans(s.ledger, WorkOf(s, v));
    }
  }

  lemma AcksMakeNoPlans(s: World, acked: set<nat>)
    requires PlansOk(s)
    ensures PlansOk(s.(acked := acked))
  {
    forall v ensures WorkPlans(s.ledger, WorkOf(s.(acked := acked), v)) {
      assert WorkPlans(s.ledger, WorkOf(s, v));
    }
  }

  lemma WorkersDoNotPlan(s: World, w: string, a: Action)
    requires CanDo(s, w, a) && CallOf(s, w, a).Some?
    ensures !CallOf(s, w, a).value.Enqueue? && !CallOf(s, w, a).value.Replan?
  {
  }

  lemma PlainCallKeepsPlans(s: World, call: Option<Call>, max: nat)
    requires Inv(s.ledger, max) && PlansOk(s) && (call.Some? ==> !call.value.Enqueue? && !call.value.Replan?)
    ensures PlansOk(s.(ledger := if call.Some? then After(s.ledger, call.value, max) else s.ledger))
  {
    if call.Some? {
      PlansKeptByCall(s, call.value, max);
    } else {
      assert s.(ledger := s.ledger) == s;
    }
  }

  lemma WorkerKeepsPlans(s: World, w: string, a: Action, max: nat)
    requires WorldOk(s, max) && PlansOk(s) && CanDo(s, w, a)
    ensures PlansOk(Do(s, w, a, max))
  {
    var m, n := DoneButForCall(s, w, a, max), Do(s, w, a, max);
    PlansKeptByAction(s, w, a, max);
    if CallOf(s, w, a).Some? {
      WorkersDoNotPlan(s, w, a);
    }
    PlainCallKeepsPlans(m, CallOf(s, w, a), max);
    DoneThenCalled(s, w, a, max);
    AcksMakeNoPlans(m.(ledger := n.ledger), n.acked);
  }

  lemma PlansKept(s: World, e: Event, max: nat)
    requires WorldOk(s, max) && PlansOk(s) && Can(s, e)
    requires e.Around? ==> PlansInCall(s.ledger, e.call)
    ensures PlansOk(Step(s, e, max))
  {
    match e
    case Around(c) => PlansKeptByCall(s, c, max);
    case By(w, a) => WorkerKeepsPlans(s, w, a, max);
  }

  lemma {:induction false} PlansKeptInRun(s: World, run: seq<Event>, max: nat)
    requires 0 < max && WorldOk(s, max) && PlansOk(s) && PossibleEvents(s, run, max) && PlansIn(s, run, max)
    ensures PlansOk(AfterEvents(s, run, max))
    decreases |run|
  {
    if run == [] {
    } else {
      StepKeeps(s, run[0], max);
      PlansKept(s, run[0], max);
      PlansKeptInRun(Step(s, run[0], max), run[1..], max);
    }
  }

  /** In every run in which rows get the planner's answers for their own envelopes, each plan handed to
      a transport is a ready plan for the very envelope handed over, with the bearer and intent of its class;
      on a policy route it is therefore safe for it. */
  lemma HandoffsAreGated(run: seq<Event>, max: nat, h: nat)
    requires 0 < max && PossibleEvents(BEGINNING, run, max) && PlansIn(BEGINNING, run, max)
    requires h < |AfterEvents(BEGINNING, run, max).handoffs|
    ensures var s := AfterEvents(BEGINNING, run, max);
            var ticket, plan := s.handoffs[h].ticket, s.handoffs[h].plan;
            var req := ticket.item.request;
            && (ticket.id in s.ledger.rows ==> s.ledger.rows[ticket.id].item == ticket.item)
            && exists art, nodes ::
                 && PlannedFrom(art, nodes, req, plan)
                 && ExpectedBearer(nodes, req, plan) && ExpectedIntent(art, req, plan.intent)
                 && (req.toNode && PolicyClass(plan.routeClass).Some? ==>
                       SafeRoute(art, req, plan, PolicyClass(plan.routeClass).value))
  {
    BeginningIsOk(max);
    EventsKeep(BEGINNING, run, max);
    PlansKeptInRun(BEGINNING, run, max);
    var s := AfterEvents(BEGINNING, run, max);
    var ticket, plan := s.handoffs[h].ticket, s.handoffs[h].plan;
    assert PlanFits(s.ledger, ticket.id, plan) && TicketFits(s.ledger, ticket);
    var req := ticket.item.request;
    var art, nodes :| ValidNodes(nodes) && PlannedFrom(art, nodes, req, plan);
    ReadyPlanIsExpected(art, nodes, req, plan);
    if req.toNode && PolicyClass(plan.routeClass).Some? {
      ReadyRouteIsSafe(art, nodes, req, plan);
    }
  }
}
