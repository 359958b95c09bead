/**
 Replanning queued rows whose route is not ready: the planner is called for each candidate, and a row
 that another worker changed since the candidates were read is left alone.
 */
module RouteReplan {
  import opened Wrappers
  import opened RoutePlanner
  import opened Outbox

  datatype ReplanTally = ReplanTally(scanned: nat, updated: nat, skipped: nat, ready: nat, pending: nat, blocked: nat,
                                     failed: nat)

  /** A candidate as the query returned it: `None` for an envelope that cannot be read. */
  datatype Candidate = Candidate(id: nat, request: Option<Request>)

  // ---------------------------------------------------------------------------------------------
  // Rows

  /** A plan the planner gives for this request, these artifacts and these nodes: sendable, waiting, or blocked. */
  ghost predicate PlannedNow(art: Artifacts, nodes: Nodes, req: Request, plan: RoutePlan)
  {
    && (RouteStatusForPlan(plan) == ReadyToSend ==> PlannedFrom(art, nodes, req, plan))
    && (RouteStatusForPlan(plan) == ReadyToSend <==> OutboundGate(art, nodes, req))
    && (RouteStatusForPlan(plan) == RoutePending <==> Waits(art, nodes, req))
  }

  /** A row that was queued and not ready, after replanning it for its own envelope. */
  ghost predicate ReplannedTo(a: Row, b: Row, c: Candidate, art: Artifacts, nodes: Nodes, now: string)
  {
    && b == a.(route := RouteStatusForPlan(b.plan), plan := b.plan, updated := now)
    && if c.request.Some? then PlannedNow(art, nodes, a.item.request, b.plan) else b.route == RouteBlocked
  }

  /** The envelope a candidate was read with is that of its row. */
  predicate OwnRequest(t: Table, c: Candidate)
  {
    c.request.Some? && c.id in t ==> c.request.value == t[c.id].item.request
  }

  /** Queued, and waiting or blocked. */
  predicate Open(t: Table, id: nat)
  {
    id in t && t[id].status == Queued && (t[id].route == RoutePending || t[id].route == RouteBlocked)
  }

  function IdsOf(cs: seq<Candidate>): seq<nat> { seq(|cs|, i requires 0 <= i < |cs| => cs[i].id) }

  lemma NextIsOther(cs: seq<Candidate>, k: nat)
    requires k < |cs| && Distinct(IdsOf(cs))
    ensures cs[k].id !in IdsOf(cs[..k])
  {
    forall i | 0 <= i < k ensures IdsOf(cs[..k])[i] != cs[k].id {
      assert IdsOf(cs)[i] != IdsOf(cs)[k];
    }
  }

  /** Each candidate that may be replanned is, and all other rows stay as they were. */
  ghost predicate ReplannedRows(t: Table, n: Table, cs: seq<Candidate>, art: Artifacts, nodes: Nodes, now: string)
  {
    && n.Keys == t.Keys
    && (forall k :: 0 <= k < |cs| && Open(t, cs[k].id) ==>
          ReplannedTo(t[cs[k].id], n[cs[k].id], cs[k], art, nodes, now))
    && (forall id :: id in t && (id !in IdsOf(cs) || !Open(t, id)) ==> n[id] == t[id])
  }

  // ---------------------------------------------------------------------------------------------
  // Counters

  /** Of the candidates, those that were replanned to a status. */
  function CountOf(t: Table, n: Table, cs: seq<Candidate>, s: RouteStatus): nat
  {
    if cs == [] then 0
    else
      var c := cs[|cs| - 1];
      var counts := c.request.Some? && Open(t, c.id) && c.id in n && n[c.id].route == s;
      CountOf(t, n, cs[..|cs| - 1], s) + if counts then 1 else 0
  }

  /** Those that could be read, but were no longer queued and not ready. */
  function CountSkipped(t: Table, cs: seq<Candidate>): nat
  {
    if cs == [] then 0
    else
      var c := cs[|cs| - 1];
      CountSkipped(t, cs[..|cs| - 1]) + if c.request.Some? && !Open(t, c.id) then 1 else 0
  }

  /** Those that could not be read, or for which planning gave up. */
  function CountFailed(cs: seq<Candidate>, art: Artifacts, nodes: Nodes): nat
  {
    if cs == [] then 0
    else
      var c := cs[|cs| - 1];
      var fails := c.request.None? || GivesUp(art, nodes, c.request.value);
      CountFailed(cs[..|cs| - 1], art, nodes) + if fails then 1 else 0
  }

  predicate TallyFits(r: ReplanTally, t: Table, n: Table, cs: seq<Candidate>, art: Artifacts, nodes: Nodes)
  {
    && r.scanned == |cs| && r.updated == r.ready + r.pending + r.blocked
    && r.ready == CountOf(t, n, cs, ReadyToSend) && r.pending == CountOf(t, n, cs, RoutePending)
    && r.blocked == CountOf(t, n, cs, RouteBlocked)
    && r.skipped == CountSkipped(t, cs) && r.failed == CountFailed(cs, art, nodes)
  }

  lemma {:induction false} CountFrame(t: Table, n: Table, m: Table, cs: seq<Candidate>, s: RouteStatus)
    requires m.Keys == n.Keys && forall id :: id in n && id in IdsOf(cs) ==> m[id] == n[id]
    ensures CountOf(t, m, cs, s) == CountOf(t, n, cs, s)
  {
    if cs != [] {
      var front, c := cs[..|cs| - 1], cs[|cs| - 1];
      assert IdsOf(cs) == IdsOf(front) + [c.id];
      CountFrame(t, n, m, front, s);
    }
  }

  // ---------------------------------------------------------------------------------------------
  // One candidate more

  /** What one pass of the loop does to the rows and the counters. */
  ghost predicate OnePass(n: Table, m: Table, c: Candidate, plan: RoutePlan, now: string, r: ReplanTally,
                          q: ReplanTally, art: Artifacts, nodes: Nodes)
  {
    var failed := c.request.None? || GivesUp(art, nodes, c.request.value);
    var scanned := r.(scanned := r.scanned + 1, failed := r.failed + if failed then 1 else 0);
    && (if c.request.Some? then PlannedNow(art, nodes, c.request.value, plan)
        else RouteStatusForPlan(plan) == RouteBlocked)
    && m == Replanned(n, c.id, plan, now)
    && q == if c.request.None? then scanned
            else if !Replannable(n, c.id) then scanned.(skipped := r.skipped + 1)
            else CountRoute(scanned, RouteStatusForPlan(plan))
  }

  function CountRoute(r: ReplanTally, route: RouteStatus): ReplanTally
  {
    match route
    case ReadyToSend => r.(updated := r.updated + 1, ready := r.ready + 1)
    case RouteBlocked => r.(updated := r.updated + 1, blocked := r.blocked + 1)
    case RoutePending => r.(updated := r.updated + 1, pending := r.pending + 1)
  }

  lemma OnePassRows(t: Table, n: Table, m: Table, cs: seq<Candidate>, c: Candidate, plan: RoutePlan, now: string,
                    r: ReplanTally, q: ReplanTally, art: Artifacts, nodes: Nodes)
    requires ReplannedRows(t, n, cs, art, nodes, now) && OnePass(n, m, c, plan, now, r, q, art, nodes)
    requires c.id !in IdsOf(cs) && OwnRequest(t, c)
    ensures ReplannedRows(t, m, cs + [c], art, nodes, now)
  {
    assert IdsOf(cs + [c]) == IdsOf(cs) + [c.id];
    forall k | 0 <= k < |cs| ensures cs[k].id != c.id {
      assert IdsOf(cs)[k] == cs[k].id;
    }
  }

  lemma CountGrows(t: Table, n: Table, m: Table, cs: seq<Candidate>, c: Candidate, s: RouteStatus)
    requires m.Keys == n.Keys && (forall id :: id in n && id != c.id ==> m[id] == n[id]) && c.id !in IdsOf(cs)
    ensures CountOf(t, m, cs + [c], s) == CountOf(t, n, cs, s) +
              if c.request.Some? && Open(t, c.id) && c.id in m && m[c.id].route == s then 1 else 0
  {
    CountFrame(t, n, m, cs, s);
    assert (cs + [c])[..|cs|] == cs;
  }

  lemma OnePassCounts(t: Table, n: Table, m: Table, cs: seq<Candidate>, c: Candidate, plan: RoutePlan, now: string,
                      r: ReplanTally, q: ReplanTally, art: Artifacts, nodes: Nodes)
    requires n.Keys == t.Keys && (c.id in t ==> n[c.id] == t[c.id]) && OnePass(n, m, c, plan, now, r, q, art, nodes)
    requires c.id !in IdsOf(cs) && TallyFits(r, t, n, cs, art, nodes)
    ensures TallyFits(q, t, m, cs + [c], art, nodes)
  {
    CountGrows(t, n, m, cs, c, ReadyToSend);
    CountGrows(t, n, m, cs, c, RoutePending);
    CountGrows(t, n, m, cs, c, RouteBlocked);
    assert (cs + [c])[..|cs|] == cs;
  }

  // ---------------------------------------------------------------------------------------------
  // The worker

  /** The plan for one readable candidate; planning errors become a plan that is blocked. */
  method PlanAgain(art: Artifacts, nodes: Nodes, req: Request) returns (plan: RoutePlan, failed: bool)
    ensures PlannedNow(art, nodes, req, plan)
    ensures failed <==> GivesUp(art, nodes, req)
    ensures failed ==> RouteStatusForPlan(plan) == RouteBlocked && plan.routeClass == req.delivery.routeClass
  {
    var planning := PlanOutboundRoute(art, nodes, req);
    if planning.Refused? {
      return ReplanError(req.delivery.routeClass), true;
    }
    return planning.plan, false;
  }

  /** The loop body of `ReplanQueuedRoutes`. */
  method ReplanOne(q: Queue, art: Artifacts, nodes: Nodes, candidate: Candidate, now: string, before: ReplanTally)
    returns (result: ReplanTally, ghost plan: RoutePlan)
    requires q.Valid()
    modifies q`rows
    ensures q.Valid() && OnePass(old(q.rows), q.rows, candidate, plan, now, before, result, art, nodes)
  {
    result := before.(scanned := before.scanned + 1);
    if candidate.request.None? {
      result := result.(failed := result.failed + 1);
      plan := ReplanError(NoClass);
      var _ := q.UpdateQueueRoutePlan(candidate.id, ReplanError(NoClass), now);
      return;
    }
    var planned, failed := PlanAgain(art, nodes, candidate.request.value);
    plan := planned;
    if failed {
      result := result.(failed := result.failed + 1);
    }
    var updated := q.UpdateQueueRoutePlan(candidate.id, planned, now);
    if updated {
      result := CountRoute(result, RouteStatusForPlan(planned));
    } else {
      result := result.(skipped := result.skipped + 1);
    }
  }

  /** `ReplanQueuedRoutes`: each candidate that is still queued and not ready gets the plan of now, which is ready
      exactly if the planner's gate lets its envelope through; one that cannot be read is blocked; and no other row
      changes. The counters are the numbers of candidates with each outcome. The query never returns an id twice. */
  method ReplanQueuedRoutes(q: Queue, art: Artifacts, nodes: Nodes, candidates: seq<Candidate>, now: string)
    returns (result: ReplanTally)
    requires q.Valid() && Distinct(IdsOf(candidates))
    requires forall c :: c in candidates ==> OwnRequest(q.rows, c)
    modifies q`rows
    ensures q.Valid() && ReplannedRows(old(q.rows), q.rows, candidates, art, nodes, now)
    ensures TallyFits(result, old(q.rows), q.rows, candidates, art, nodes)
  {
    ghost var before := q.rows;
    result := ReplanTally(0, 0, 0, 0, 0, 0, 0);
    assert candidates[..0] == [];
    for k := 0 to |candidates|
      invariant q.Valid() && ReplannedRows(before, q.rows, candidates[..k], art, nodes, now)
      invariant TallyFits(result, before, q.rows, candidates[..k], art, nodes)
    {
      ghost var rows, r := q.rows, result;
      NextIsOther(candidates, k);
      ghost var plan;
      result, plan := ReplanOne(q, art, nodes, candidates[k], now, result);
      OnePassRows(before, rows, q.rows, candidates[..k], candidates[k], plan, now, r, result, art, nodes);
      OnePassCounts(before, rows, q.rows, candidates[..k], candidates[k], plan, now, r, result, art, nodes);
      assert candidates[..k + 1] == candidates[..k] + [candidates[k]];
    }
    assert candidates[..|candidates|] == candidates;
  }
}
