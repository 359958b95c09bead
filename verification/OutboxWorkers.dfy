/**
 Workers with distinct ids that run either dispatch procedure over one outbox, every database call an
 atomic step, interleaved with enqueueing, lease expiry, replanning and compaction at any point.
 A ticket is one lease a worker holds in memory; a worker that crashes forgets its tickets.
 */
module OutboxWorkers {
  import opened Wrappers
  import opened RoutePlanner
  import opened Outbox
  import opened OutboxCalls

  /** `SiteDispatch` is the dispatch worker of the router, `HostEgress` the host agent's. */
  datatype Kind = SiteDispatch | HostEgress

  datatype Outcome = Sent | Acknowledged | RetryLater(why: Cause) | Permanent(why: Cause) | Unknown(why: Cause)

  /** How far the first ticket has come. */
  datatype Phase = Start | HasPlan(plan: RoutePlan) | Marked(plan: RoutePlan) | Handed(outcome: Outcome) | AckPending

  /** A lease as the router returns it: row, number of the lease, and the row's own envelope. */
  datatype Ticket = Ticket(id: nat, lease: nat, item: Item)

  datatype Work = Work(kind: Kind, todo: seq<Ticket>, phase: Phase)

  datatype Handoff = Handoff(ticket: Ticket, worker: string, plan: RoutePlan)

  /** `acked` are the rows for which an acknowledgement was written. */
  datatype World = World(ledger: Ledger, workers: map<string, Work>, handoffs: seq<Handoff>, acked: set<nat>)

  const BEGINNING := World(EMPTY, map[], [], {})

  const IDLE := Work(SiteDispatch, [], Start)

  function WorkOf(s: World, w: string): Work { if w in s.workers then s.workers[w] else IDLE }

  datatype Action =
    | TakeBatch(kind: Kind, limit: nat, ids: seq<nat>, until: string, now: string)
    | ReadPlan
    | MarkSending(now: string)
    | EncodeFails(now: string)
    | HandOver(outcome: Outcome)
    | Finish(now: string)
    | FinishAck(now: string)
    | GiveUp
    | Crash

  datatype Event = By(worker: string, action: Action) | Around(call: Call)

  // ---------------------------------------------------------------------------------------------
  // One action of a worker

  predicate CanDo(s: World, w: string, a: Action)
  {
    var work := WorkOf(s, w);
    match a
    case TakeBatch(kind, limit, ids, until, now) => w != "" && work.todo == [] && IsBatch(s.ledger.rows, limit, ids)
    case ReadPlan => work.todo != [] && work.phase.Start?
    case MarkSending(now) => work.todo != [] && work.phase.HasPlan?
    case EncodeFails(now) => work.todo != [] && work.phase.Marked? && work.kind == HostEgress
    case HandOver(outcome) => work.todo != [] && work.phase.Marked?
    case Finish(now) => work.todo != [] && work.phase.Handed?
    case FinishAck(now) => work.todo != [] && work.phase.AckPending?
    case GiveUp => work.todo != []
    case Crash => true
  }

  /** What the two procedures write for each outcome: `dispatchLease` of the site, `finishDispatch` of the host. */
  function FinishCall(kind: Kind, id: nat, w: string, outcome: Outcome, now: string): Option<Call>
  {
    match outcome
    case Sent => Some(Update(id, w, SentOk, None, now))
    case Acknowledged => Some(Update(id, w, if kind == SiteDispatch then Acked else SentOk, None, now))
    case RetryLater(why) => Some(Retry(id, w, why, now))
    case Permanent(why) => Some(Update(id, w, Dead, Some(why), now))
    case Unknown(why) => if kind == SiteDispatch then Some(Retry(id, w, why, now)) else None
  }

  /** The outbox call an action makes, if any. A plan that is missing because the row is gone makes the
      site call `RetryOutbound`, which then finds no row either, so `ReadPlan` needs no call. */
  function CallOf(s: World, w: string, a: Action): Option<Call>
    requires CanDo(s, w, a)
  {
    var work := WorkOf(s, w);
    match a
    case TakeBatch(kind, limit, ids, until, now) => Some(Call.Lease(limit, ids, w, until, now))
    case MarkSending(now) => Some(Update(work.todo[0].id, w, Sending, None, now))
    case EncodeFails(now) => Some(Update(work.todo[0].id, w, Dead, Some(EncodeFailed), now))
    case Finish(now) => FinishCall(work.kind, work.todo[0].id, w, work.phase.outcome, now)
    case FinishAck(now) => Some(Update(work.todo[0].id, w, Acked, None, now))
    case _ => None
  }

  function Tickets(rows: Table, ids: seq<nat>, from: nat): seq<Ticket>
    requires forall id :: id in ids ==> id in rows
  {
    seq(|ids|, i requires 0 <= i < |ids| => Ticket(ids[i], from + i, rows[ids[i]].item))
  }

  lemma BatchIsInTable(t: Table, limit: nat, ids: seq<nat>)
    requires IsBatch(t, limit, ids)
    ensures forall id :: id in ids ==> id in t
  {
    forall id | id in ids ensures id in t {
      assert id in LeasableIds(t);
    }
  }

  function Next(work: Work): Work { if work.todo == [] then work else Work(work.kind, work.todo[1..], Start) }

  function Proceed(work: Work, ok: bool, phase: Phase): Work { if ok then work.(phase := phase) else Next(work) }

  function WorkAfter(s: World, w: string, a: Action): Work
    requires CanDo(s, w, a)
  {
    var work := WorkOf(s, w);
    var rows := s.ledger.rows;
    match a
    case TakeBatch(kind, limit, ids, until, now) =>
      BatchIsInTable(rows, limit, ids);
      Work(kind, Tickets(rows, ids, |s.ledger.grants|), Start)
    case ReadPlan =>
      var id := work.todo[0].id;
      if id in rows then work.(phase := HasPlan(rows[id].plan)) else Next(work)
    case MarkSending(now) => Proceed(work, HeldBy(rows, work.todo[0].id, w), Marked(work.phase.plan))
    case HandOver(outcome) => work.(phase := Handed(outcome))
    case Finish(now) =>
      var acked := work.kind == HostEgress && work.phase.outcome.Acknowledged? && HeldBy(rows, work.todo[0].id, w);
      Proceed(work, acked, AckPending)
    case Crash => IDLE
    case _ => Next(work)
  }

  predicate Acknowledges(l: Ledger, c: Option<Call>)
  {
    c.Some? && c.value.Update? && c.value.status == Acked && HeldBy(l.rows, c.value.id, c.value.worker)
  }

  function Do(s: World, w: string, a: Action, max: nat): World
    requires CanDo(s, w, a)
  {
    var call, work := CallOf(s, w, a), WorkOf(s, w);
    World(
      if call.Some? then After(s.ledger, call.value, max) else s.ledger,
      s.workers[w := WorkAfter(s, w, a)],
      if a.HandOver? then s.handoffs + [Handoff(work.todo[0], w, work.phase.plan)] else s.handoffs,
      if Acknowledges(s.ledger, call) then s.acked + {call.value.id} else s.acked)
  }

  predicate Can(s: World, e: Event)
  {
    match e
    case By(w, a) => CanDo(s, w, a)
    case Around(c) => !c.Lease? && !c.Update? && !c.Retry?
  }

  function Step(s: World, e: Event, max: nat): World
    requires Can(s, e)
  {
    match e
    case By(w, a) => Do(s, w, a, max)
    case Around(c) => s.(ledger := After(s.ledger, c, max))
  }

  // ---------------------------------------------------------------------------------------------
  // The invariant

  predicate HandedOver(p: Phase) { p.Handed? || p.AckPending? }

  predicate IsGrant(l: Ledger, t: Ticket, w: string) { t.lease < |l.grants| && l.grants[t.lease] == Grant(t.id, w) }

  /** A plan read for a leased row is ready, and still the row's plan. */
  predicate PlanFits(l: Ledger, id: nat, plan: RoutePlan)
  {
    RouteStatusForPlan(plan) == ReadyToSend && (id in l.rows ==> l.rows[id].plan == plan)
  }

  predicate Spent(handoffs: seq<Handoff>, t: Ticket)
  {
    exists h :: 0 <= h < |handoffs| && handoffs[h].ticket.lease == t.lease
  }

  ghost predicate WorkOk(s: World, w: string, work: Work)
  {
    && (work.todo == [] ==> work.phase.Start?)
    && (forall k :: 0 <= k < |work.todo| ==>
          && IsGrant(s.ledger, work.todo[k], w)
          && (k > 0 || !HandedOver(work.phase) ==> !Spent(s.handoffs, work.todo[k]))
          && (work.todo[k].id in s.acked ==> !HeldBy(s.ledger.rows, work.todo[k].id, w)))
    && (forall i, j :: 0 <= i < j < |work.todo| ==> work.todo[i].id != work.todo[j].id)
    && (work.phase.HasPlan? || work.phase.Marked? ==> PlanFits(s.ledger, work.todo[0].id, work.phase.plan))
  }

  predicate HandoffsOk(l: Ledger, handoffs: seq<Handoff>)
  {
    && (forall h :: 0 <= h < |handoffs| ==>
          IsGrant(l, handoffs[h].ticket, handoffs[h].worker) && PlanFits(l, handoffs[h].ticket.id, handoffs[h].plan))
    && (forall g, h :: 0 <= g < h < |handoffs| ==> handoffs[g].ticket.lease != handoffs[h].ticket.lease)
  }

  predicate AckedOk(l: Ledger, acked: set<nat>)
  {
    forall id :: id in acked ==> id in l.rows && l.rows[id].status == Acked
  }

  ghost predicate WorldOk(s: World, max: nat)
  {
    && Inv(s.ledger, max)
    && (forall w :: WorkOk(s, w, WorkOf(s, w)))
    && HandoffsOk(s.ledger, s.handoffs)
    && AckedOk(s.ledger, s.acked)
  }

  // ---------------------------------------------------------------------------------------------
  // What a change of the ledger leaves intact

  /** Leases stay granted, ready plans stay, and acknowledged rows stay exactly as they are. */
  predicate Kept(l: Ledger, n: Ledger, acked: set<nat>)
  {
    && l.grants <= n.grants
    && (forall id :: id in acked ==> id in l.rows && id in n.rows && n.rows[id] == l.rows[id])
    && (forall k :: 0 <= k < |l.grants| && l.grants[k].id in n.rows ==>
          l.grants[k].id in l.rows && n.rows[l.grants[k].id].plan == l.rows[l.grants[k].id].plan)
  }

  lemma CallLeavesKept(l: Ledger, c: Call, max: nat, acked: set<nat>)
    requires Inv(l, max) && Possible(l, c) && AckedOk(l, acked)
    requires c.Update? && c.id in acked ==> !HeldBy(l.rows, c.id, c.worker)
    ensures Kept(l, After(l, c, max), acked)
  {
    var n := After(l, c, max);
    forall id | id in acked ensures id in n.rows && n.rows[id] == l.rows[id] {
      AckedRowStays(l, c, max, id);
    }
    forall k | 0 <= k < |l.grants| && l.grants[k].id in n.rows
      ensures l.grants[k].id in l.rows && n.rows[l.grants[k].id].plan == l.rows[l.grants[k].id].plan {
      var id := l.grants[k].id;
      assert k in GrantsOf(l.grants, id);
      assert id in l.rows;
      assert RowOk(l.rows[id], LeaseCount(l, id), max);
      ReadyPlanStays(l, c, max, id);
    }
  }

  /** Work in progress stays in order when the ledger changes and nothing new is handed over. */
  lemma WorkStaysOk(s: World, n: World, w: string, work: Work)
    requires WorkOk(s, w, work) && Kept(s.ledger, n.ledger, s.acked)
    requires n.handoffs == s.handoffs && n.acked == s.acked
    ensures WorkOk(n, w, work)
  {
    forall k | 0 <= k < |work.todo| ensures IsGrant(n.ledger, work.todo[k], w) {
      assert IsGrant(s.ledger, work.todo[k], w);
    }
  }

  lemma HandoffsStayOk(l: Ledger, n: Ledger, handoffs: seq<Handoff>, acked: set<nat>)
    requires HandoffsOk(l, handoffs) && Kept(l, n, acked)
    ensures HandoffsOk(n, handoffs)
  {
    forall h | 0 <= h < |handoffs|
      ensures IsGrant(n, handoffs[h].ticket, handoffs[h].worker)
      ensures PlanFits(n, handoffs[h].ticket.id, handoffs[h].plan) {
      assert IsGrant(l, handoffs[h].ticket, handoffs[h].worker);
    }
  }

  /** A call that no acknowledged row forbids keeps the invariant. */
  lemma LedgerCallKeeps(s: World, c: Call, max: nat)
    requires 0 < max && WorldOk(s, max) && Possible(s.ledger, c)
    requires c.Update? && c.id in s.acked ==> !HeldBy(s.ledger.rows, c.id, c.worker)
    ensures Kept(s.ledger, After(s.ledger, c, max), s.acked)
    ensures WorldOk(s.(ledger := After(s.ledger, c, max)), max)
  {
    var n := s.(ledger := After(s.ledger, c, max));
    CallKeeps(s.ledger, c, max);
    CallLeavesKept(s.ledger, c, max, s.acked);
    forall w ensures WorkOk(n, w, WorkOf(n, w)) {
      WorkStaysOk(s, n, w, WorkOf(s, w));
    }
    HandoffsStayOk(s.ledger, n.ledger, s.handoffs, s.acked);
  }

  /** The next ticket is untouched so far. */
  lemma NextIsOk(s: World, w: string, work: Work)
    requires WorkOk(s, w, work)
    ensures WorkOk(s, w, Next(work))
  {
    var next := Next(work);
    forall k | 0 <= k < |next.todo|
      ensures && IsGrant(s.ledger, next.todo[k], w) && !Spent(s.handoffs, next.todo[k])
              && (next.todo[k].id in s.acked ==> !HeldBy(s.ledger.rows, next.todo[k].id, w)) {
      if work.todo != [] {
        assert next.todo[k] == work.todo[k + 1];
      }
    }
  }

  // ---------------------------------------------------------------------------------------------
  // Actions keep the invariant

  /** The world right after the outbox call of an action, before anything else of it. */
  function Called(s: World, w: string, a: Action, max: nat): World
    requires CanDo(s, w, a)
  {
    s.(ledger := Do(s, w, a, max).ledger)
  }

  lemma CallOfActionIsPossible(s: World, w: string, a: Action)
    requires WorkOk(s, w, WorkOf(s, w)) && CanDo(s, w, a) && CallOf(s, w, a).Some?
    ensures var c := CallOf(s, w, a).value;
            Possible(s.ledger, c) && (c.Update? && c.id in s.acked ==> !HeldBy(s.ledger.rows, c.id, c.worker))
  {
  }

  lemma CallOfActionKeeps(s: World, w: string, a: Action, max: nat)
    requires 0 < max && WorldOk(s, max) && CanDo(s, w, a)
    ensures WorldOk(Called(s, w, a, max), max) && Kept(s.ledger, Do(s, w, a, max).ledger, s.acked)
  {
    var call := CallOf(s, w, a);
    if call.Some? {
      CallOfActionIsPossible(s, w, a);
      LedgerCallKeeps(s, call.value, max);
    } else {
      assert Called(s, w, a, max) == s;
    }
  }

  /** A lease that is granted only now is spent by no handoff. */
  lemma NewLeaseIsUnspent(l: Ledger, handoffs: seq<Handoff>, t: Ticket)
    requires HandoffsOk(l, handoffs) && |l.grants| <= t.lease
    ensures !Spent(handoffs, t)
  {
    forall h | 0 <= h < |handoffs| ensures handoffs[h].ticket.lease != t.lease {
      assert IsGrant(l, handoffs[h].ticket, handoffs[h].worker);
    }
  }

  lemma BatchIsOk(s: World, w: string, a: Action, max: nat)
    requires WorldOk(s, max) && CanDo(s, w, a) && a.TakeBatch?
    ensures WorkOk(Called(s, w, a, max), w, WorkAfter(s, w, a))
  {
    var work := WorkAfter(s, w, a);
    var n := Called(s, w, a, max);
    forall k | 0 <= k < |work.todo|
      ensures IsGrant(n.ledger, work.todo[k], w) && !Spent(s.handoffs, work.todo[k]) && work.todo[k].id !in s.acked {
      assert a.ids[k] in LeasableIds(s.ledger.rows);
      NewLeaseIsUnspent(s.ledger, s.handoffs, work.todo[k]);
    }
  }

  lemma ReadPlanIsOk(s: World, w: string, max: nat)
    requires WorldOk(s, max) && CanDo(s, w, ReadPlan)
    ensures WorkOk(s, w, WorkAfter(s, w, ReadPlan))
  {
    var work := WorkOf(s, w);
    var t := work.todo[0];
    assert WorkOk(s, w, work) && IsGrant(s.ledger, t, w);
    if t.id in s.ledger.rows {
      assert t.lease in GrantsOf(s.ledger.grants, t.id);
      assert RowOk(s.ledger.rows[t.id], LeaseCount(s.ledger, t.id), max);
    } else {
      NextIsOk(s, w, work);
    }
  }

  /** The other actions go on with the same ticket or take the next one. */
  lemma ContinuedWorkIsOk(m: World, s: World, w: string, a: Action)
    requires WorkOk(m, w, WorkOf(s, w)) && CanDo(s, w, a) && !a.HandOver? && !a.TakeBatch? && !a.ReadPlan?
    ensures WorkOk(m, w, WorkAfter(s, w, a))
  {
    NextIsOk(m, w, WorkOf(s, w));
  }

  /** Own work after every action that hands nothing over, the acknowledged rows not yet extended. */
  lemma OwnWorkIsOk(s: World, w: string, a: Action, max: nat)
    requires 0 < max && WorldOk(s, max) && CanDo(s, w, a) && !a.HandOver?
    ensures WorkOk(Called(s, w, a, max), w, WorkAfter(s, w, a))
  {
    if a.TakeBatch? {
      BatchIsOk(s, w, a, max);
    } else if a.ReadPlan? {
      ReadPlanIsOk(s, w, max);
    } else {
      CallOfActionKeeps(s, w, a, max);
      var m := Called(s, w, a, max);
      assert WorkOk(m, w, WorkOf(m, w));
      ContinuedWorkIsOk(m, s, w, a);
    }
  }

  lemma {:induction false} PlainActionKeeps(s: World, w: string, a: Action, max: nat)
    requires 0 < max && WorldOk(s, max) && CanDo(s, w, a) && !a.HandOver? && !Acknowledges(s.ledger, CallOf(s, w, a))
    ensures WorldOk(Do(s, w, a, max), max)
  {
    CallOfActionKeeps(s, w, a, max);
    OwnWorkIsOk(s, w, a, max);
    var m, n := Called(s, w, a, max), Do(s, w, a, max);
    forall v ensures WorkOk(n, v, WorkOf(n, v)) {
      assert WorkOk(m, v, WorkOf(m, v));
      WorkStaysOk(m, n, v, WorkOf(n, v));
    }
  }

  lemma AcknowledgedShape(s: World, w: string, a: Action, max: nat)
    requires CanDo(s, w, a) && Acknowledges(s.ledger, CallOf(s, w, a))
    ensures var n, id := Do(s, w, a, max), WorkOf(s, w).todo[0].id;
            && n == Called(s, w, a, max).(workers := s.workers[w := Next(WorkOf(s, w))], acked := s.acked + {id})
            && id in n.ledger.rows && n.ledger.rows[id].status == Acked && n.ledger.rows[id].hold.owner == Some(w)
  {
  }

  /** A row acknowledged by one worker concerns only the tickets of that worker. */
  lemma AckedMayGrow(m: World, n: World, v: string, work: Work, id: nat, w: string)
    requires WorkOk(m, v, work) && n.ledger == m.ledger && n.handoffs == m.handoffs && n.acked == m.acked + {id}
    requires id in m.ledger.rows && m.ledger.rows[id].hold.owner == Some(w)
    requires v == w ==> forall k :: 0 <= k < |work.todo| ==> work.todo[k].id != id
    ensures WorkOk(n, v, work)
  {
  }

  /** An acknowledgement ends the ticket, so its worker holds none on the row any more; nobody else does. */
  lemma AcknowledgedIsOk(m: World, n: World, w: string, id: nat, max: nat)
    requires WorldOk(m, max) && WorkOf(m, w).todo != [] && WorkOf(m, w).todo[0].id == id
    requires n == m.(workers := m.workers[w := Next(WorkOf(m, w))], acked := m.acked + {id})
    requires id in m.ledger.rows && m.ledger.rows[id].status == Acked && m.ledger.rows[id].hold.owner == Some(w)
    ensures WorldOk(n, max)
  {
    var work := WorkOf(m, w);
    assert WorkOk(m, w, work);
    NextIsOk(m, w, work);
    forall v ensures WorkOk(n, v, WorkOf(n, v)) {
      assert v != w ==> WorkOk(m, v, WorkOf(m, v));
      AckedMayGrow(m, n, v, WorkOf(n, v), id, w);
    }
  }

  lemma AcknowledgingKeeps(s: World, w: string, a: Action, max: nat)
    requires 0 < max && WorldOk(s, max) && CanDo(s, w, a) && Acknowledges(s.ledger, CallOf(s, w, a))
    ensures WorldOk(Do(s, w, a, max), max)
  {
    CallOfActionKeeps(s, w, a, max);
    AcknowledgedShape(s, w, a, max);
    AcknowledgedIsOk(Called(s, w, a, max), Do(s, w, a, max), w, WorkOf(s, w).todo[0].id, max);
  }

  /** A handoff spends the lease of its ticket, which no other ticket shares. */
  lemma HandingOverKeeps(s: World, w: string, a: Action, max: nat)
    requires 0 < max && WorldOk(s, max) && CanDo(s, w, a) && a.HandOver?
    ensures WorldOk(Do(s, w, a, max), max)
  {
    var n, work := Do(s, w, a, max), WorkOf(s, w);
    var t := work.todo[0];
    assert WorkOk(s, w, work) && IsGrant(s.ledger, t, w);
    forall v ensures WorkOk(n, v, WorkOf(n, v)) {
      var others := WorkOf(n, v);
      assert WorkOk(s, v, WorkOf(s, v));
      forall k | 0 <= k < |others.todo| && (k > 0 || !HandedOver(others.phase))
        ensures !Spent(n.handoffs, others.todo[k]) {
        assert IsGrant(s.ledger, others.todo[k], v);
        assert !Spent(s.handoffs, others.todo[k]);
        assert v == w ==> k > 0 && work.todo[0].id != work.todo[k].id;
      }
    }
    forall g | 0 <= g < |s.handoffs| ensures s.handoffs[g].ticket.lease != t.lease {
      assert !Spent(s.handoffs, t);
    }
  }

  lemma StepKeeps(s: World, e: Event, max: nat)
    requires 0 < max && WorldOk(s, max) && Can(s, e)
    ensures WorldOk(Step(s, e, max), max)
  {
    match e
    case Around(c) => LedgerCallKeeps(s, c, max);
    case By(w, a) =>
      if a.HandOver? {
        HandingOverKeeps(s, w, a, max);
      } else if Acknowledges(s.ledger, CallOf(s, w, a)) {
        AcknowledgingKeeps(s, w, a, max);
      } else {
        PlainActionKeeps(s, w, a, max);
      }
  }
}
