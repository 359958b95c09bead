/**
 The two dispatch procedures as they run over the outbox: recover, lease a batch, then dispatch lease by
 lease. Each is proved against a function on the rows, and the function against the worker protocol.
 Transports are functions of the row id and the plan; the answers of queries are parameters.
 */
module OutboxDispatch {
  import opened Wrappers
  import opened RoutePlanner
  import opened Outbox
  import opened OutboxCalls
  import opened OutboxWorkers
  import opened OutboxRuns

  // ---------------------------------------------------------------------------------------------
  // What dispatching one lease does to the rows

  /** The rows after a procedure has dealt with the outcome of a handoff. */
  function Finished(t: Table, kind: Kind, id: nat, w: string, outcome: Outcome, now: string, max: nat): Table
  {
    match outcome
    case Sent => Updated(t, id, w, SentOk, None, now)
    case Acknowledged =>
      var sent := if kind == SiteDispatch then t else Updated(t, id, w, SentOk, None, now);
      Updated(sent, id, w, Acked, None, now)
    case RetryLater(why) => Retried(t, id, w, why, now, max)
    case Permanent(why) => Updated(t, id, w, Dead, Some(why), now)
    case Unknown(why) => if kind == SiteDispatch then Retried(t, id, w, why, now, max) else t
  }

  /** What answers a handoff, and for which rows the host agent can encode the envelope at all. */
  datatype Transport = Transport(encodes: nat -> bool, answer: (nat, RoutePlan) -> Outcome)

  predicate NotEncoded(kind: Kind, id: nat, via: Transport) { kind == HostEgress && !via.encodes(id) }

  function Dispatched(t: Table, kind: Kind, w: string, id: nat, via: Transport, now: string, max: nat): Table
  {
    var sending := Updated(t, id, w, Sending, None, now);
    if !HeldBy(t, id, w) then t
    else if NotEncoded(kind, id, via) then Updated(sending, id, w, Dead, Some(EncodeFailed), now)
    else Finished(sending, kind, id, w, via.answer(id, t[id].plan), now, max)
  }

  function DispatchAll(t: Table, kind: Kind, w: string, ids: seq<nat>, via: Transport, now: string, max: nat): Table
  {
    if ids == [] then t
    else
      var before := DispatchAll(t, kind, w, ids[..|ids| - 1], via, now, max);
      Dispatched(before, kind, w, ids[|ids| - 1], via, now, max)
  }

  /** A dispatch touches its own row only. */
  lemma DispatchedFrame(t: Table, kind: Kind, w: string, id: nat, via: Transport, now: string, max: nat)
    ensures var n := Dispatched(t, kind, w, id, via, now, max);
            n.Keys == t.Keys && forall k :: k in t && k != id ==> n[k] == t[k]
  {
  }

  /** A retry: back to the queue without owner while retries are left, and dead otherwise, with the reason. */
  predicate RowRetried(before: Row, after: Row, why: Cause, now: string, max: nat)
  {
    after == if before.retries + 1 < max
             then before.(status := Queued, hold := Hold(None, None), retries := before.retries + 1, cause := None,
                          updated := now)
             else before.(status := Dead, retries := before.retries + 1, cause := Some(why), updated := now)
  }

  /** `RetryOutbound` does this to a row in flight of its owner, and nothing to any other. */
  lemma RetryDecidesRow(t: Table, id: nat, w: string, why: Cause, now: string, max: nat, other: nat)
    requires other in t
    ensures var a, b := t[other], Retried(t, id, w, why, now, max);
            && other in b
            && if other == id && 0 < id && w != "" && a.hold.owner == Some(w)
                  && (a.status == Leased || a.status == Sending || a.status == SentOk)
               then RowRetried(a, b[other], why, now, max) else b[other] == a
  {
  }

  /** The row of a held lease after its dispatch, outcome by outcome. Both procedures agree but for a status they do
      not know, which the router retries and the host agent leaves as sending, and for an envelope that cannot be
      encoded, which the host agent buries. */
  lemma OutcomeDecidesRow(t: Table, kind: Kind, w: string, id: nat, via: Transport, now: string, max: nat)
    requires 0 < id && w != "" && id in t && t[id].hold.owner == Some(w)
    ensures id in Dispatched(t, kind, w, id, via, now, max)
    ensures var a, b := t[id], Dispatched(t, kind, w, id, via, now, max)[id];
            if kind == HostEgress && !via.encodes(id) then
              b == a.(status := Dead, cause := Some(EncodeFailed), updated := now)
            else
              match via.answer(id, a.plan)
              case Sent => b == a.(status := SentOk, cause := None, updated := now)
              case Acknowledged => b == a.(status := Acked, cause := None, updated := now)
              case Permanent(why) => b == a.(status := Dead, cause := Some(why), updated := now)
              case RetryLater(why) => RowRetried(a, b, why, now, max)
              case Unknown(why) =>
                if kind == SiteDispatch then RowRetried(a, b, why, now, max)
                else b == a.(status := Sending, cause := None, updated := now)
  {
  }

  /** How each outcome ends, for a worker that holds the row: both procedures agree but for a status
      they do not know, and for an envelope that cannot be encoded. */
  lemma OutcomeDecidesStatus(t: Table, kind: Kind, w: string, id: nat, via: Transport, now: string, max: nat)
    requires 0 < id && w != "" && HeldBy(t, id, w)
    ensures id in Dispatched(t, kind, w, id, via, now, max)
    ensures var o, s := via.answer(id, t[id].plan), Dispatched(t, kind, w, id, via, now, max)[id].status;
            if NotEncoded(kind, id, via) then s == Dead else
            && (o.Sent? <==> s == SentOk) && (o.Acknowledged? <==> s == Acked)
            && (s == Sending <==> o.Unknown? && kind == HostEgress)
            && (s == Queued <==> t[id].retries + 1 < max && (o.RetryLater? || (o.Unknown? && kind == SiteDispatch)))
  {
    OutcomeDecidesRow(t, kind, w, id, via, now, max);
  }

  // ---------------------------------------------------------------------------------------------
  // What a transport's answer counts as

  datatype TransportStatus = NoStatus | SaysSent | SaysAcked | SaysRetry | SaysPermanent | SaysOther(text: string)

  datatype TransportResult = TransportResult(status: TransportStatus, acked: bool, retryable: bool, permanent: bool)

  /** `classifyTransportResult`; `failed` tells whether sending returned an error. */
  function Classify(r: Option<TransportResult>, failed: bool, why: Cause): Outcome
  {
    if r.None? then if failed then RetryLater(why) else Sent
    else if r.value.permanent || r.value.status.SaysPermanent? then Permanent(why)
    else if r.value.retryable || r.value.status.SaysRetry? || failed then RetryLater(why)
    else if r.value.acked || r.value.status.SaysAcked? then Acknowledged
    else if r.value.status.NoStatus? || r.value.status.SaysSent? then Sent
    else Unknown(Because(r.value.status.text))
  }

  /** What each answer counts as: a sign of permanent failure comes before all others, then a request to retry or
      an error, then an acknowledgement; anything else is delivery, unless the status is a text of its own. */
  lemma DeliveryNeedsSuccess(r: Option<TransportResult>, failed: bool, why: Cause)
    ensures var o := Classify(r, failed, why);
            var refused := r.Some? && (r.value.permanent || r.value.status.SaysPermanent?);
            var delayed := failed || (r.Some? && (r.value.retryable || r.value.status.SaysRetry?));
            var acked := r.Some? && (r.value.acked || r.value.status.SaysAcked?);
            var odd := r.Some? && r.value.status.SaysOther?;
            && (o == Permanent(why) <==> refused) && (o.Permanent? <==> refused)
            && (o == RetryLater(why) <==> !refused && delayed) && (o.RetryLater? <==> !refused && delayed)
            && (o == Acknowledged <==> !refused && !delayed && acked)
            && (o == Sent <==> !refused && !delayed && !acked && !odd)
            && (!refused && !delayed && !acked && odd ==> o == Unknown(Because(r.value.status.text)))
  {
  }

  // ---------------------------------------------------------------------------------------------
  // The router's own worker

  /** The status switch at the end of `dispatchLease`, and the status it counts. */
  method SiteFinish(q: Queue, w: string, id: nat, outcome: Outcome, now: string) returns (status: Status)
    requires q.Valid() && id > 0 && w != "" && HeldBy(q.rows, id, w) && q.rows[id].status == Sending
    modifies q`rows
    ensures q.Valid() && q.rows == Finished(old(q.rows), SiteDispatch, id, w, outcome, now, q.maxRetry)
    ensures id in q.rows && q.rows[id].status == status
  {
    var ok := true;
    match outcome {
      case Sent =>
        ok := q.UpdateQueueState(id, w, SentOk, None, now);
        status := SentOk;
      case Acknowledged =>
        ok := q.UpdateQueueState(id, w, Acked, None, now);
        status := Acked;
      case Permanent(why) =>
        ok := q.UpdateQueueState(id, w, Dead, Some(why), now);
        status := Dead;
      case RetryLater(why) =>
        var retried := q.RetryOutbound(id, w, Some(why), now);
        status := if retried == RetriedToDead then Dead else Queued;
      case Unknown(why) =>
        var retried := q.RetryOutbound(id, w, Some(why), now);
        status := if retried == RetriedToDead then Dead else Queued;
    }
  }

  /** `dispatchLease` of the router: an error, here `None`, or the status it counted. */
  method SiteDispatchLease(q: Queue, w: string, id: nat, via: Transport, now: string)
    returns (status: Option<Status>)
    requires q.Valid() && w != ""
    modifies q`rows
    ensures q.Valid() && q.rows == Dispatched(old(q.rows), SiteDispatch, w, id, via, now, q.maxRetry)
    ensures status == if HeldBy(old(q.rows), id, w) then Some(q.rows[id].status) else None
  {
    if id !in q.rows {
      var outcome := q.RetryOutbound(id, w, None, now);
      return None;
    }
    var plan := q.rows[id].plan;
    var ok := q.UpdateQueueState(id, w, Sending, None, now);
    if !ok {
      return None;
    }
    var done := SiteFinish(q, w, id, via.answer(id, plan), now);
    status := Some(done);
  }

  // ---------------------------------------------------------------------------------------------
  // The host agent's worker

  predicate CountsAs(status: Option<Status>, final: Status) { status == if final == Sending then None else Some(final) }

  /** `finishDispatch`: an unknown outcome leaves the row as sending and counts as failed. */
  method HostFinish(q: Queue, w: string, id: nat, outcome: Outcome, now: string) returns (status: Option<Status>)
    requires q.Valid() && id > 0 && w != "" && HeldBy(q.rows, id, w) && q.rows[id].status == Sending
    modifies q`rows
    ensures q.Valid() && q.rows == Finished(old(q.rows), HostEgress, id, w, outcome, now, q.maxRetry)
    ensures id in q.rows && CountsAs(status, q.rows[id].status)
  {
    var ok := true;
    match outcome {
      case Acknowledged =>
        ok := q.UpdateQueueState(id, w, SentOk, None, now);
        ok := q.UpdateQueueState(id, w, Acked, None, now);
        status := Some(Acked);
      case Sent =>
        ok := q.UpdateQueueState(id, w, SentOk, None, now);
        status := Some(SentOk);
      case Permanent(why) =>
        ok := q.UpdateQueueState(id, w, Dead, Some(why), now);
        status := Some(Dead);
      case RetryLater(why) =>
        var retried := q.RetryOutbound(id, w, Some(why), now);
        status := Some(if retried == RetriedToDead then Dead else Queued);
      case Unknown(why) =>
        status := None;
    }
  }

  /** `dispatchLease` of the host agent: an envelope that cannot be encoded makes the row dead. */
  method HostDispatchLease(q: Queue, w: string, id: nat, via: Transport, now: string)
    returns (status: Option<Status>)
    requires q.Valid() && w != ""
    modifies q`rows
    ensures q.Valid() && q.rows == Dispatched(old(q.rows), HostEgress, w, id, via, now, q.maxRetry)
    ensures if HeldBy(old(q.rows), id, w) then CountsAs(status, q.rows[id].status) else status.None?
  {
    var plan := if id in q.rows then Some(q.rows[id].plan) else None;
    var ok := q.UpdateQueueState(id, w, Sending, None, now);
    if !ok {
      return None;
    }
    if !via.encodes(id) {
      ok := q.UpdateQueueState(id, w, Dead, Some(EncodeFailed), now);
      return Some(Dead);
    }
    status := HostFinish(q, w, id, via.answer(id, plan.value), now);
  }

  // ---------------------------------------------------------------------------------------------
  // A whole round

  function Count(t: Table, ids: seq<nat>, status: Status): nat
  {
    if ids == [] then 0
    else Count(t, ids[..|ids| - 1], status) + if ids[|ids| - 1] in t && t[ids[|ids| - 1]].status == status then 1 else 0
  }

  lemma {:induction false} CountFrame(t: Table, n: Table, ids: seq<nat>, status: Status)
    requires forall id :: id in ids ==> (id in t <==> id in n) && (id in t ==> n[id] == t[id])
    ensures Count(t, ids, status) == Count(n, ids, status)
  {
    if ids == [] {
    } else {
      CountFrame(t, n, ids[..|ids| - 1], status);
    }
  }

  lemma CountGrows(t: Table, n: Table, ids: seq<nat>, id: nat, status: Status)
    requires id !in ids && id in n && n.Keys == t.Keys && forall k :: k in t && k != id ==> n[k] == t[k]
    ensures Count(n, ids + [id], status) == Count(t, ids, status) + if n[id].status == status then 1 else 0
  {
    CountFrame(t, n, ids, status);
    assert (ids + [id])[..|ids|] == ids;
  }

  /** The rows after a whole round. */
  function Round(t: Table, kind: Kind, w: string, ids: seq<nat>, via: Transport, now: string, until: string,
                 max: nat): Table
  {
    DispatchAll(LeaseAll(Recovered(t, now, max), ids, w, until, now), kind, w, ids, via, now, max)
  }

  datatype Tally = Tally(leased: nat, sent: nat, acked: nat, retried: nat, dead: nat, failed: nat)

  function Fresh(leases: seq<nat>): Tally { Tally(|leases|, 0, 0, 0, 0, 0) }

  function Tallied(c: Tally, status: Option<Status>): Tally
  {
    if status == Some(SentOk) then c.(sent := c.sent + 1)
    else if status == Some(Acked) then c.(acked := c.acked + 1)
    else if status == Some(Queued) then c.(retried := c.retried + 1)
    else if status == Some(Dead) then c.(dead := c.dead + 1)
    else c.(failed := c.failed + 1)
  }

  /** The counters say how many of the rows ended in which state. */
  predicate TallyFits(c: Tally, t: Table, ids: seq<nat>)
  {
    && c.sent == Count(t, ids, SentOk) && c.acked == Count(t, ids, Acked)
    && c.retried == Count(t, ids, Queued) && c.dead == Count(t, ids, Dead)
    && c.failed == Count(t, ids, Sending)
    && c.sent + c.acked + c.retried + c.dead + c.failed == |ids|
  }

  lemma TallyGrows(c: Tally, t: Table, n: Table, ids: seq<nat>, id: nat)
    requires TallyFits(c, t, ids) && id !in ids && id in n && n.Keys == t.Keys && n[id].status != Leased
    requires forall k :: k in t && k != id ==> n[k] == t[k]
    ensures TallyFits(Tallied(c, Some(n[id].status)), n, ids + [id])
  {
    CountGrows(t, n, ids, id, SentOk);
    CountGrows(t, n, ids, id, Acked);
    CountGrows(t, n, ids, id, Queued);
    CountGrows(t, n, ids, id, Dead);
    CountGrows(t, n, ids, id, Sending);
  }

  /** Midway through a round: the first `k` leases are served and counted, the others still held. */
  ghost predicate Midway(leased: Table, t: Table, kind: Kind, w: string, leases: seq<nat>, k: nat,
                         via: Transport, now: string, max: nat, c: Tally)
  {
    && k <= |leases| && Distinct(leases)
    && t == DispatchAll(leased, kind, w, leases[..k], via, now, max)
    && c.leased == |leases| && TallyFits(c, t, leases[..k]) && (kind == SiteDispatch ==> c.failed == 0)
    && (forall i :: k <= i < |leases| ==> 0 < leases[i] && HeldBy(t, leases[i], w))
  }

  lemma DispatchNext(t: Table, kind: Kind, w: string, leases: seq<nat>, k: nat, via: Transport, now: string, max: nat)
    requires k < |leases|
    ensures leases[..k + 1] == leases[..k] + [leases[k]]
    ensures DispatchAll(t, kind, w, leases[..k + 1], via, now, max)
         == Dispatched(DispatchAll(t, kind, w, leases[..k], via, now, max), kind, w, leases[k], via, now, max)
  {
    assert leases[..k + 1][..k] == leases[..k];
  }

  /** The row dispatched next is not among those served, and ends as something else than leased. */
  lemma ServedIsNew(t: Table, kind: Kind, w: string, leases: seq<nat>, k: nat, via: Transport, now: string, max: nat)
    requires w != "" && k < |leases| && Distinct(leases) && 0 < leases[k] && HeldBy(t, leases[k], w)
    ensures leases[k] !in leases[..k]
    ensures leases[k] in t && Dispatched(t, kind, w, leases[k], via, now, max).Keys == t.Keys
    ensures var s := Dispatched(t, kind, w, leases[k], via, now, max)[leases[k]].status;
            s != Leased && (kind == SiteDispatch ==> s != Sending)
  {
    DispatchedFrame(t, kind, w, leases[k], via, now, max);
    OutcomeDecidesStatus(t, kind, w, leases[k], via, now, max);
  }

  lemma OneServed(leased: Table, t: Table, kind: Kind, w: string, leases: seq<nat>, k: nat,
                  via: Transport, now: string, max: nat, c: Tally)
    requires w != "" && Midway(leased, t, kind, w, leases, k, via, now, max, c) && k < |leases|
    ensures var n := Dispatched(t, kind, w, leases[k], via, now, max);
            && leases[k] in n
            && Midway(leased, n, kind, w, leases, k + 1, via, now, max, Tallied(c, Some(n[leases[k]].status)))
  {
    var id := leases[k];
    var n := Dispatched(t, kind, w, id, via, now, max);
    DispatchedFrame(t, kind, w, id, via, now, max);
    DispatchNext(leased, kind, w, leases, k, via, now, max);
    ServedIsNew(t, kind, w, leases, k, via, now, max);
    TallyGrows(c, t, n, leases[..k], id);
  }

  lemma MidwayStart(t: Table, limit: nat, kind: Kind, w: string, leases: seq<nat>, via: Transport, now: string,
                    until: string, max: nat)
    requires IsBatch(t, limit, leases) && forall id :: id in t ==> 0 < id
    ensures var leased := LeaseAll(t, leases, w, until, now);
            Midway(leased, leased, kind, w, leases, 0, via, now, max, Fresh(leases))
  {
    assert leases[..0] == [];
    forall i | 0 <= i < |leases| ensures leases[i] in t {
      assert leases[i] in LeasableIds(t);
    }
  }

  lemma MidwayEnd(leased: Table, t: Table, kind: Kind, w: string, leases: seq<nat>, via: Transport, now: string,
                  max: nat, c: Tally)
    requires Midway(leased, t, kind, w, leases, |leases|, via, now, max, c)
    ensures t == DispatchAll(leased, kind, w, leases, via, now, max)
    ensures c.leased == |leases| && TallyFits(c, t, leases) && (kind == SiteDispatch ==> c.failed == 0)
  {
    assert leases[..|leases|] == leases;
  }

  /** One iteration of the loop of `RunOnce`. */
  method SiteServeOne(ghost leased: Table, q: Queue, w: string, leases: seq<nat>, k: nat, via: Transport, now: string,
                      before: Tally)
    returns (result: Tally)
    requires q.Valid() && w != "" && k < |leases|
    requires Midway(leased, q.rows, SiteDispatch, w, leases, k, via, now, q.maxRetry, before)
    modifies q`rows
    ensures q.Valid() && Midway(leased, q.rows, SiteDispatch, w, leases, k + 1, via, now, q.maxRetry, result)
  {
    OneServed(leased, q.rows, SiteDispatch, w, leases, k, via, now, q.maxRetry, before);
    assert HeldBy(q.rows, leases[k], w);
    var status := SiteDispatchLease(q, w, leases[k], via, now);
    result := Tallied(before, status);
  }

  /** The loop of `RunOnce` over its leases. */
  method SiteServe(q: Queue, w: string, leases: seq<nat>, via: Transport, now: string)
    returns (result: Tally)
    requires q.Valid() && w != ""
    requires Midway(q.rows, q.rows, SiteDispatch, w, leases, 0, via, now, q.maxRetry, Fresh(leases))
    modifies q`rows
    ensures q.Valid() && q.rows == DispatchAll(old(q.rows), SiteDispatch, w, leases, via, now, q.maxRetry)
    ensures result.leased == |leases| && TallyFits(result, q.rows, leases) && result.failed == 0
  {
    ghost var leased := q.rows;
    result := Fresh(leases);
    for k := 0 to |leases|
      invariant q.Valid() && Midway(leased, q.rows, SiteDispatch, w, leases, k, via, now, q.maxRetry, result)
    {
      result := SiteServeOne(leased, q, w, leases, k, via, now, result);
    }
    MidwayEnd(leased, q.rows, SiteDispatch, w, leases, via, now, q.maxRetry, result);
  }

  /** `DispatchWorker.RunOnce`: with nobody interfering every lease is served and no dispatch fails. */
  method RunOnce(q: Queue, w: string, batchSize: int, selected: seq<nat>, via: Transport, now: string, until: string)
    returns (result: Tally, recovered: nat)
    requires q.Valid() && w != ""
    requires IsBatch(Recovered(q.rows, now, q.maxRetry), if batchSize <= 0 then 8 else batchSize, selected)
    modifies q`rows
    ensures q.Valid() && q.rows == Round(old(q.rows), SiteDispatch, w, selected, via, now, until, q.maxRetry)
    ensures recovered == |RequeuedIds(old(q.rows), now, q.maxRetry)|
    ensures result.leased == |selected| && TallyFits(result, q.rows, selected) && result.failed == 0
  {
    recovered := q.RecoverExpiredLeases(now);
    var limit := if batchSize <= 0 then 8 else batchSize;
    MidwayStart(q.rows, limit, SiteDispatch, w, selected, via, now, until, q.maxRetry);
    var leases := q.LeaseOutbound(w, limit, selected, now, until);
    result := SiteServe(q, w, leases, via, now);
  }

  lemma UnknownCountsAsFailed(c: Tally, status: Option<Status>, final: Status)
    requires CountsAs(status, final)
    ensures Tallied(c, status) == Tallied(c, Some(final))
  {
  }

  /** One iteration of the loop of `DispatchOutboundOnce`. */
  method HostServeOne(ghost leased: Table, q: Queue, w: string, leases: seq<nat>, k: nat, via: Transport, now: string,
                      before: Tally)
    returns (result: Tally)
    requires q.Valid() && w != "" && k < |leases|
    requires Midway(leased, q.rows, HostEgress, w, leases, k, via, now, q.maxRetry, before)
    modifies q`rows
    ensures q.Valid() && Midway(leased, q.rows, HostEgress, w, leases, k + 1, via, now, q.maxRetry, result)
  {
    OneServed(leased, q.rows, HostEgress, w, leases, k, via, now, q.maxRetry, before);
    assert HeldBy(q.rows, leases[k], w);
    var status := HostDispatchLease(q, w, leases[k], via, now);
    UnknownCountsAsFailed(before, status, q.rows[leases[k]].status);
    result := Tallied(before, status);
  }

  /** The loop of `DispatchOutboundOnce` over its leases. */
  method HostServe(q: Queue, w: string, leases: seq<nat>, via: Transport, now: string)
    returns (result: Tally)
    requires q.Valid() && w != ""
    requires Midway(q.rows, q.rows, HostEgress, w, leases, 0, via, now, q.maxRetry, Fresh(leases))
    modifies q`rows
    ensures q.Valid() && q.rows == DispatchAll(old(q.rows), HostEgress, w, leases, via, now, q.maxRetry)
    ensures result.leased == |leases| && TallyFits(result, q.rows, leases)
  {
    ghost var leased := q.rows;
    result := Fresh(leases);
    for k := 0 to |leases|
      invariant q.Valid() && Midway(leased, q.rows, HostEgress, w, leases, k, via, now, q.maxRetry, result)
    {
      result := HostServeOne(leased, q, w, leases, k, via, now, result);
    }
    MidwayEnd(leased, q.rows, HostEgress, w, leases, via, now, q.maxRetry, result);
  }

  /** `DispatchOutboundOnce` of the host agent. A row is left as sending, and counted as failed,
      exactly when the transport's status is unknown. */
  method DispatchOutboundOnce(q: Queue, w: string, limit: int, selected: seq<nat>, via: Transport, now: string,
                              until: string)
    returns (result: Tally, recovered: nat)
    requires q.Valid() && w != ""
    requires IsBatch(Recovered(q.rows, now, q.maxRetry), if limit <= 0 then 1 else limit, selected)
    modifies q`rows
    ensures q.Valid() && q.rows == Round(old(q.rows), HostEgress, w, selected, via, now, until, q.maxRetry)
    ensures recovered == |RequeuedIds(old(q.rows), now, q.maxRetry)|
    ensures result.leased == |selected| && TallyFits(result, q.rows, selected)
  {
    recovered := q.RecoverExpiredLeases(now);
    MidwayStart(q.rows, if limit <= 0 then 1 else limit, HostEgress, w, selected, via, now, until, q.maxRetry);
    var leases := q.LeaseOutbound(w, if limit <= 0 then 1 else limit, selected, now, until);
    result := HostServe(q, w, leases, via, now);
  }

  // ---------------------------------------------------------------------------------------------
  // A round takes only steps of the worker protocol

  predicate OnlyBy(run: seq<Event>, w: string) { forall k :: 0 <= k < |run| ==> run[k].By? && run[k].worker == w }

  /** The first ticket of `w` is a fresh one for the row. */
  ghost predicate AtTicket(s: World, w: string, id: nat, kind: Kind)
  {
    var work := WorkOf(s, w);
    work.todo != [] && work.todo[0].id == id && work.phase.Start? && work.kind == kind
  }

  /** Steps of `w` alone that serve its first ticket, leave these rows and give this plan to the transport. */
  ghost predicate Serves(s: World, w: string, run: seq<Event>, rows: Table, given: Option<RoutePlan>, max: nat)
    requires WorkOf(s, w).todo != []
  {
    && PossibleEvents(s, run, max) && OnlyBy(run, w)
    && AfterEvents(s, run, max).ledger.rows == rows
    && AfterEvents(s, run, max).handoffs ==
         s.handoffs + (if given.Some? then [Handoff(WorkOf(s, w).todo[0], w, given.value)] else [])
    && WorkOf(AfterEvents(s, run, max), w) == Next(WorkOf(s, w))
  }

  lemma TicketRun(s: World, w: string, id: nat, kind: Kind, outcome: Outcome, now: string, max: nat)
    returns (run: seq<Event>)
    requires AtTicket(s, w, id, kind) && HeldBy(s.ledger.rows, id, w) && !(kind == HostEgress && outcome.Acknowledged?)
    ensures var sending := Updated(s.ledger.rows, id, w, Sending, None, now);
            Serves(s, w, run, Finished(sending, kind, id, w, outcome, now, max), Some(s.ledger.rows[id].plan), max)
  {
    var e1, e2, e3, e4 := By(w, ReadPlan), By(w, MarkSending(now)), By(w, HandOver(outcome)), By(w, Finish(now));
    var s1 := Step(s, e1, max);
    var s2 := Step(s1, e2, max);
    var s3 := Step(s2, e3, max);
    RunOfFour(s, e1, e2, e3, e4, max);
    run := [e1, e2, e3, e4];
  }

  lemma AckTicketRun(s: World, w: string, id: nat, now: string, max: nat) returns (run: seq<Event>)
    requires AtTicket(s, w, id, HostEgress) && HeldBy(s.ledger.rows, id, w)
    ensures var sending := Updated(s.ledger.rows, id, w, Sending, None, now);
            var rows := Finished(sending, HostEgress, id, w, Acknowledged, now, max);
            Serves(s, w, run, rows, Some(s.ledger.rows[id].plan), max)
  {
    var e1, e2, e3 := By(w, ReadPlan), By(w, MarkSending(now)), By(w, HandOver(Acknowledged));
    var e4, e5 := By(w, Finish(now)), By(w, FinishAck(now));
    var s1 := Step(s, e1, max);
    var s2 := Step(s1, e2, max);
    var s3 := Step(s2, e3, max);
    RunOfFour(s1, e2, e3, e4, e5, max);
    Prepend(s, e1, [e2, e3, e4, e5], max);
    run := [e1] + [e2, e3, e4, e5];
  }

  lemma UnencodedTicketRun(s: World, w: string, id: nat, now: string, max: nat) returns (run: seq<Event>)
    requires AtTicket(s, w, id, HostEgress) && HeldBy(s.ledger.rows, id, w)
    ensures var sending := Updated(s.ledger.rows, id, w, Sending, None, now);
            Serves(s, w, run, Updated(sending, id, w, Dead, Some(EncodeFailed), now), None, max)
  {
    var e1, e2, e3 := By(w, ReadPlan), By(w, MarkSending(now)), By(w, EncodeFails(now));
    var s1 := Step(s, e1, max);
    var s2 := Step(s1, e2, max);
    RunOfThree(s, e1, e2, e3, max);
    run := [e1, e2, e3];
  }

  lemma LostTicketRun(s: World, w: string, id: nat, kind: Kind, now: string, max: nat) returns (run: seq<Event>)
    requires AtTicket(s, w, id, kind) && !HeldBy(s.ledger.rows, id, w)
    ensures Serves(s, w, run, s.ledger.rows, None, max)
  {
    var e1, e2 := By(w, ReadPlan), By(w, MarkSending(now));
    var s1 := Step(s, e1, max);
    if id in s.ledger.rows {
      RunOfTwo(s, e1, e2, max);
      run := [e1, e2];
    } else {
      RunOfOne(s, e1, max);
      run := [e1];
    }
  }

  /** In any world, whatever happened to the row meanwhile, dispatching the first ticket is a run of the worker. */
  lemma DispatchIsRun(s: World, w: string, id: nat, kind: Kind, via: Transport, now: string, max: nat)
    returns (run: seq<Event>)
    requires AtTicket(s, w, id, kind)
    ensures var rows := s.ledger.rows;
            var given := if HeldBy(rows, id, w) && !NotEncoded(kind, id, via) then Some(rows[id].plan) else None;
            Serves(s, w, run, Dispatched(rows, kind, w, id, via, now, max), given, max)
  {
    if !HeldBy(s.ledger.rows, id, w) {
      run := LostTicketRun(s, w, id, kind, now, max);
    } else {
      var o := via.answer(id, s.ledger.rows[id].plan);
      if NotEncoded(kind, id, via) {
        run := UnencodedTicketRun(s, w, id, now, max);
      } else if kind == HostEgress && o.Acknowledged? {
        run := AckTicketRun(s, w, id, now, max);
      } else {
        run := TicketRun(s, w, id, kind, o, now, max);
      }
    }
  }

  /** So is dispatching the first `k` tickets one after the other. */
  lemma {:induction false} DispatchAllIsRun(s: World, kind: Kind, w: string, ids: seq<nat>, via: Transport,
                                            now: string, max: nat)
    returns (run: seq<Event>)
    requires var work := WorkOf(s, w);
             && work.kind == kind && work.phase.Start? && |ids| <= |work.todo|
             && forall i :: 0 <= i < |ids| ==> work.todo[i].id == ids[i]
    ensures PossibleEvents(s, run, max) && OnlyBy(run, w)
    ensures AfterEvents(s, run, max).ledger.rows == DispatchAll(s.ledger.rows, kind, w, ids, via, now, max)
    ensures WorkOf(AfterEvents(s, run, max), w) == Work(kind, WorkOf(s, w).todo[|ids|..], Start)
  {
    if ids == [] {
      run := [];
    } else {
      var first := DispatchAllIsRun(s, kind, w, ids[..|ids| - 1], via, now, max);
      var n := AfterEvents(s, first, max);
      var last := DispatchIsRun(n, w, ids[|ids| - 1], kind, via, now, max);
      EventsConcat(s, first, last, max);
      run := first + last;
    }
  }

  /** A whole round from an idle worker is a run of the protocol: expiry, a batch, and the worker's own steps. */
  lemma RoundIsRun(s: World, kind: Kind, w: string, limit: nat, ids: seq<nat>, via: Transport, now: string,
                   until: string, max: nat)
    returns (run: seq<Event>)
    requires w != "" && WorkOf(s, w).todo == [] && IsBatch(Recovered(s.ledger.rows, now, max), limit, ids)
    ensures PossibleEvents(s, run, max)
    ensures AfterEvents(s, run, max).ledger.rows == Round(s.ledger.rows, kind, w, ids, via, now, until, max)
    ensures WorkOf(AfterEvents(s, run, max), w).todo == []
  {
    var e1, e2 := Around(ExhaustExpired(now)), Around(RequeueExpired(now));
    var e3 := By(w, TakeBatch(kind, limit, ids, until, now));
    var s1 := Step(s, e1, max);
    var s2 := Step(s1, e2, max);
    var s3 := Step(s2, e3, max);
    assert WorkOf(s3, w).todo == Tickets(s2.ledger.rows, ids, |s2.ledger.grants|);
    var rest := DispatchAllIsRun(s3, kind, w, ids, via, now, max);
    RunOfThree(s, e1, e2, e3, max);
    EventsConcat(s, [e1, e2, e3], rest, max);
    run := [e1, e2, e3] + rest;
  }
}
