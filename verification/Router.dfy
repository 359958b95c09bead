/**
 The router as an object: its tables are fields, and a transaction works on copies that are written back
 when it commits. Each method is proved against the function that the theorems are about.
 */
module Router {
  import opened Wrappers
  import opened SiteRouter
  import opened SiteRouterCommands
  import opened SiteRouterRuns
  import opened RoutePlanner
  import Outbox
  import OutboxCalls
  import CommandPhases
  import FileChunks
  import RadioDedupe
  import LatestState
  import Timestamps

  lemma OneRowPerKey(rows: Outbox.Table, id: nat)
    requires id in rows && Outbox.KeysUnique(rows)
    ensures RowOf(rows, rows[id].item.key) == id
  {
  }

  /** What compaction is as operations of a run: one for each retention that is set. */
  function Compaction(hours: int, clock: int, dead: Option<string>, stale: Option<string>): seq<Op>
  {
    [CompactSightings(hours, clock)]
    + (if dead.Some? then [QueueOp(OutboxCalls.Compact(dead.value))] else [])
    + (if stale.Some? then [CompactChunks(stale.value)] else [])
  }

  lemma CompactionPerforms(s: Store, hours: int, clock: int, dead: Option<string>, stale: Option<string>, cfg: Config)
    ensures var a := Perform(s, CompactSightings(hours, clock), cfg);
            var b := if dead.Some? then Perform(a, QueueOp(OutboxCalls.Compact(dead.value)), cfg) else a;
            var c := if stale.Some? then Perform(b, CompactChunks(stale.value), cfg) else b;
            PerformAll(s, Compaction(hours, clock, dead, stale), cfg) == c
  {
    var ops := Compaction(hours, clock, dead, stale);
    var a := Perform(s, ops[0], cfg);
    var rest := ops[1..];
    assert PerformAll(s, ops, cfg) == PerformAll(a, rest, cfg);
    if rest != [] {
      var b := Perform(a, rest[0], cfg);
      assert PerformAll(a, rest, cfg) == PerformAll(b, rest[1..], cfg);
      if rest[1..] != [] {
        assert PerformAll(b, rest[1..], cfg) == PerformAll(Perform(b, rest[1], cfg), rest[2..], cfg);
      }
    }
  }

  class Router {
    var messages: seq<Envelope>
    var events: map<string, string>
    var commands: CommandPhases.Commands
    var latest: LatestState.Latest
    var sightings: RadioDedupe.Observations
    var chunks: FileChunks.Chunks
    const queue: Outbox.Queue

    function Current(): Tables
      reads this
    {
      Tables(messages, events, commands, latest, sightings, chunks)
    }

    /** The leases granted so far do not matter to these methods. */
    function Contents(): Store
      reads this, queue
    {
      Store(Current(), OutboxCalls.Ledger(queue.rows, queue.nextId, []))
    }

    constructor (maxRetryCount: int)
      ensures fresh(queue) && queue.Valid() && Contents() == NO_STORE
    {
      messages, events, commands := [], map[], CommandPhases.Commands(map[], []);
      latest, sightings, chunks := map[], map[], map[];
      queue := new Outbox.Queue(maxRetryCount);
    }

    /** `lookupDuplicate` */
    method LookupDuplicate(e: Envelope) returns (duplicate: Option<string>)
      ensures duplicate == Duplicate(Current(), e)
    {
      match e.body {
        case Event(event, _) =>
          if event != "" && event in events {
            return Some(events[event]);
          }
        case Command(id, _) =>
          if id != "" && id in commands.ledger {
            return Some(commands.ledger[id].message);
          }
        case _ =>
      }
      for i := 0 to |messages|
        invariant forall j :: 0 <= j < i ==> messages[j].message != e.message
      {
        if messages[i].message == e.message {
          return Some(e.message);
        }
      }
      duplicate := None;
    }

    /** `recordDuplicateRadioObservation`: a sighting within the window is counted, a stale one deleted. */
    method RecordDuplicateSighting(e: Envelope, now: Now)
      returns (duplicate: Option<string>, seen: RadioDedupe.Observations)
      ensures duplicate == RadioDuplicate(Current(), e, now)
      ensures duplicate.Some? ==> seen == RadioDedupe.Sighted(sightings, e.body.onAirKey, e.message, now.at)
      ensures duplicate.None? ==> SightingsAfter(seen, e, now) == SightingsAfter(sightings, e, now)
      ensures duplicate.None? && !e.body.Event? ==> seen == sightings
    {
      seen := sightings;
      if !e.body.Event? || e.body.onAirKey == "" {
        return None, seen;
      }
      var key := e.body.onAirKey;
      if key !in seen {
        return None, seen;
      }
      if now.at - seen[key].lastSeen > RadioDedupe.WINDOW {
        seen := seen - {key};
        var sighting := RadioDedupe.Observation(e.message, now.at);
        assert seen[key := sighting] == sightings[key := sighting];
        return None, seen;
      }
      duplicate := Some(seen[key].first);
      seen := seen[key := RadioDedupe.Observation(seen[key].first, now.at)];
    }

    /** `Ingest`: validation, duplicates, then one transaction over all tables. */
    method Ingest(e: Envelope, now: Now, found: string) returns (outcome: Outcome)
      modifies this
      ensures Ingestion(Current(), outcome) == Ingested(old(Current()), e, now, found)
    {
      if !Validates(e) {
        return Failed(Invalid);
      }
      var known := LookupDuplicate(e);
      if known.Some? {
        return Acked(Ack(known.value, true));
      }
      var heard, seen := RecordDuplicateSighting(e, now);
      if heard.Some? {
        sightings := seen;
        return Acked(Ack(heard.value, true));
      }
      var names, calls, projected, stored := events, commands, latest, chunks;
      match e.body {
        case Event(event, key) =>
          if event != "" {
            names := names[event := e.message];
          }
          if key != "" {
            seen := RadioDedupe.Sighted(seen, key, e.message, now.at);
          }
        case StateReport(_, _, _, _, _) =>
          projected := LatestState.Upserted(projected, StateOf(e));
        case Command(id, slot) =>
          if SlotUsed(calls, slot) {
            return Failed(SlotTaken);
          }
          calls := calls.(ledger := calls.ledger[id := CommandPhases.Command(e.message, slot, CommandPhases.Issued)]);
        case CommandResult(_, _, phase) =>
          var r := CommandPhases.Record(calls, ResultCommand(e, found), phase, e.message);
          if r.Refused? {
            return Failed(BadResult(r.why));
          }
          calls := r.commands;
        case FileChunk(file, index, total) =>
          var r := FileChunks.Store(stored, file, index, total, e.message, now.text);
          if r.Refused? {
            return Failed(BadChunk(r.why));
          }
          stored := r.chunks;
        case Other(accepted) =>
          if !accepted {
            return Failed(BadOther);
          }
      }
      messages, events, commands, latest, sightings, chunks := messages + [e], names, calls, projected, seen, stored;
      outcome := Acked(Ack(e.message, false));
    }

    /** `IssueCommand`; the answer of the planner matters for a new command only. */
    method IssueCommand(e: Envelope, key: string, art: Artifacts, nodes: Nodes, priority: Outbox.Priority, now: Now)
      returns (outcome: Outcome, queueId: nat, ghost planning: Planning)
      requires queue.Valid()
      modifies this, queue
      ensures queue.Valid()
      ensures Ready(planning) <==> OutboundGate(art, nodes, e.request)
      ensures Ready(planning) ==> PlannedFrom(art, nodes, e.request, planning.plan)
      ensures var r := Issue(old(Contents()), e, key, planning, priority, now);
              Contents() == r.store && outcome == r.outcome && queueId == r.queueId
    {
      var plan := PlanOutboundRoute(art, nodes, e.request);
      planning := plan;
      if !e.body.Command? || !Validates(e) {
        return Failed(Invalid), 0, planning;
      }
      var known := LookupDuplicate(e);
      if known.Some? {
        queueId := Find(QueueKey(e, key));
        return Acked(Ack(known.value, true)), queueId, planning;
      }
      if !Ready(plan) {
        return Failed(NotSendable), 0, planning;
      }
      if SlotUsed(commands, e.body.slot) {
        return Failed(SlotTaken), 0, planning;
      }
      queueId := Commit(e, key, plan.plan, priority, now);
      outcome := Acked(Ack(e.message, false));
    }

    /** The insertions of `IssueCommand`. */
    method Commit(e: Envelope, key: string, plan: RoutePlan, priority: Outbox.Priority, now: Now)
      returns (queueId: nat)
      requires queue.Valid() && e.body.Command?
      modifies this, queue
      ensures queue.Valid()
      ensures Current() == old(Current()).(
                messages := old(messages) + [e],
                commands := old(commands).(ledger := old(commands.ledger)[e.body.id := IssuedRow(e)]))
      ensures Contents().outbox == OutboxCalls.Enqueued(old(Contents().outbox), ItemOf(e, key, priority, now), plan)
      ensures queueId == RowOf(queue.rows, QueueKey(e, key))
    {
      messages := messages + [e];
      commands := commands.(ledger := commands.ledger[e.body.id := IssuedRow(e)]);
      queueId := queue.Enqueue(ItemOf(e, key, priority, now), plan);
      OneRowPerKey(queue.rows, queueId);
    }

    /** `deleteOlderThan` on the radio observations; `older` compares times as stored texts. */
    method DeleteSightings(hours: int, clock: int, older: (int, int) -> bool)
      modifies this`sightings
      ensures forall key :: key in sightings <==>
                && key in old(sightings)
                && (hours <= 0 || !older(old(sightings)[key].lastSeen, clock - hours * RadioDedupe.HOUR))
      ensures forall key :: key in sightings ==> sightings[key] == old(sightings)[key]
    {
      if hours > 0 {
        sightings := map key | key in sightings && !older(sightings[key].lastSeen, clock - hours * RadioDedupe.HOUR) ::
          sightings[key];
      }
    }

    /** `deleteOlderThan` on the file chunks. */
    method DeleteChunks(cutoff: string)
      modifies this`chunks
      ensures forall slot :: slot in chunks <==>
                slot in old(chunks) && !Timestamps.Less(old(chunks)[slot].updated, cutoff)
      ensures forall slot :: slot in chunks ==> chunks[slot] == old(chunks)[slot]
    {
      chunks := map slot | slot in chunks && !Timestamps.Less(chunks[slot].updated, cutoff) :: chunks[slot];
    }

    /** `Compact`: every table whose retention is set loses its old rows, as the operations of a run do. */
    method Compact(hours: int, clock: int, older: (int, int) -> bool, dead: Option<string>, stale: Option<string>)
      requires queue.Valid()
      modifies this, queue`rows
      ensures queue.Valid()
      ensures var ops, cfg := Compaction(hours, clock, dead, stale), Config(queue.maxRetry, older);
              Contents() == PerformAll(old(Contents()), ops, cfg)
    {
      ghost var start, cfg := Contents(), Config(queue.maxRetry, older);
      DeleteSightings(hours, clock, older);
      ghost var first := Perform(start, CompactSightings(hours, clock), cfg);
      assert sightings == first.tables.sightings;
      assert Contents() == first;
      if dead.Some? {
        var _ := queue.DeleteDeadOlderThan(dead.value);
      }
      ghost var second := Contents();
      if stale.Some? {
        DeleteChunks(stale.value);
        assert chunks == FileChunks.Compacted(second.tables.chunks, stale.value);
      }
      CompactionPerforms(start, hours, clock, dead, stale, cfg);
    }

    /** `outboxQueueIDTx` */
    method Find(key: string) returns (id: nat)
      requires queue.Valid()
      ensures id == RowOf(queue.rows, key)
    {
      if Outbox.KeyTaken(queue.rows, key) {
        id :| id in queue.rows && queue.rows[id].item.key == key;
      } else {
        id := 0;
      }
    }
  }
}
