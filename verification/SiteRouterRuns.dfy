/**
 Runs of the router: ingests, commands, calls of the queue and compaction in any order.
 */
module SiteRouterRuns {
  import opened Wrappers
  import opened SiteRouter
  import opened SiteRouterCommands
  import opened RoutePlanner
  import Outbox
  import OutboxCalls
  import CommandPhases
  import FileChunks
  import LatestState
  import RadioDedupe

  /** The retry limit, and how stored times compare as texts. */
  datatype Config = Config(max: nat, older: (int, int) -> bool)

  // ---------------------------------------------------------------------------------------------
  // Runs of the router

  /** The three parts of `Compact` are operations of their own: sightings by hours of retention, chunks by a
      cutoff text, and dead queue rows by a call of the queue. */
  datatype Op =
    | Receive(e: Envelope, now: Now, found: string)
    | IssueOp(command: Envelope, key: string, planning: Planning, priority: Outbox.Priority, at: Now)
    | QueueOp(call: OutboxCalls.Call)
    | CompactSightings(hours: int, clock: int)
    | CompactChunks(cutoff: string)

  ghost predicate CanPerform(s: Store, op: Op)
  {
    && (op.QueueOp? ==> OutboxCalls.Possible(s.outbox, op.call))
    && (op.Receive? ==> IsTokenAnswer(s.tables, op.e, op.found))
  }

  ghost function Perform(s: Store, op: Op, cfg: Config): Store
  {
    match op
    case Receive(e, now, found) => s.(tables := Ingested(s.tables, e, now, found).tables)
    case IssueOp(e, key, planning, priority, at) => Issue(s, e, key, planning, priority, at).store
    case QueueOp(call) => s.(outbox := OutboxCalls.After(s.outbox, call, cfg.max))
    case CompactSightings(hours, now) =>
      s.(tables := s.tables.(sightings := RadioDedupe.Compacted(s.tables.sightings, cfg.older, hours, now)))
    case CompactChunks(cutoff) => s.(tables := s.tables.(chunks := FileChunks.Compacted(s.tables.chunks, cutoff)))
  }

  lemma PerformKeeps(s: Store, op: Op, cfg: Config)
    requires 0 < cfg.max && StoreOk(s, cfg.max) && CanPerform(s, op)
    ensures StoreOk(Perform(s, op, cfg), cfg.max)
  {
    match op
    case Receive(e, now, found) => IngestKeeps(s.tables, e, now, found);
    case IssueOp(e, key, planning, priority, at) => IssueKeeps(s, e, key, planning, priority, at, cfg.max);
    case QueueOp(call) => OutboxCalls.CallKeeps(s.outbox, call, cfg.max);
    case CompactSightings(hours, now) =>
    case CompactChunks(cutoff) => FileChunks.CompactionKeepsUniform(s.tables.chunks, cutoff);
  }

  ghost predicate PossibleOps(s: Store, ops: seq<Op>, cfg: Config)
    decreases |ops|
  {
    ops == [] || (CanPerform(s, ops[0]) && PossibleOps(Perform(s, ops[0], cfg), ops[1..], cfg))
  }

  ghost function PerformAll(s: Store, ops: seq<Op>, cfg: Config): Store
    decreases |ops|
  {
    if ops == [] then s else PerformAll(Perform(s, ops[0], cfg), ops[1..], cfg)
  }

  lemma {:induction false} PerformAllKeeps(s: Store, ops: seq<Op>, cfg: Config)
    requires 0 < cfg.max && StoreOk(s, cfg.max) && PossibleOps(s, ops, cfg)
    ensures StoreOk(PerformAll(s, ops, cfg), cfg.max)
    decreases |ops|
  {
    if ops == [] {
    } else {
      PerformKeeps(s, ops[0], cfg);
      PerformAllKeeps(Perform(s, ops[0], cfg), ops[1..], cfg);
    }
  }

  /** In every run from empty tables the invariant holds: one ledger row per event id and command id, each
      naming its only message, the latest state the projection of the states persisted, and so on. */
  lemma EveryRunIsConsistent(ops: seq<Op>, cfg: Config)
    requires 0 < cfg.max && PossibleOps(NO_STORE, ops, cfg)
    ensures StoreOk(PerformAll(NO_STORE, ops, cfg), cfg.max)
  {
    NoTablesOk();
    OutboxCalls.EmptyHolds(cfg.max);
    PerformAllKeeps(NO_STORE, ops, cfg);
  }

  // ---------------------------------------------------------------------------------------------
  // Issuing a command again

  /** The command is in the ledger with its message, and its queue row, if still there, has its key. */
  predicate IssuedAs(s: Store, id: string, message: string, key: string, queueId: nat)
  {
    && id in s.tables.commands.ledger && s.tables.commands.ledger[id].message == message
    && 0 < queueId < s.outbox.nextId && (queueId in s.outbox.rows ==> s.outbox.rows[queueId].item.key == key)
  }

  /** No operation takes or changes the message or the slot of a command. */
  lemma OpKeepsRows(s: Store, op: Op, cfg: Config)
    ensures RowsKept(s.tables.commands, Perform(s, op, cfg).tables.commands)
  {
    match op
    case Receive(e, now, found) => IngestedKeepsRows(s.tables, e, now, found);
    case IssueOp(e, key, planning, priority, at) => IssuedKeepsRows(s, e, key, planning, priority, at);
    case _ =>
  }

  /** Issuing a command enqueues one item or leaves the outbox alone. */
  lemma IssueEnqueues(s: Store, e: Envelope, key: string, planning: Planning, priority: Outbox.Priority, now: Now,
                      max: nat)
    ensures var n := Issue(s, e, key, planning, priority, now).store.outbox;
            || n == s.outbox
            || (&& e.body.Command? && Ready(planning)
                && var call := OutboxCalls.Enqueue(ItemOf(e, key, priority, now), planning.plan);
                n == OutboxCalls.After(s.outbox, call, max))
  {
  }

  lemma IssuedStays(s: Store, op: Op, cfg: Config, id: string, message: string, key: string, queueId: nat)
    requires OutboxCalls.Inv(s.outbox, cfg.max) && IssuedAs(s, id, message, key, queueId)
    ensures IssuedAs(Perform(s, op, cfg), id, message, key, queueId)
  {
    OpKeepsRows(s, op, cfg);
    match op
    case IssueOp(e, k, planning, priority, at) =>
      IssueEnqueues(s, e, k, planning, priority, at, cfg.max);
      if e.body.Command? && Ready(planning) {
        var call := OutboxCalls.Enqueue(ItemOf(e, k, priority, at), planning.plan);
        OutboxCalls.RowIdentity(s.outbox, call, cfg.max, queueId);
      }
    case QueueOp(call) => OutboxCalls.RowIdentity(s.outbox, call, cfg.max, queueId);
    case _ =>
  }

  lemma {:induction false} IssuedStaysInRun(s: Store, ops: seq<Op>, cfg: Config, id: string, message: string,
                                            key: string, queueId: nat)
    requires 0 < cfg.max && StoreOk(s, cfg.max) && PossibleOps(s, ops, cfg) && IssuedAs(s, id, message, key, queueId)
    ensures IssuedAs(PerformAll(s, ops, cfg), id, message, key, queueId)
    decreases |ops|
  {
    if ops == [] {
    } else {
      PerformKeeps(s, ops[0], cfg);
      IssuedStays(s, ops[0], cfg, id, message, key, queueId);
      IssuedStaysInRun(Perform(s, ops[0], cfg), ops[1..], cfg, id, message, key, queueId);
    }
  }

  lemma FirstIssue(s: Store, e: Envelope, planning: Planning, priority: Outbox.Priority, now: Now, max: nat)
    requires 0 < max && StoreOk(s, max)
    requires Issue(s, e, "", planning, priority, now).outcome == Acked(Ack(e.message, false))
    ensures var r := Issue(s, e, "", planning, priority, now);
            && e.body.Command? && StoreOk(r.store, max)
            && IssuedAs(r.store, e.body.id, e.message, DefaultKey(e.body.id), r.queueId)
  {
    IssueIsAtomic(s, e, "", planning, priority, now, max);
    IssueKeeps(s, e, "", planning, priority, now, max);
  }

  lemma NextIssue(n: Store, again: Envelope, planning: Planning, priority: Outbox.Priority, now: Now, message: string,
                  queueId: nat, max: nat)
    requires StoreOk(n, max) && again.body.Command? && Validates(again)
    requires IssuedAs(n, again.body.id, message, DefaultKey(again.body.id), queueId)
    ensures var r := Issue(n, again, "", planning, priority, now);
            && r.store == n && r.outcome == Acked(Ack(message, true))
            && (queueId in n.outbox.rows ==> r.queueId == queueId)
  {
    if queueId in n.outbox.rows {
      RowOfIsUnique(n.outbox, max, queueId);
    }
  }

  /** Whatever happened since, issuing a command again changes nothing and returns its first message and,
      until the row is compacted, its queue row, even if the planner would refuse the command by now. */
  lemma RepeatedIssueReturnsItsRow(s: Store, e: Envelope, planning: Planning, priority: Outbox.Priority, now: Now,
                                   ops: seq<Op>, again: Envelope, planning': Planning, priority': Outbox.Priority,
                                   now': Now, cfg: Config)
    requires 0 < cfg.max && StoreOk(s, cfg.max)
    requires Issue(s, e, "", planning, priority, now).outcome == Acked(Ack(e.message, false))
    requires PossibleOps(Issue(s, e, "", planning, priority, now).store, ops, cfg)
    requires again.body.Command? && e.body.Command? && again.body.id == e.body.id && Validates(again)
    ensures var issued := Issue(s, e, "", planning, priority, now);
            var n := PerformAll(issued.store, ops, cfg);
            var r := Issue(n, again, "", planning', priority', now');
            && r.store == n && r.outcome == Acked(Ack(e.message, true))
            && (issued.queueId in n.outbox.rows ==> r.queueId == issued.queueId)
  {
    var issued := Issue(s, e, "", planning, priority, now);
    FirstIssue(s, e, planning, priority, now, cfg.max);
    IssuedStaysInRun(issued.store, ops, cfg, e.body.id, e.message, DefaultKey(e.body.id), issued.queueId);
    PerformAllKeeps(issued.store, ops, cfg);
    var n := PerformAll(issued.store, ops, cfg);
    NextIssue(n, again, planning', priority', now', e.message, issued.queueId, cfg.max);
  }

  // ---------------------------------------------------------------------------------------------
  // Default keys

  /** Every queue row with the default key of a command belongs to a command in the ledger. */
  ghost predicate KeysOwned(s: Store)
  {
    forall q, id :: q in s.outbox.rows && s.outbox.rows[q].item.key == DefaultKey(id) ==> id in s.tables.commands.ledger
  }

  /** Commands are issued under their default keys, and nobody else chooses a key of that form. */
  predicate DefaultKeys(op: Op)
  {
    && (op.IssueOp? ==> op.key == "")
    && (op.QueueOp? && op.call.Enqueue? ==> !(COMMAND_PREFIX <= op.call.item.key))
  }

  /** A queue row was there before, or a command was issued with its key, or it was enqueued otherwise. */
  lemma ItemComesFrom(s: Store, op: Op, cfg: Config, q: nat)
    requires 0 < cfg.max && StoreOk(s, cfg.max) && q in Perform(s, op, cfg).outbox.rows
    ensures var n := Perform(s, op, cfg);
            var item := n.outbox.rows[q].item;
            || (q in s.outbox.rows && s.outbox.rows[q].item == item)
            || (op.IssueOp? && op.command.body.Command? && item.key == QueueKey(op.command, op.key)
                && op.command.body.id in n.tables.commands.ledger)
            || (op.QueueOp? && op.call.Enqueue? && item == op.call.item)
  {
    if op.IssueOp? {
      IssueIsAtomic(s, op.command, op.key, op.planning, op.priority, op.at, cfg.max);
    } else if op.QueueOp? && q < s.outbox.nextId {
      OutboxCalls.RowIdentity(s.outbox, op.call, cfg.max, q);
    }
  }

  lemma KeysStayOwned(s: Store, op: Op, cfg: Config)
    requires 0 < cfg.max && StoreOk(s, cfg.max) && KeysOwned(s) && DefaultKeys(op)
    ensures KeysOwned(Perform(s, op, cfg))
  {
    var n := Perform(s, op, cfg);
    OpKeepsRows(s, op, cfg);
    forall q, id | q in n.outbox.rows && n.outbox.rows[q].item.key == DefaultKey(id)
      ensures id in n.tables.commands.ledger {
      ItemComesFrom(s, op, cfg, q);
      assert COMMAND_PREFIX <= DefaultKey(id);
      if op.IssueOp? && op.command.body.Command? && DefaultKey(op.command.body.id) == DefaultKey(id) {
        DefaultKeyIsInjective(id, op.command.body.id);
      }
    }
  }

  /** As long as everybody uses default keys, a command that is taken gets a queue row of its own. */
  lemma {:induction false} CommandsGetTheirOwnRow(s: Store, ops: seq<Op>, e: Envelope, planning: Planning,
                                                  priority: Outbox.Priority, now: Now, cfg: Config)
    requires 0 < cfg.max && StoreOk(s, cfg.max) && KeysOwned(s) && PossibleOps(s, ops, cfg)
    requires forall k :: 0 <= k < |ops| ==> DefaultKeys(ops[k])
    ensures var n := PerformAll(s, ops, cfg);
            var r := Issue(n, e, "", planning, priority, now);
            r.outcome == Acked(Ack(e.message, false)) ==>
              && r.queueId !in n.outbox.rows && r.queueId in r.store.outbox.rows
              && r.store.outbox.rows[r.queueId].item.message == e.message
    decreases |ops|
  {
    if ops == [] {
      IssueIsAtomic(s, e, "", planning, priority, now, cfg.max);
    } else {
      PerformKeeps(s, ops[0], cfg);
      KeysStayOwned(s, ops[0], cfg);
      CommandsGetTheirOwnRow(Perform(s, ops[0], cfg), ops[1..], e, planning, priority, now, cfg);
    }
  }

  // ---------------------------------------------------------------------------------------------
  // Queue keys of the caller's choice

  /** A command issued under a taken key is persisted, but the outbox stays as it is: the command is attached
      to the row that is there. */
  lemma TakenKeyAddsNoRow(s: Store, e: Envelope, key: string, planning: Planning, priority: Outbox.Priority, now: Now,
                          max: nat, id: nat)
    requires StoreOk(s, max) && e.body.Command?
    requires id in s.outbox.rows && s.outbox.rows[id].item.key == QueueKey(e, key)
    requires Issue(s, e, key, planning, priority, now).outcome == Acked(Ack(e.message, false))
    ensures var r := Issue(s, e, key, planning, priority, now);
            r.store.outbox == s.outbox && r.queueId == id && Persisted(r.store.tables.messages, e.message)
  {
    RowOfIsUnique(s.outbox, max, id);
    PersistedGrows(s.tables.messages, e, e.message);
  }

  lemma FirstCommand(a: Envelope, key: string, planning: Planning, priority: Outbox.Priority, now: Now)
    requires a.body.Command? && Validates(a) && Ready(planning) && a.body.slot.None?
    ensures var r := Issue(NO_STORE, a, key, planning, priority, now);
            && r.outcome == Acked(Ack(a.message, false)) && StoreOk(r.store, 1)
            && r.store.tables.messages == [a]
            && r.store.tables.commands.ledger == map[a.body.id := IssuedRow(a)]
            && r.store.outbox.rows == map[1 := Outbox.NewRow(ItemOf(a, key, priority, now), planning.plan)]
  {
    NoTablesOk();
    OutboxCalls.EmptyHolds(1);
    IssueKeeps(NO_STORE, a, key, planning, priority, now, 1);
    NewCommandIsIssued(NO_STORE, a, key, planning, priority, now);
  }

  /** Two commands issued under one key: the second is persisted and acknowledged, but the only queue row is
      that of the first, and no row will ever carry the second one to its target. */
  lemma TakenKeyAttachesCommand(a: Envelope, b: Envelope, key: string, planA: Planning, planB: Planning,
                                priority: Outbox.Priority, now: Now, later: Now)
    requires a.body.Command? && b.body.Command? && Validates(a) && Validates(b) && Ready(planA) && Ready(planB)
    requires a.message != b.message && a.body.id != b.body.id && a.body.slot.None? && key != ""
    ensures var first := Issue(NO_STORE, a, key, planA, priority, now);
            var second := Issue(first.store, b, key, planB, priority, later);
            && second.outcome == Acked(Ack(b.message, false)) && Persisted(second.store.tables.messages, b.message)
            && second.queueId in second.store.outbox.rows
            && forall id :: id in second.store.outbox.rows ==> second.store.outbox.rows[id].item.message == a.message
  {
    var first := Issue(NO_STORE, a, key, planA, priority, now);
    FirstCommand(a, key, planA, priority, now);
    assert Duplicate(first.store.tables, b).None? && !SlotUsed(first.store.tables.commands, b.body.slot);
    NewCommandIsIssued(first.store, b, key, planB, priority, later);
    TakenKeyAddsNoRow(first.store, b, key, planB, priority, later, 1, 1);
  }

  // ---------------------------------------------------------------------------------------------
  // The latest state and its rebuild

  lemma {:induction false} StatesAreMessages(messages: seq<Envelope>)
    requires MessagesOk(messages)
    ensures LatestState.DistinctMessages(States(messages))
    ensures forall s :: s in States(messages) ==> exists i :: 0 <= i < |messages| && messages[i].message == s.message
  {
    if messages == [] {
    } else {
      var front := messages[..|messages| - 1];
      StatesAreMessages(front);
      forall s | s in States(front) ensures exists i :: 0 <= i < |messages| && messages[i].message == s.message {
        var i :| 0 <= i < |front| && front[i].message == s.message;
        assert messages[i].message == s.message;
      }
      forall k | 0 <= k < |States(front)| ensures States(front)[k].message != messages[|messages| - 1].message {
        assert States(front)[k] in States(front);
      }
    }
  }

  lemma LatestIsProjected(ops: seq<Op>, cfg: Config)
    requires 0 < cfg.max && PossibleOps(NO_STORE, ops, cfg)
    ensures var t := PerformAll(NO_STORE, ops, cfg).tables;
            t.latest == LatestState.Project(States(t.messages)) && LatestState.DistinctMessages(States(t.messages))
  {
    EveryRunIsConsistent(ops, cfg);
    StatesAreMessages(PerformAll(NO_STORE, ops, cfg).tables.messages);
  }

  /** After any run, rebuilding the latest states changes nothing, if all persisted states carry a time and
      those of one key at one instant share a session. */
  lemma RebuildIsNoOp(ops: seq<Op>, cfg: Config, persisted: seq<LatestState.Persisted>, sorted: seq<LatestState.State>)
    requires 0 < cfg.max && PossibleOps(NO_STORE, ops, cfg)
    requires LatestState.States(persisted) == States(PerformAll(NO_STORE, ops, cfg).tables.messages)
    requires multiset(sorted) == multiset(LatestState.Candidates(persisted))
    requires forall i :: 0 <= i < |persisted| ==> persisted[i].state.occurred.Some?
    requires LatestState.SharedPerKey(LatestState.States(persisted))
    ensures PerformAll(NO_STORE, ops, cfg).tables.latest == LatestState.Project(sorted)
  {
    LatestIsProjected(ops, cfg);
    LatestState.RebuildEqualsProjection(persisted, States(PerformAll(NO_STORE, ops, cfg).tables.messages), sorted);
  }

  /** In general: after any run, rebuilding changes nothing, however the candidates come out of the sort, if and
      only if every row beats all other candidates of its key. */
  lemma RebuildIsNoOpIff(ops: seq<Op>, cfg: Config, persisted: seq<LatestState.Persisted>)
    requires 0 < cfg.max && PossibleOps(NO_STORE, ops, cfg)
    requires LatestState.States(persisted) == States(PerformAll(NO_STORE, ops, cfg).tables.messages)
    ensures var latest := PerformAll(NO_STORE, ops, cfg).tables.latest;
            (forall sorted :: multiset(sorted) == multiset(LatestState.Candidates(persisted)) ==>
                                LatestState.Project(sorted) == latest)
            <==> (forall k :: k in latest ==> LatestState.BeatsCandidates(latest[k], persisted))
  {
    LatestIsProjected(ops, cfg);
    LatestState.RebuildReproducesIff(persisted, States(PerformAll(NO_STORE, ops, cfg).tables.messages));
  }
}
