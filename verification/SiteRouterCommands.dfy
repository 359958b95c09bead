/**
 Issuing commands: the message, the ledger row and the queue row are written together or not at all, and
 a command that is issued again is answered with its queue row as long as that exists.
 */
module SiteRouterCommands {
  import opened Wrappers
  import opened SiteRouter
  import opened RoutePlanner
  import Outbox
  import OutboxCalls
  import CommandPhases

  datatype Store = Store(tables: Tables, outbox: OutboxCalls.Ledger)

  const NO_STORE := Store(NO_TABLES, OutboxCalls.EMPTY)

  const COMMAND_PREFIX := "command:"

  function DefaultKey(id: string): string { COMMAND_PREFIX + id }

  lemma DefaultKeyIsInjective(a: string, b: string)
    requires DefaultKey(a) == DefaultKey(b)
    ensures a == b
  {
    assert a == DefaultKey(a)[|COMMAND_PREFIX|..] && b == DefaultKey(b)[|COMMAND_PREFIX|..];
  }

  function QueueKey(e: Envelope, key: string): string
    requires e.body.Command?
  {
    if key != "" then key else DefaultKey(e.body.id)
  }

  /** The ledger row of a new command. */
  function IssuedRow(e: Envelope): CommandPhases.Command
    requires e.body.Command?
  {
    CommandPhases.Command(e.message, e.body.slot, CommandPhases.Issued)
  }

  /** What the queue row of a command keeps of it. */
  function ItemOf(e: Envelope, key: string, priority: Outbox.Priority, now: Now): Outbox.Item
    requires e.body.Command?
  {
    Outbox.Item(QueueKey(e, key), e.message, priority, now.text, e.request)
  }

  /** `outboxQueueIDTx`: the row of a key, 0 without one. */
  ghost function RowOf(rows: Outbox.Table, key: string): nat
  {
    if Outbox.KeyTaken(rows, key) then var id :| id in rows && rows[id].item.key == key; id else 0
  }

  datatype Issuing = Issuing(store: Store, outcome: Outcome, queueId: nat)

  /** `IssueCommand`, given the planner's answer. */
  ghost function Issue(s: Store, e: Envelope, key: string, planning: Planning, priority: Outbox.Priority,
                       now: Now): Issuing
  {
    if !e.body.Command? || !Validates(e) then Issuing(s, Failed(Invalid), 0)
    else if Duplicate(s.tables, e).Some? then
      Issuing(s, Acked(Ack(Duplicate(s.tables, e).value, true)), RowOf(s.outbox.rows, QueueKey(e, key)))
    else if !Ready(planning) then Issuing(s, Failed(NotSendable), 0)
    else
      var r := Inserted(s.tables, e, now, "");
      if r.Rejected? then Issuing(s, Failed(r.why), 0)
      else
        var item := ItemOf(e, key, priority, now);
        var outbox := OutboxCalls.Enqueued(s.outbox, item, planning.plan);
        Issuing(Store(r.tables, outbox), Acked(Ack(e.message, false)), RowOf(outbox.rows, item.key))
  }

  // ---------------------------------------------------------------------------------------------
  // All or nothing

  ghost predicate StoreOk(s: Store, max: nat) { TablesOk(s.tables) && OutboxCalls.Inv(s.outbox, max) }

  lemma RowOfIsUnique(l: OutboxCalls.Ledger, max: nat, id: nat)
    requires OutboxCalls.Inv(l, max) && id in l.rows
    ensures RowOf(l.rows, l.rows[id].item.key) == id
  {
  }

  /** Message, ledger row and queue row together, or nothing at all. The queue row is a new one exactly
      when its key is not taken; with a taken key the command is attached to the existing row. */
  lemma IssueIsAtomic(s: Store, e: Envelope, key: string, planning: Planning, priority: Outbox.Priority, now: Now,
                      max: nat)
    requires 0 < max && StoreOk(s, max)
    ensures var r := Issue(s, e, key, planning, priority, now);
            if r.outcome.Acked? && !r.outcome.ack.duplicate then
              var rows, before := r.store.outbox.rows, s.outbox.rows;
              && r.store.tables.messages == s.tables.messages + [e]
              && e.body.id !in s.tables.commands.ledger
              && r.store.tables.commands.ledger == s.tables.commands.ledger[e.body.id := IssuedRow(e)]
              && r.queueId in rows && rows[r.queueId].item.key == QueueKey(e, key)
              && (r.queueId !in before <==> !Outbox.KeyTaken(before, QueueKey(e, key)))
              && (r.queueId !in before ==>
                    rows[r.queueId].item.message == e.message && Outbox.Leasable(rows[r.queueId]))
              && (forall id :: id in before ==> id in rows && rows[id] == before[id])
              && rows.Keys == before.Keys + {r.queueId}
            else r.store == s
  {
    var r := Issue(s, e, key, planning, priority, now);
    if r.outcome.Acked? && !r.outcome.ack.duplicate {
      var k := QueueKey(e, key);
      if !Outbox.KeyTaken(s.outbox.rows, k) {
        assert r.store.outbox.rows[s.outbox.nextId].item.key == k;
        assert s.outbox.nextId !in s.outbox.rows;
        OutboxCalls.EnqueueKeeps(s.outbox, OutboxCalls.Enqueue(ItemOf(e, key, priority, now), planning.plan), max);
      }
    }
  }

  lemma IssueKeeps(s: Store, e: Envelope, key: string, planning: Planning, priority: Outbox.Priority, now: Now,
                   max: nat)
    requires 0 < max && StoreOk(s, max)
    ensures StoreOk(Issue(s, e, key, planning, priority, now).store, max)
  {
    var r := Issue(s, e, key, planning, priority, now);
    if r.outcome.Acked? && !r.outcome.ack.duplicate {
      InsertedKeeps(s.tables, e, now, "");
      OutboxCalls.EnqueueKeeps(s.outbox, OutboxCalls.Enqueue(ItemOf(e, key, priority, now), planning.plan), max);
    }
  }

  /** A new command with a free slot and a sendable plan is taken. */
  lemma NewCommandIsIssued(s: Store, e: Envelope, key: string, planning: Planning, priority: Outbox.Priority, now: Now)
    requires e.body.Command? && Validates(e) && Ready(planning)
    requires Duplicate(s.tables, e).None? && !SlotUsed(s.tables.commands, e.body.slot)
    ensures var r := Issue(s, e, key, planning, priority, now);
            && r.outcome == Acked(Ack(e.message, false))
            && r.store.tables.messages == s.tables.messages + [e]
            && r.store.tables.commands ==
                 s.tables.commands.(ledger := s.tables.commands.ledger[e.body.id := IssuedRow(e)])
            && r.store.outbox == OutboxCalls.Enqueued(s.outbox, ItemOf(e, key, priority, now), planning.plan)
  {
  }

  /** Under a free key the row that is added carries the command's own envelope and plan, and waits for its first
      lease. */
  lemma NewQueueRow(s: Store, e: Envelope, key: string, planning: Planning, priority: Outbox.Priority, now: Now,
                    max: nat)
    requires OutboxCalls.Inv(s.outbox, max) && e.body.Command? && Validates(e) && Ready(planning)
    requires Duplicate(s.tables, e).None? && !SlotUsed(s.tables.commands, e.body.slot)
    requires var k := if key != "" then key else "command:" + e.body.id;
             forall id :: id in s.outbox.rows ==> s.outbox.rows[id].item.key != k
    ensures var r := Issue(s, e, key, planning, priority, now);
            var k := if key != "" then key else "command:" + e.body.id;
            && r.queueId == s.outbox.nextId && r.store.outbox.nextId == s.outbox.nextId + 1
            && r.store.outbox.rows == s.outbox.rows[r.queueId := Outbox.Row(
                 Outbox.Item(k, e.message, priority, now.text, e.request), Outbox.Queued, ReadyToSend, planning.plan,
                 Outbox.Hold(None, None), 0, None, now.text)]
  {
    NewCommandIsIssued(s, e, key, planning, priority, now);
    var rows := Issue(s, e, key, planning, priority, now).store.outbox.rows;
    assert s.outbox.nextId !in s.outbox.rows;
    assert rows[s.outbox.nextId].item.key == QueueKey(e, key);
  }

  lemma IssuedKeepsRows(s: Store, e: Envelope, key: string, planning: Planning, priority: Outbox.Priority, now: Now)
    ensures RowsKept(s.tables.commands, Issue(s, e, key, planning, priority, now).store.tables.commands)
  {
    if e.body.Command? && Validates(e) && Duplicate(s.tables, e).None? && Inserted(s.tables, e, now, "").Done? {
      CommandsAfterKeepsRows(s.tables.commands, e, "");
    }
  }
}
