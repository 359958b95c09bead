/**
 The Site Router's ingest: every message is persisted once, together with what its kind adds to the
 ledgers, or not at all. Each SQL transaction is one atomic step; tables are sequences and maps.
 */
module SiteRouter {
  import opened Wrappers
  import CommandPhases
  import FileChunks
  import LatestState
  import RadioDedupe
  import RoutePlanner

  // ---------------------------------------------------------------------------------------------
  // Envelopes

  /** What the kinds carry. For a command result, `command` is the id it names, if any, and `phase` is
      `None` for a text that is no result phase; a missing text counts as accepted. `Other` are the manifest,
      lease, heartbeat and summary kinds, with the verdict of their own checks. */
  datatype Body =
    | Event(event: string, onAirKey: string)
    | StateReport(key: string, occurred: Option<int>, session: Option<string>, seqLocal: int, payload: string)
    | Command(id: string, slot: Option<CommandPhases.TokenSlot>)
    | CommandResult(command: string, token: Option<int>, phase: Option<CommandPhases.Phase>)
    | FileChunk(file: string, index: Option<int>, total: Option<int>)
    | Other(accepted: bool)

  /** `wellFormed` is the verdict of the field checks that are not spelled out here, `request` what the
      planner looks at. */
  datatype Envelope = Envelope(
    message: string, source: string, wellFormed: bool, request: RoutePlanner.Request, body: Body)

  /** `Envelope.Validate` */
  predicate Validates(e: Envelope)
  {
    && e.wellFormed && e.message != "" && e.source != ""
    && (e.body.Command? ==> e.body.id != "")
    && (e.body.CommandResult? && e.body.command == "" ==> e.body.token.Some?)
  }

  function StateOf(e: Envelope): LatestState.State
    requires e.body.StateReport?
  {
    LatestState.State(e.source, e.body.key, e.message, e.body.occurred, e.body.session, e.body.seqLocal, e.body.payload)
  }

  // ---------------------------------------------------------------------------------------------
  // Tables

  datatype Tables = Tables(
    messages: seq<Envelope>, events: map<string, string>, commands: CommandPhases.Commands,
    latest: LatestState.Latest, sightings: RadioDedupe.Observations, chunks: FileChunks.Chunks)

  predicate Persisted(messages: seq<Envelope>, message: string)
  {
    exists i :: 0 <= i < |messages| && messages[i].message == message
  }

  /** `lookupDuplicate` */
  function Duplicate(t: Tables, e: Envelope): Option<string>
  {
    if e.body.Event? && e.body.event != "" && e.body.event in t.events then Some(t.events[e.body.event])
    else if e.body.Command? && e.body.id != "" && e.body.id in t.commands.ledger then
      Some(t.commands.ledger[e.body.id].message)
    else if Persisted(t.messages, e.message) then Some(e.message)
    else None
  }

  datatype Error =
    | Invalid | SlotTaken | BadResult(why: CommandPhases.Refusal) | BadChunk(refused: FileChunks.Refusal)
    | BadOther | NotSendable

  datatype Ack = Ack(message: string, duplicate: bool)

  datatype Outcome = Acked(ack: Ack) | Failed(error: Error)

  /** The instant of a transaction, and its stored text. */
  datatype Now = Now(at: int, text: string)

  /** The command a result is about; `found` is the answer of the token query, "" without one. */
  function ResultCommand(e: Envelope, found: string): string
    requires e.body.CommandResult?
  {
    if e.body.command != "" then e.body.command else found
  }

  /** A possible answer of the token query, which has no order: any command that holds the token for the
      source, "" if there is none. */
  ghost predicate IsTokenAnswer(t: Tables, e: Envelope, found: string)
  {
    e.body.CommandResult? && e.body.command == "" && e.body.token.Some? ==>
      CommandPhases.IsAnswer(t.commands, e.source, e.body.token.value, found)
  }

  predicate SlotUsed(c: CommandPhases.Commands, slot: Option<CommandPhases.TokenSlot>)
  {
    slot.Some? && exists id :: id in c.ledger && c.ledger[id].slot == slot
  }

  function EventsAfter(events: map<string, string>, e: Envelope): map<string, string>
  {
    if e.body.Event? && e.body.event != "" then events[e.body.event := e.message] else events
  }

  function SightingsAfter(sightings: RadioDedupe.Observations, e: Envelope, now: Now): RadioDedupe.Observations
  {
    if e.body.Event? && e.body.onAirKey != "" then RadioDedupe.Sighted(sightings, e.body.onAirKey, e.message, now.at)
    else sightings
  }

  function LatestAfter(latest: LatestState.Latest, e: Envelope): LatestState.Latest
  {
    if e.body.StateReport? then LatestState.Upserted(latest, StateOf(e)) else latest
  }

  datatype CommandsEffect = CommandsDone(commands: CommandPhases.Commands) | CommandsRefused(error: Error)

  function CommandsAfter(c: CommandPhases.Commands, e: Envelope, found: string): CommandsEffect
  {
    match e.body
    case Command(id, slot) =>
      if id == "" then CommandsDone(c)
      else if SlotUsed(c, slot) then CommandsRefused(SlotTaken)
      else CommandsDone(c.(ledger := c.ledger[id := CommandPhases.Command(e.message, slot, CommandPhases.Issued)]))
    case CommandResult(_, _, phase) =>
      var r := CommandPhases.Record(c, ResultCommand(e, found), phase, e.message);
      if r.Recorded? then CommandsDone(r.commands) else CommandsRefused(BadResult(r.why))
    case _ => CommandsDone(c)
  }

  function ChunksAfter(chunks: FileChunks.Chunks, e: Envelope, now: Now): FileChunks.Stored
  {
    if e.body.FileChunk? then FileChunks.Store(chunks, e.body.file, e.body.index, e.body.total, e.message, now.text)
    else FileChunks.Stored(chunks)
  }

  datatype Effect = Done(tables: Tables) | Rejected(why: Error)

  /** What inserting a new message does to the ledgers. */
  function Inserted(t: Tables, e: Envelope, now: Now, found: string): Effect
  {
    var commands, chunks := CommandsAfter(t.commands, e, found), ChunksAfter(t.chunks, e, now);
    if commands.CommandsRefused? then Rejected(commands.error)
    else if chunks.Refused? then Rejected(BadChunk(chunks.why))
    else if e.body == Other(false) then Rejected(BadOther)
    else Done(Tables(t.messages + [e], EventsAfter(t.events, e), commands.commands, LatestAfter(t.latest, e),
                     SightingsAfter(t.sightings, e, now), chunks.chunks))
  }

  function RadioDuplicate(t: Tables, e: Envelope, now: Now): Option<string>
  {
    if e.body.Event? && e.body.onAirKey != "" then RadioDedupe.DuplicateOf(t.sightings, e.body.onAirKey, now.at)
    else None
  }

  datatype Ingestion = Ingestion(tables: Tables, outcome: Outcome)

  /** `Ingest` */
  function Ingested(t: Tables, e: Envelope, now: Now, found: string): Ingestion
  {
    if !Validates(e) then Ingestion(t, Failed(Invalid))
    else if Duplicate(t, e).Some? then Ingestion(t, Acked(Ack(Duplicate(t, e).value, true)))
    else if RadioDuplicate(t, e, now).Some? then
      Ingestion(t.(sightings := RadioDedupe.Sighted(t.sightings, e.body.onAirKey, e.message, now.at)),
                Acked(Ack(RadioDuplicate(t, e, now).value, true)))
    else
      var r := Inserted(t, e, now, found);
      if r.Done? then Ingestion(r.tables, Acked(Ack(e.message, false))) else Ingestion(t, Failed(r.why))
  }

  // ---------------------------------------------------------------------------------------------
  // The invariant, table by table

  predicate MessagesOk(messages: seq<Envelope>)
  {
    forall i, j :: 0 <= i < j < |messages| ==> messages[i].message != messages[j].message
  }

  /** One row per event id, and it is the event's only message. */
  predicate EventsOk(messages: seq<Envelope>, events: map<string, string>)
  {
    && (forall event :: event in events ==> Persisted(messages, events[event]))
    && (forall i :: 0 <= i < |messages| && messages[i].body.Event? && messages[i].body.event != "" ==>
          messages[i].body.event in events && events[messages[i].body.event] == messages[i].message)
  }

  /** One row per command id, and it is the command's only message. */
  predicate CommandRowsOk(messages: seq<Envelope>, ledger: map<string, CommandPhases.Command>)
  {
    && (forall id :: id in ledger ==> Persisted(messages, ledger[id].message))
    && (forall i :: 0 <= i < |messages| && messages[i].body.Command? && messages[i].body.id != "" ==>
          messages[i].body.id in ledger && ledger[messages[i].body.id].message == messages[i].message)
  }

  predicate SlotsOk(ledger: map<string, CommandPhases.Command>)
  {
    forall a, b :: a in ledger && b in ledger && a != b && ledger[a].slot.Some? ==> ledger[a].slot != ledger[b].slot
  }

  predicate SightingsOk(messages: seq<Envelope>, sightings: RadioDedupe.Observations)
  {
    forall key :: key in sightings ==> Persisted(messages, sightings[key].first)
  }

  /** The states among the messages, in the order they were persisted. */
  function States(messages: seq<Envelope>): seq<LatestState.State>
  {
    if messages == [] then []
    else
      var last := messages[|messages| - 1];
      States(messages[..|messages| - 1]) + if last.body.StateReport? then [StateOf(last)] else []
  }

  ghost predicate TablesOk(t: Tables)
  {
    && MessagesOk(t.messages) && EventsOk(t.messages, t.events) && SightingsOk(t.messages, t.sightings)
    && CommandRowsOk(t.messages, t.commands.ledger) && SlotsOk(t.commands.ledger)
    && CommandPhases.Consistent(t.commands)
    && FileChunks.Uniform(t.chunks)
    && t.latest == LatestState.Project(States(t.messages))
  }

  const NO_TABLES := Tables([], map[], CommandPhases.Commands(map[], []), map[], map[], map[])

  lemma NoTablesOk()
    ensures TablesOk(NO_TABLES)
  {
  }

  // ---------------------------------------------------------------------------------------------
  // Inserting keeps the invariant

  lemma PersistedGrows(messages: seq<Envelope>, e: Envelope, message: string)
    ensures Persisted(messages + [e], message) <==> Persisted(messages, message) || message == e.message
  {
    var more := messages + [e];
    if i :| 0 <= i < |messages| && messages[i].message == message {
      assert more[i].message == message;
    }
    assert more[|messages|] == e;
  }

  lemma EventsKept(messages: seq<Envelope>, events: map<string, string>, e: Envelope)
    requires MessagesOk(messages) && EventsOk(messages, events) && !Persisted(messages, e.message)
    requires e.body.Event? && e.body.event != "" ==> e.body.event !in events
    ensures MessagesOk(messages + [e]) && EventsOk(messages + [e], EventsAfter(events, e))
  {
    forall message
      ensures Persisted(messages + [e], message) <==> Persisted(messages, message) || message == e.message {
      PersistedGrows(messages, e, message);
    }
  }

  lemma SightingsKept(messages: seq<Envelope>, sightings: RadioDedupe.Observations, e: Envelope, now: Now)
    requires SightingsOk(messages, sightings)
    ensures SightingsOk(messages + [e], SightingsAfter(sightings, e, now))
  {
    forall message
      ensures Persisted(messages + [e], message) <==> Persisted(messages, message) || message == e.message {
      PersistedGrows(messages, e, message);
    }
  }

  lemma CommandRowsKept(messages: seq<Envelope>, c: CommandPhases.Commands, e: Envelope, found: string)
    requires CommandRowsOk(messages, c.ledger) && CommandsAfter(c, e, found).CommandsDone?
    requires e.body.Command? ==> e.body.id !in c.ledger
    ensures CommandRowsOk(messages + [e], CommandsAfter(c, e, found).commands.ledger)
  {
    forall message
      ensures Persisted(messages + [e], message) <==> Persisted(messages, message) || message == e.message {
      PersistedGrows(messages, e, message);
    }
  }

  lemma SlotsKept(c: CommandPhases.Commands, e: Envelope, found: string)
    requires SlotsOk(c.ledger) && CommandsAfter(c, e, found).CommandsDone?
    ensures SlotsOk(CommandsAfter(c, e, found).commands.ledger)
  {
  }

  lemma CommandHistoryKept(c: CommandPhases.Commands, e: Envelope, found: string)
    requires CommandPhases.Consistent(c) && CommandsAfter(c, e, found).CommandsDone?
    requires e.body.Command? ==> e.body.id !in c.ledger
    ensures CommandPhases.Consistent(CommandsAfter(c, e, found).commands)
  {
    match e.body
    case Command(id, slot) =>
      if id != "" {
        CommandPhases.IssueKeeps(c, id, CommandPhases.Command(e.message, slot, CommandPhases.Issued));
      }
    case CommandResult(_, _, phase) => CommandPhases.RecordKeeps(c, ResultCommand(e, found), phase, e.message);
    case _ =>
  }

  lemma LatestKept(messages: seq<Envelope>, latest: LatestState.Latest, e: Envelope)
    requires latest == LatestState.Project(States(messages))
    ensures LatestAfter(latest, e) == LatestState.Project(States(messages + [e]))
  {
    assert (messages + [e])[..|messages|] == messages;
    if e.body.StateReport? {
      assert States(messages + [e])[..|States(messages)|] == States(messages);
    } else {
      assert States(messages + [e]) == States(messages);
    }
  }

  lemma InsertedKeeps(t: Tables, e: Envelope, now: Now, found: string)
    requires TablesOk(t) && Validates(e) && Duplicate(t, e).None? && Inserted(t, e, now, found).Done?
    ensures TablesOk(Inserted(t, e, now, found).tables)
  {
    EventsKept(t.messages, t.events, e);
    SightingsKept(t.messages, t.sightings, e, now);
    CommandRowsKept(t.messages, t.commands, e, found);
    SlotsKept(t.commands, e, found);
    CommandHistoryKept(t.commands, e, found);
    LatestKept(t.messages, t.latest, e);
    if e.body.FileChunk? {
      FileChunks.StoreKeepsUniform(t.chunks, e.body.file, e.body.index, e.body.total, e.message, now.text);
    }
  }

  lemma IngestKeeps(t: Tables, e: Envelope, now: Now, found: string)
    requires TablesOk(t)
    ensures TablesOk(Ingested(t, e, now, found).tables)
  {
    if Validates(e) && Duplicate(t, e).None? {
      if RadioDuplicate(t, e, now).Some? {
      } else if Inserted(t, e, now, found).Done? {
        InsertedKeeps(t, e, now, found);
      }
    }
  }

  // ---------------------------------------------------------------------------------------------
  // Command rows stay

  /** Ledger rows keep their messages and slots. */
  predicate RowsKept(c: CommandPhases.Commands, n: CommandPhases.Commands)
  {
    forall id :: id in c.ledger ==>
      id in n.ledger && n.ledger[id].slot == c.ledger[id].slot && n.ledger[id].message == c.ledger[id].message
  }

  lemma CommandsAfterKeepsRows(c: CommandPhases.Commands, e: Envelope, found: string)
    requires CommandsAfter(c, e, found).CommandsDone? && (e.body.Command? ==> e.body.id !in c.ledger)
    ensures RowsKept(c, CommandsAfter(c, e, found).commands)
  {
  }

  lemma IngestedKeepsRows(t: Tables, e: Envelope, now: Now, found: string)
    ensures RowsKept(t.commands, Ingested(t, e, now, found).tables.commands)
  {
    if Validates(e) && Duplicate(t, e).None? && CommandsAfter(t.commands, e, found).CommandsDone? {
      CommandsAfterKeepsRows(t.commands, e, found);
    }
  }

  // ---------------------------------------------------------------------------------------------
  // Acknowledgements

  /** Every acknowledgement names a persisted message. */
  lemma AcksNamePersisted(t: Tables, e: Envelope, now: Now, found: string)
    requires TablesOk(t)
    ensures var r := Ingested(t, e, now, found);
            r.outcome.Acked? ==> Persisted(r.tables.messages, r.outcome.ack.message)
  {
    PersistedGrows(t.messages, e, e.message);
  }

  /** Ingesting a persisted envelope again, at any time, changes nothing and acknowledges the same message. */
  lemma ReplayIsNoOp(t: Tables, e: Envelope, now: Now, found: string)
    requires TablesOk(t) && e in t.messages && Validates(e)
    ensures Ingested(t, e, now, found) == Ingestion(t, Acked(Ack(e.message, true)))
  {
    var i :| 0 <= i < |t.messages| && t.messages[i] == e;
    assert Persisted(t.messages, e.message);
  }

  /** A failure leaves every table as it was, a duplicate all but the sightings, and only an envelope of a
      new message id is appended. */
  lemma IngestIsAtomic(t: Tables, e: Envelope, now: Now, found: string)
    ensures var r := Ingested(t, e, now, found);
            && (r.outcome.Failed? ==> r.tables == t)
            && (r.outcome.Acked? && r.outcome.ack.duplicate ==> r.tables == t.(sightings := r.tables.sightings))
            && (r.outcome.Acked? && !r.outcome.ack.duplicate ==>
                  r.tables.messages == t.messages + [e] && !Persisted(t.messages, e.message))
  {
  }
}
