/**
 What an ingest does, kind by kind, in terms of the fields of the envelope alone: which envelopes are
 refused, and which rows a new message adds or moves.
 */
module SiteRouterEffects {
  import opened Wrappers
  import opened SiteRouter
  import CommandPhases
  import FileChunks
  import LatestState
  import RadioDedupe

  /** The envelope passes validation and stands for nothing the router knows. */
  predicate IsNew(t: Tables, e: Envelope)
  {
    && e.wellFormed && e.message != "" && e.source != ""
    && (forall i :: 0 <= i < |t.messages| ==> t.messages[i].message != e.message)
  }

  /** Exactly these envelopes are refused as invalid. */
  lemma InvalidIff(t: Tables, e: Envelope, now: Now, found: string)
    ensures var r := Ingested(t, e, now, found);
            r.outcome == Failed(Invalid) <==>
              || !e.wellFormed || e.message == "" || e.source == ""
              || (e.body.Command? && e.body.id == "")
              || (e.body.CommandResult? && e.body.command == "" && e.body.token.None?)
  {
  }

  // ---------------------------------------------------------------------------------------------
  // Command results

  /** The result takes its command from one phase to another. */
  predicate Moves(current: CommandPhases.Phase, next: CommandPhases.Phase)
  {
    match current
    case Issued => !next.Issued?
    case Accepted => next.Executing? || next.Succeeded? || next.Failed? || next.Rejected? || next.Expired?
    case Executing => next.Succeeded? || next.Failed? || next.Expired?
    case _ => false
  }

  /** A result for command `id`: it moves that ledger row and adds one log entry, or repeats the row's phase and
      changes nothing but the messages, or is refused and changes nothing at all. */
  ghost predicate ResultFor(t: Tables, e: Envelope, id: string, phase: Option<CommandPhases.Phase>, r: Ingestion)
  {
    var c := t.commands;
    if phase.None? || phase.value.Issued? then r == Ingestion(t, Failed(BadResult(CommandPhases.BadPhase)))
    else if id !in c.ledger then r == Ingestion(t, Failed(BadResult(CommandPhases.UnknownCommand)))
    else if phase.value == c.ledger[id].phase then
      r == Ingestion(t.(messages := t.messages + [e]), Acked(Ack(e.message, false)))
    else if Moves(c.ledger[id].phase, phase.value) then
      && r.outcome == Acked(Ack(e.message, false))
      && r.tables == t.(messages := t.messages + [e], commands := r.tables.commands)
      && r.tables.commands.ledger == c.ledger[id := c.ledger[id].(phase := phase.value)]
      && r.tables.commands.log == c.log + [CommandPhases.Execution(id, phase.value, e.message)]
    else r == Ingestion(t, Failed(BadResult(CommandPhases.BadTransition)))
  }

  /** A result that names its command is taken for that command, whatever token it carries and whatever the
      token query would answer. */
  lemma NamedResult(t: Tables, e: Envelope, now: Now, found: string, id: string, token: Option<int>,
                    phase: Option<CommandPhases.Phase>)
    requires IsNew(t, e) && e.body == CommandResult(id, token, phase) && id != ""
    ensures ResultFor(t, e, id, phase, Ingested(t, e, now, found))
  {
    assert !Persisted(t.messages, e.message);
  }

  /** One that names a token only is taken for the command the query answers with, and refused without one. */
  lemma TokenResult(t: Tables, e: Envelope, now: Now, found: string, token: int, phase: Option<CommandPhases.Phase>)
    requires IsNew(t, e) && e.body == CommandResult("", Some(token), phase)
    ensures var r := Ingested(t, e, now, found);
            if found == "" then r == Ingestion(t, Failed(BadResult(CommandPhases.Unresolved)))
            else ResultFor(t, e, found, phase, r)
  {
    assert !Persisted(t.messages, e.message);
  }

  // ---------------------------------------------------------------------------------------------
  // The other kinds

  /** A new event is named by its event id, and opens the window of its on-air key unless that key was sighted
      within the last ten minutes: then it is a duplicate, and only the sighting is counted. */
  lemma NewEvent(t: Tables, e: Envelope, now: Now, found: string, event: string, key: string)
    requires IsNew(t, e) && e.body == Event(event, key) && (event == "" || event !in t.events)
    ensures var r := Ingested(t, e, now, found);
            if key != "" && key in t.sightings && now.at - t.sightings[key].lastSeen <= 600_000_000_000 then
              var first := t.sightings[key].first;
              r == Ingestion(t.(sightings := t.sightings[key := RadioDedupe.Observation(first, now.at)]),
                             Acked(Ack(first, true)))
            else
              r == Ingestion(t.(messages := t.messages + [e],
                                events := if event == "" then t.events else t.events[event := e.message],
                                sightings := if key == "" then t.sightings
                                             else t.sightings[key := RadioDedupe.Observation(e.message, now.at)]),
                             Acked(Ack(e.message, false)))
  {
    assert !Persisted(t.messages, e.message);
  }

  /** An event whose id is known is answered with the message of that id. */
  lemma KnownEvent(t: Tables, e: Envelope, now: Now, found: string, event: string, key: string)
    requires e.wellFormed && e.message != "" && e.source != "" && e.body == Event(event, key)
    requires event != "" && event in t.events
    ensures Ingested(t, e, now, found) == Ingestion(t, Acked(Ack(t.events[event], true)))
  {
  }

  /** A new state is compared with the row of its source and key only. */
  lemma NewState(t: Tables, e: Envelope, now: Now, found: string, key: string, occurred: Option<int>,
                 session: Option<string>, seqLocal: int, payload: string)
    requires IsNew(t, e) && e.body == StateReport(key, occurred, session, seqLocal, payload)
    ensures var s := LatestState.State(e.source, key, e.message, occurred, session, seqLocal, payload);
            var k := LatestState.Key(e.source, key);
            var replaced := k !in t.latest || LatestState.Compare(s, t.latest[k]) > 0;
            Ingested(t, e, now, found) ==
              Ingestion(t.(messages := t.messages + [e], latest := if replaced then t.latest[k := s] else t.latest),
                        Acked(Ack(e.message, false)))
  {
    assert !Persisted(t.messages, e.message);
  }

  /** A new command gets a ledger row in the issued phase, unless its target, window and token are taken. */
  lemma NewCommand(t: Tables, e: Envelope, now: Now, found: string, id: string, slot: Option<CommandPhases.TokenSlot>)
    requires IsNew(t, e) && e.body == Command(id, slot) && id != "" && id !in t.commands.ledger
    ensures var r := Ingested(t, e, now, found);
            if slot.Some? && exists other :: other in t.commands.ledger && t.commands.ledger[other].slot == slot then
              r == Ingestion(t, Failed(SlotTaken))
            else
              r == Ingestion(t.(messages := t.messages + [e], commands := t.commands.(ledger :=
                               t.commands.ledger[id := CommandPhases.Command(e.message, slot, CommandPhases.Issued)])),
                             Acked(Ack(e.message, false)))
  {
    assert !Persisted(t.messages, e.message);
  }

  /** A command whose id is known is answered with the message of that id. */
  lemma KnownCommand(t: Tables, e: Envelope, now: Now, found: string, id: string, slot: Option<CommandPhases.TokenSlot>)
    requires e.wellFormed && e.message != "" && e.source != "" && e.body == Command(id, slot)
    requires id != "" && id in t.commands.ledger
    ensures Ingested(t, e, now, found) == Ingestion(t, Acked(Ack(t.commands.ledger[id].message, true)))
  {
  }

  /** A chunk with index and total is stored at its place unless a row of its file names another total. */
  lemma NewChunk(t: Tables, e: Envelope, now: Now, found: string, file: string, index: Option<int>,
                 total: Option<int>)
    requires IsNew(t, e) && e.body == FileChunk(file, index, total)
    ensures var r := Ingested(t, e, now, found);
            if index.None? || total.None? then r == Ingestion(t, Failed(BadChunk(FileChunks.Incomplete)))
            else if exists s :: s in t.chunks && s.file == file && t.chunks[s].total != total.value then
              r == Ingestion(t, Failed(BadChunk(FileChunks.TotalMismatch)))
            else
              var chunk := FileChunks.Chunk(total.value, e.message, now.text);
              r == Ingestion(t.(messages := t.messages + [e],
                                chunks := t.chunks[FileChunks.Slot(file, index.value) := chunk]),
                             Acked(Ack(e.message, false)))
  {
    assert !Persisted(t.messages, e.message);
  }

  /** Any other kind is appended to the messages exactly if its own checks pass. */
  lemma NewOther(t: Tables, e: Envelope, now: Now, found: string, accepted: bool)
    requires IsNew(t, e) && e.body == Other(accepted)
    ensures Ingested(t, e, now, found) ==
              if accepted then Ingestion(t.(messages := t.messages + [e]), Acked(Ack(e.message, false)))
              else Ingestion(t, Failed(BadOther))
  {
    assert !Persisted(t.messages, e.message);
  }
}
