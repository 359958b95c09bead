/**
 From the radio to the ledger: an event packet that is heard by several gateways, directly and over
 relays, becomes one persisted message as long as the copies arrive within ten minutes.
 */
module RadioIngest {
  import opened Bytes
  import opened Wrappers
  import opened SiteRouter
  import opened SiteRouterCommands
  import opened SiteRouterRuns
  import opened RoutePlanner
  import OnAir
  import RadioDedupe

  /** Five minutes: the event id of a packet changes with it. */
  const BUCKET := 300 * RadioDedupe.SECOND

  /** How the host writes down keys and event ids. */
  datatype Naming = Naming(
    digest: seq<byte> -> seq<byte>, key: OnAir.OnAirKey -> string, event: (OnAir.OnAirKey, int) -> string)

  predicate IsEventFrame(f: seq<byte>)
  {
    && OnAir.Decode(f).Ok? && OnAir.DecodeBody(OnAir.Decode(f).value).Ok?
    && OnAir.DecodeBody(OnAir.Decode(f).value).value.Event?
  }

  function KeyOf(f: seq<byte>, names: Naming): OnAir.OnAirKey
    requires OnAir.Decode(f).Ok?
  {
    OnAir.StableKey(OnAir.Decode(f).value, names.digest)
  }

  /** The event branch of `decodeCompactSummaryEnvelope` for a frame received at `at`. */
  function EventEnvelope(message: string, source: string, f: seq<byte>, at: int, names: Naming, req: Request): Envelope
    requires IsEventFrame(f)
  {
    Envelope(message, source, true, req, Event(names.event(KeyOf(f, names), at / BUCKET), names.key(KeyOf(f, names))))
  }

  /** A relayed copy of an event frame is an event frame with the same key. */
  lemma RelayedCopyHasSameKey(f: seq<byte>, relays: seq<u16>, names: Naming)
    requires IsEventFrame(f) && OnAir.Relayed(f, relays).Some?
    ensures var g := OnAir.Relayed(f, relays).value; IsEventFrame(g) && KeyOf(g, names) == KeyOf(f, names)
  {
    OnAir.ChainKeepsIdentity(f, relays, names.digest);
  }

  /** The key was first heard with `message`, and last heard no earlier than `since`. */
  predicate Heard(t: Tables, key: string, message: string, since: int)
  {
    && key in t.sightings && t.sightings[key].first == message
    && since <= t.sightings[key].lastSeen && RadioDedupe.InCalendar(t.sightings[key].lastSeen)
  }

  /** Everything is ingested between two times, and nothing is compacted from after them. */
  predicate Between(op: Op, since: int, until: int)
  {
    match op
    case Receive(e, now, found) => since <= now.at <= until && RadioDedupe.InCalendar(now.at)
    case CompactSightings(hours, now) => now <= until && RadioDedupe.InCalendar(now - hours * RadioDedupe.HOUR)
    case _ => true
  }

  /** Within a window no operation forgets the key: compaction deletes only what is out of it. */
  lemma StillHeard(s: Store, op: Op, cfg: Config, key: string, message: string, since: int, until: int)
    requires Heard(s.tables, key, message, since) && Between(op, since, until) && until - since <= RadioDedupe.WINDOW
    requires RadioDedupe.FollowsSeconds(cfg.older)
    ensures Heard(Perform(s, op, cfg).tables, key, message, since)
  {
    if op.CompactSightings? && 0 < op.hours {
      var cutoff := op.clock - op.hours * RadioDedupe.HOUR;
      RadioDedupe.DeletedIsOld(cfg.older, s.tables.sightings[key].lastSeen, cutoff, op.clock);
    }
  }

  lemma {:induction false} StillHeardAfterAll(s: Store, ops: seq<Op>, cfg: Config, key: string, message: string,
                                              since: int, until: int)
    requires Heard(s.tables, key, message, since) && until - since <= RadioDedupe.WINDOW
    requires RadioDedupe.FollowsSeconds(cfg.older) && forall k :: 0 <= k < |ops| ==> Between(ops[k], since, until)
    ensures Heard(PerformAll(s, ops, cfg).tables, key, message, since)
    decreases |ops|
  {
    if ops == [] {
    } else {
      StillHeard(s, ops[0], cfg, key, message, since, until);
      StillHeardAfterAll(Perform(s, ops[0], cfg), ops[1..], cfg, key, message, since, until);
    }
  }

  /** While the key is heard, no event with it is persisted. */
  lemma HeardIsNotPersisted(t: Tables, e: Envelope, now: Now, found: string, message: string, since: int)
    requires e.body.Event? && e.body.onAirKey != "" && Validates(e)
    requires Heard(t, e.body.onAirKey, message, since) && now.at - since <= RadioDedupe.WINDOW
    ensures var r := Ingested(t, e, now, found);
            r.outcome.Acked? && r.outcome.ack.duplicate && r.tables.messages == t.messages
  {
  }

  /** An event that was recorded as a sighting of its on-air key: persisted, or answered as heard before. */
  predicate CountsAsSighting(t: Tables, e: Envelope, now: Now)
  {
    && e.body.Event? && e.body.onAirKey != "" && Validates(e) && Duplicate(t, e).None?
    && RadioDedupe.InCalendar(now.at)
  }

  lemma SightingIsHeard(t: Tables, e: Envelope, now: Now, found: string)
    requires CountsAsSighting(t, e, now)
    ensures var u := Ingested(t, e, now, found).tables;
            e.body.onAirKey in u.sightings && Heard(u, e.body.onAirKey, u.sightings[e.body.onAirKey].first, now.at)
  {
  }

  lemma PersistedIsHeard(t: Tables, e: Envelope, now: Now, found: string)
    requires e.body.Event? && e.body.onAirKey != "" && RadioDedupe.InCalendar(now.at)
    requires Ingested(t, e, now, found).outcome == Acked(Ack(e.message, false))
    ensures Heard(Ingested(t, e, now, found).tables, e.body.onAirKey, e.message, now.at)
  {
  }

  /** The store after an ingest. */
  function Received(s: Store, e: Envelope, now: Now, found: string): Store
  {
    s.(tables := Ingested(s.tables, e, now, found).tables)
  }

  /** Whatever else the router does in between, compaction included, an event is persisted only more than
      ten minutes after every recorded sighting of its key, that of any persisted event among them. */
  lemma PersistedOutsideWindow(s: Store, e: Envelope, now: Now, found: string, ops: seq<Op>, cfg: Config,
                               next: Envelope, later: Now, answer: string)
    requires CountsAsSighting(s.tables, e, now) && RadioDedupe.FollowsSeconds(cfg.older)
    requires forall k :: 0 <= k < |ops| ==> Between(ops[k], now.at, later.at)
    requires next.body.Event? && next.body.onAirKey == e.body.onAirKey
    requires var n := PerformAll(Received(s, e, now, found), ops, cfg);
             Ingested(n.tables, next, later, answer).outcome == Acked(Ack(next.message, false))
    ensures later.at - now.at > RadioDedupe.WINDOW
  {
    var heard := Received(s, e, now, found);
    var key := e.body.onAirKey;
    SightingIsHeard(s.tables, e, now, found);
    if later.at - now.at <= RadioDedupe.WINDOW {
      var first := heard.tables.sightings[key].first;
      StillHeardAfterAll(heard, ops, cfg, key, first, now.at, later.at);
      HeardIsNotPersisted(PerformAll(heard, ops, cfg).tables, next, later, answer, first, now.at);
      assert false;
    }
  }

  /** The store after an event packet became a message. */
  function Persisting(s: Store, f: seq<byte>, message: string, source: string, now: Now, names: Naming,
                      req: Request): Store
    requires IsEventFrame(f)
  {
    Received(s, EventEnvelope(message, source, f, now.at, names, req), now, "")
  }

  /** Whatever else the router does in between, compaction included, a copy of a persisted event packet
      that is heard at most ten minutes later, over any relays and in any five-minute bucket, persists
      nothing new. */
  lemma HeardTwicePersistedOnce(s: Store, f: seq<byte>, relays: seq<u16>, names: Naming,
                                first: string, source: string, now: Now, req: Request, ops: seq<Op>, cfg: Config,
                                copy: string, via: string, later: Now, again: Request)
    requires IsEventFrame(f) && OnAir.Relayed(f, relays).Some? && names.key(KeyOf(f, names)) != ""
    requires var e := EventEnvelope(first, source, f, now.at, names, req);
             Ingested(s.tables, e, now, "").outcome == Acked(Ack(first, false))
    requires RadioDedupe.InCalendar(now.at) && RadioDedupe.FollowsSeconds(cfg.older)
    requires forall k :: 0 <= k < |ops| ==> Between(ops[k], now.at, later.at)
    requires copy != "" && via != "" && now.at <= later.at <= now.at + RadioDedupe.WINDOW
    ensures IsEventFrame(OnAir.Relayed(f, relays).value)
    ensures var n := PerformAll(Persisting(s, f, first, source, now, names, req), ops, cfg);
            var e := EventEnvelope(copy, via, OnAir.Relayed(f, relays).value, later.at, names, again);
            var r := Ingested(n.tables, e, later, "");
            r.outcome.Acked? && r.outcome.ack.duplicate && r.tables.messages == n.tables.messages
  {
    var key, heard := names.key(KeyOf(f, names)), Persisting(s, f, first, source, now, names, req);
    RelayedCopyHasSameKey(f, relays, names);
    PersistedIsHeard(s.tables, EventEnvelope(first, source, f, now.at, names, req), now, "");
    StillHeardAfterAll(heard, ops, cfg, key, first, now.at, later.at);
    var e := EventEnvelope(copy, via, OnAir.Relayed(f, relays).value, later.at, names, again);
    HeardIsNotPersisted(PerformAll(heard, ops, cfg).tables, e, later, "", first, now.at);
  }

  // ---------------------------------------------------------------------------------------------
  // Different packets

  /** Different keys are written down as different texts, and so are event ids of different keys or buckets. */
  ghost predicate WritesApart(names: Naming)
  {
    && (forall j, k :: names.key(j) == names.key(k) ==> j == k)
    && (forall j, k, a, b :: names.event(j, a) == names.event(k, b) ==> j == k && a == b)
  }

  function Origin(p: OnAir.Packet): u16
  {
    if p.relay.Some? && p.relay.value.origin > 0 then p.relay.value.origin else p.source
  }

  /** Two frames with different origins, targets, sequences, types or body digests. */
  predicate Differ(f: seq<byte>, g: seq<byte>, names: Naming)
    requires IsEventFrame(f) && IsEventFrame(g)
  {
    var p, q := OnAir.Decode(f).value, OnAir.Decode(g).value;
    || Origin(p) != Origin(q) || p.target != q.target || p.sequence != q.sequence || p.logicalType != q.logicalType
    || names.digest(p.body) != names.digest(q.body)
  }

  lemma DifferentKeys(f: seq<byte>, g: seq<byte>, names: Naming)
    requires IsEventFrame(f) && IsEventFrame(g)
    ensures KeyOf(f, names) != KeyOf(g, names) <==> Differ(f, g, names)
  {
    OnAir.SameKeyIff(OnAir.Decode(f).value, OnAir.Decode(g).value, names.digest);
  }

  /** An event the operation brings was heard as a frame that differs from `f`. */
  ghost predicate BringsAnother(op: Op, f: seq<byte>, names: Naming)
    requires IsEventFrame(f)
  {
    op.Receive? && op.e.body.Event? ==>
      exists g :: IsEventFrame(g) && Differ(f, g, names)
                  && op.e == EventEnvelope(op.e.message, op.e.source, g, op.now.at, names, op.e.request)
  }

  ghost predicate Unheard(t: Tables, key: OnAir.OnAirKey, names: Naming)
  {
    names.key(key) !in t.sightings && forall bucket :: names.event(key, bucket) !in t.events
  }

  /** The envelope is no event under that key, in whatever bucket. */
  ghost predicate OfAnotherKey(e: Envelope, key: OnAir.OnAirKey, names: Naming)
  {
    e.body.Event? ==> e.body.onAirKey != names.key(key) && forall bucket :: e.body.event != names.event(key, bucket)
  }

  lemma IngestStaysUnheard(t: Tables, e: Envelope, now: Now, found: string, key: OnAir.OnAirKey, names: Naming)
    requires Unheard(t, key, names) && OfAnotherKey(e, key, names)
    ensures Unheard(Ingested(t, e, now, found).tables, key, names)
  {
  }

  lemma IssueStaysUnheard(s: Store, op: Op, key: OnAir.OnAirKey, names: Naming)
    requires op.IssueOp? && Unheard(s.tables, key, names)
    ensures var n := Issue(s, op.command, op.key, op.planning, op.priority, op.at).store;
            Unheard(n.tables, key, names)
  {
  }

  lemma AnotherFrameIsOfAnotherKey(e: Envelope, f: seq<byte>, g: seq<byte>, at: int, names: Naming)
    requires IsEventFrame(f) && IsEventFrame(g) && Differ(f, g, names) && WritesApart(names)
    requires e == EventEnvelope(e.message, e.source, g, at, names, e.request)
    ensures OfAnotherKey(e, KeyOf(f, names), names)
  {
    DifferentKeys(f, g, names);
  }

  lemma StaysUnheard(s: Store, op: Op, cfg: Config, f: seq<byte>, names: Naming)
    requires IsEventFrame(f) && WritesApart(names) && Unheard(s.tables, KeyOf(f, names), names)
    requires BringsAnother(op, f, names)
    ensures Unheard(Perform(s, op, cfg).tables, KeyOf(f, names), names)
  {
    var key := KeyOf(f, names);
    match op
    case Receive(e, now, found) =>
      if e.body.Event? {
        var g :| IsEventFrame(g) && Differ(f, g, names)
                 && e == EventEnvelope(e.message, e.source, g, now.at, names, e.request);
        AnotherFrameIsOfAnotherKey(e, f, g, now.at, names);
      }
      IngestStaysUnheard(s.tables, e, now, found, key, names);
    case IssueOp(_, _, _, _, _) => IssueStaysUnheard(s, op, key, names);
    case _ =>
  }

  lemma {:induction false} StaysUnheardInRun(s: Store, ops: seq<Op>, cfg: Config, f: seq<byte>, names: Naming)
    requires IsEventFrame(f) && WritesApart(names) && Unheard(s.tables, KeyOf(f, names), names)
    requires forall k :: 0 <= k < |ops| ==> BringsAnother(ops[k], f, names)
    ensures Unheard(PerformAll(s, ops, cfg).tables, KeyOf(f, names), names)
    decreases |ops|
  {
    if ops == [] {
    } else {
      StaysUnheard(s, ops[0], cfg, f, names);
      StaysUnheardInRun(Perform(s, ops[0], cfg), ops[1..], cfg, f, names);
    }
  }

  lemma UnheardIsPersisted(t: Tables, e: Envelope, now: Now, found: string)
    requires e.body.Event? && Validates(e) && !Persisted(t.messages, e.message)
    requires e.body.event !in t.events && e.body.onAirKey !in t.sightings
    ensures var r := Ingested(t, e, now, found);
            r.outcome == Acked(Ack(e.message, false)) && r.tables.messages == t.messages + [e]
  {
  }

  /** After any run in which all events were heard as other packets, from another origin, to another target, with
      another sequence number or another body, an event packet becomes a message of its own, at whatever time and
      over whatever relays it is heard. */
  lemma DifferentEventIsPersisted(ops: seq<Op>, cfg: Config, f: seq<byte>, relays: seq<u16>, names: Naming,
                                  message: string, source: string, now: Now, req: Request, found: string)
    requires IsEventFrame(f) && OnAir.Relayed(f, relays).Some? && WritesApart(names)
    requires forall k :: 0 <= k < |ops| ==> BringsAnother(ops[k], f, names)
    requires message != "" && source != "" && !Persisted(PerformAll(NO_STORE, ops, cfg).tables.messages, message)
    ensures IsEventFrame(OnAir.Relayed(f, relays).value)
    ensures var t := PerformAll(NO_STORE, ops, cfg).tables;
            var e := EventEnvelope(message, source, OnAir.Relayed(f, relays).value, now.at, names, req);
            var r := Ingested(t, e, now, found);
            r.outcome == Acked(Ack(message, false)) && r.tables.messages == t.messages + [e]
  {
    var t := PerformAll(NO_STORE, ops, cfg).tables;
    StaysUnheardInRun(NO_STORE, ops, cfg, f, names);
    RelayedCopyHasSameKey(f, relays, names);
    var e := EventEnvelope(message, source, OnAir.Relayed(f, relays).value, now.at, names, req);
    UnheardIsPersisted(t, e, now, found);
  }
}
