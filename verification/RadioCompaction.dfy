/**
 Compaction of radio sightings and the router's answers: a run of the router gives the same answers
 whether or not old sightings are deleted in between.
 */
module RadioCompaction {
  import opened Wrappers
  import opened SiteRouter
  import opened SiteRouterCommands
  import opened SiteRouterRuns
  import RadioDedupe

  // ---------------------------------------------------------------------------------------------
  // Runs with and without compaction of sightings

  function WithoutCompaction(ops: seq<Op>): seq<Op>
  {
    if ops == [] then []
    else (if ops[0].CompactSightings? then [] else [ops[0]]) + WithoutCompaction(ops[1..])
  }

  /** What an operation answers its caller. */
  ghost function Answer(s: Store, op: Op): seq<Outcome>
  {
    match op
    case Receive(e, now, found) => [Ingested(s.tables, e, now, found).outcome]
    case IssueOp(e, key, planning, priority, at) => [Issue(s, e, key, planning, priority, at).outcome]
    case _ => []
  }

  ghost function Answers(s: Store, ops: seq<Op>, cfg: Config): seq<Outcome>
    decreases |ops|
  {
    if ops == [] then [] else Answer(s, ops[0]) + Answers(Perform(s, ops[0], cfg), ops[1..], cfg)
  }

  function Later(a: int, b: int): int { if a < b then b else a }

  /** `latest` is the latest `now` of any compaction so far; nothing is ingested at an earlier time. */
  predicate InTime(ops: seq<Op>, latest: int)
  {
    if ops == [] then true
    else
      match ops[0]
      case Receive(e, now, found) => latest <= now.at && RadioDedupe.InCalendar(now.at) && InTime(ops[1..], latest)
      case CompactSightings(hours, now) =>
        RadioDedupe.InCalendar(now - hours * RadioDedupe.HOUR) && InTime(ops[1..], Later(latest, now))
      case _ => InTime(ops[1..], latest)
  }

  predicate SeenInCalendar(t: Tables)
  {
    forall key :: key in t.sightings ==> RadioDedupe.InCalendar(t.sightings[key].lastSeen)
  }

  // ---------------------------------------------------------------------------------------------
  // Tables that differ only in sightings that are out of their window

  predicate AgreeOn(t: RadioDedupe.Observations, u: RadioDedupe.Observations, latest: int, key: string)
  {
    && (key in t ==> key in u && t[key] == u[key])
    && (key in u && key !in t ==> latest - u[key].lastSeen > RadioDedupe.WINDOW)
  }

  ghost predicate Agree(t: Tables, u: Tables, latest: int)
  {
    u == t.(sightings := u.sightings) && forall key :: AgreeOn(t.sightings, u.sightings, latest, key)
  }

  lemma SightedAgrees(t: RadioDedupe.Observations, u: RadioDedupe.Observations, latest: int, key: string,
                      message: string, at: int)
    requires AgreeOn(t, u, latest, key) && latest <= at
    ensures RadioDedupe.DuplicateOf(t, key, at) == RadioDedupe.DuplicateOf(u, key, at)
    ensures RadioDedupe.Sighted(t, key, message, at)[key] == RadioDedupe.Sighted(u, key, message, at)[key]
  {
  }

  lemma SightingsAgree(t: Tables, u: Tables, latest: int, e: Envelope, now: Now)
    requires Agree(t, u, latest) && latest <= now.at
    ensures RadioDuplicate(t, e, now) == RadioDuplicate(u, e, now)
    ensures Agree(t.(sightings := SightingsAfter(t.sightings, e, now)),
                  u.(sightings := SightingsAfter(u.sightings, e, now)), latest)
  {
    var n, m := SightingsAfter(t.sightings, e, now), SightingsAfter(u.sightings, e, now);
    if e.body.Event? {
      assert AgreeOn(t.sightings, u.sightings, latest, e.body.onAirKey);
      SightedAgrees(t.sightings, u.sightings, latest, e.body.onAirKey, e.message, now.at);
    }
    forall key ensures AgreeOn(n, m, latest, key) {
      assert AgreeOn(t.sightings, u.sightings, latest, key);
    }
  }

  lemma IngestAgrees(t: Tables, u: Tables, latest: int, e: Envelope, now: Now, found: string)
    requires Agree(t, u, latest) && latest <= now.at
    ensures Ingested(t, e, now, found).outcome == Ingested(u, e, now, found).outcome
    ensures Agree(Ingested(t, e, now, found).tables, Ingested(u, e, now, found).tables, latest)
  {
    SightingsAgree(t, u, latest, e, now);
  }

  lemma CompactedAgrees(t: Tables, u: Tables, latest: int, older: (int, int) -> bool, hours: int, now: int)
    requires Agree(t, u, latest) && SeenInCalendar(t) && RadioDedupe.FollowsSeconds(older)
    requires RadioDedupe.InCalendar(now - hours * RadioDedupe.HOUR)
    ensures Agree(t.(sightings := RadioDedupe.Compacted(t.sightings, older, hours, now)), u, Later(latest, now))
  {
    var n, after := t.(sightings := RadioDedupe.Compacted(t.sightings, older, hours, now)), Later(latest, now);
    forall key ensures AgreeOn(n.sightings, u.sightings, after, key) {
      assert AgreeOn(t.sightings, u.sightings, latest, key);
      if key in t.sightings && key !in n.sightings {
        RadioDedupe.DeletedIsOld(older, t.sightings[key].lastSeen, now - hours * RadioDedupe.HOUR, now);
      }
    }
  }

  lemma IssueAgrees(s: Store, v: Store, latest: int, op: Op)
    requires op.IssueOp? && Agree(s.tables, v.tables, latest) && s.outbox == v.outbox
    ensures var r := Issue(s, op.command, op.key, op.planning, op.priority, op.at);
            var q := Issue(v, op.command, op.key, op.planning, op.priority, op.at);
            r.outcome == q.outcome && r.store.outbox == q.store.outbox && Agree(r.store.tables, q.store.tables, latest)
  {
  }

  lemma SeenStaysInCalendar(s: Store, op: Op, cfg: Config)
    requires SeenInCalendar(s.tables) && (op.Receive? ==> RadioDedupe.InCalendar(op.now.at))
    ensures SeenInCalendar(Perform(s, op, cfg).tables)
  {
  }

  /** One operation that is not a compaction of sightings. */
  lemma PerformAgrees(s: Store, v: Store, op: Op, cfg: Config, latest: int)
    requires Agree(s.tables, v.tables, latest) && s.outbox == v.outbox && !op.CompactSightings?
    requires op.Receive? ==> latest <= op.now.at
    ensures var n, m := Perform(s, op, cfg), Perform(v, op, cfg);
            Answer(s, op) == Answer(v, op) && Agree(n.tables, m.tables, latest) && n.outbox == m.outbox
  {
    match op
    case Receive(e, now, found) => IngestAgrees(s.tables, v.tables, latest, e, now, found);
    case IssueOp(e, key, planning, priority, at) => IssueAgrees(s, v, latest, op);
    case QueueOp(call) =>
    case CompactChunks(cutoff) =>
  }

  lemma {:induction false} CompactionAgrees(s: Store, v: Store, ops: seq<Op>, cfg: Config, latest: int)
    requires Agree(s.tables, v.tables, latest) && s.outbox == v.outbox && SeenInCalendar(s.tables)
    requires RadioDedupe.FollowsSeconds(cfg.older) && InTime(ops, latest)
    ensures Answers(s, ops, cfg) == Answers(v, WithoutCompaction(ops), cfg)
    ensures var n, m := PerformAll(s, ops, cfg), PerformAll(v, WithoutCompaction(ops), cfg);
            n.outbox == m.outbox && m.tables == n.tables.(sightings := m.tables.sightings)
    decreases |ops|
  {
    if ops == [] {
    } else {
      var n := Perform(s, ops[0], cfg);
      SeenStaysInCalendar(s, ops[0], cfg);
      if ops[0].CompactSightings? {
        var hours, now := ops[0].hours, ops[0].clock;
        CompactedAgrees(s.tables, v.tables, latest, cfg.older, hours, now);
        CompactionAgrees(n, v, ops[1..], cfg, Later(latest, now));
        assert [] + WithoutCompaction(ops[1..]) == WithoutCompaction(ops[1..]);
        assert [] + Answers(n, ops[1..], cfg) == Answers(n, ops[1..], cfg);
      } else {
        PerformAgrees(s, v, ops[0], cfg, latest);
        CompactionAgrees(n, Perform(v, ops[0], cfg), ops[1..], cfg, latest);
        assert WithoutCompaction(ops)[0] == ops[0] && WithoutCompaction(ops)[1..] == WithoutCompaction(ops[1..]);
      }
    }
  }

  /** From any store, a run answers exactly like the same run without any compaction of sightings, and
      leaves the same messages, ledgers and queue, as long as no compaction runs with a `now` later than a
      following ingest. */
  lemma CompactionNeverChangesAnAck(s: Store, ops: seq<Op>, cfg: Config, start: int)
    requires SeenInCalendar(s.tables) && RadioDedupe.FollowsSeconds(cfg.older) && InTime(ops, start)
    ensures Answers(s, ops, cfg) == Answers(s, WithoutCompaction(ops), cfg)
    ensures var n, m := PerformAll(s, ops, cfg), PerformAll(s, WithoutCompaction(ops), cfg);
            n.outbox == m.outbox && m.tables == n.tables.(sightings := m.tables.sightings)
  {
    CompactionAgrees(s, s, ops, cfg, start);
  }
}
