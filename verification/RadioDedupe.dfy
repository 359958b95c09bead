/**
 Radio duplicate suppression: an event whose on-air key was sighted within the last ten minutes is
 answered with the message that was persisted for it. Compaction may delete sightings at any point.
 Times are nanoseconds; the retention query compares their texts.
 */
module RadioDedupe {
  import opened Wrappers
  import Timestamps
  import OnAir
  import opened Bytes

  const SECOND := 1_000_000_000
  const WINDOW := 600 * SECOND
  const HOUR := 3600 * SECOND

  datatype Observation = Observation(first: string, lastSeen: int)

  type Observations = map<string, Observation>

  // ---------------------------------------------------------------------------------------------
  // The table

  /** `recordDuplicateRadioObservation`: the message of the current window, if the key was seen within it. */
  function DuplicateOf(obs: Observations, key: string, t: int): Option<string>
  {
    if key in obs && t - obs[key].lastSeen <= WINDOW then Some(obs[key].first) else None
  }

  /** A duplicate is counted as a sighting; otherwise a new window begins. */
  function Sighted(obs: Observations, key: string, message: string, t: int): Observations
  {
    obs[key := Observation(if DuplicateOf(obs, key, t).Some? then obs[key].first else message, t)]
  }

  /** The years 1970 to 9999: what `stamp` turns into calendar fields. */
  predicate InCalendar(t: int) { 0 <= t < 253_402_300_800 * SECOND }

  /** A comparison of stored times: what it calls older is not of a later second. */
  ghost predicate FollowsSeconds(older: (int, int) -> bool)
  {
    forall a, b :: InCalendar(a) && InCalendar(b) && older(a, b) ==> a / SECOND <= b / SECOND
  }

  /** Calendar fields follow the seconds. */
  ghost predicate Calendar(stamp: int -> Timestamps.Instant)
  {
    forall a, b :: InCalendar(a) && InCalendar(b) && a / SECOND < b / SECOND ==>
      Timestamps.SecondOf(stamp(a)) < Timestamps.SecondOf(stamp(b))
  }

  /** The byte-wise comparison of the stored texts is such a comparison. */
  lemma TextsFollowSeconds(stamp: int -> Timestamps.Instant)
    requires Calendar(stamp)
    ensures FollowsSeconds((a, b) => Timestamps.Less(Timestamps.Text(stamp(a)), Timestamps.Text(stamp(b))))
  {
    forall a, b
      | InCalendar(a) && InCalendar(b) && Timestamps.Less(Timestamps.Text(stamp(a)), Timestamps.Text(stamp(b)))
      ensures a / SECOND <= b / SECOND {
      Timestamps.TextOrderRespectsSeconds(stamp(a), stamp(b));
    }
  }

  /** The radio part of `Compact`; a retention below one hour is no retention. */
  function Compacted(obs: Observations, older: (int, int) -> bool, hours: int, now: int): Observations
  {
    if hours <= 0 then obs
    else map key | key in obs && !older(obs[key].lastSeen, now - hours * HOUR) :: obs[key]
  }

  /** A sighting is kept unless retention is on and its text is older than the cutoff, whole hours before now. */
  lemma SightingKeptIff(obs: Observations, older: (int, int) -> bool, hours: int, now: int, key: string)
    requires key in obs
    ensures key in Compacted(obs, older, hours, now) <==>
              hours <= 0 || !older(obs[key].lastSeen, now - hours * 3_600_000_000_000)
    ensures key in Compacted(obs, older, hours, now) ==> Compacted(obs, older, hours, now)[key] == obs[key]
  {
  }

  // ---------------------------------------------------------------------------------------------
  // What the answers should be, from the history of sightings alone

  datatype Sighting = Sighting(key: string, message: string, at: int)

  function Last(history: seq<Sighting>, key: string): Option<int>
  {
    if history == [] then None
    else if history[|history| - 1].key == key then Some(history[|history| - 1].at)
    else Last(history[..|history| - 1], key)
  }

  predicate WithinWindow(history: seq<Sighting>, key: string, t: int)
  {
    Last(history, key).Some? && t - Last(history, key).value <= WINDOW
  }

  /** The message that opened the window the last sighting of the key belongs to. */
  function Opener(history: seq<Sighting>, key: string): string
  {
    if history == [] then ""
    else
      var before, s := history[..|history| - 1], history[|history| - 1];
      if s.key == key && !WithinWindow(before, key, s.at) then s.message else Opener(before, key)
  }

  /** Duplicate exactly when the key's last sighting is at most ten minutes old. */
  function Expected(history: seq<Sighting>, s: Sighting): Option<string>
  {
    if WithinWindow(history, s.key, s.at) then Some(Opener(history, s.key)) else None
  }

  function ExpectedAll(history: seq<Sighting>): (r: seq<Option<string>>)
    ensures |r| == |history|
  {
    if history == [] then []
    else ExpectedAll(history[..|history| - 1]) + [Expected(history[..|history| - 1], history[|history| - 1])]
  }

  // ---------------------------------------------------------------------------------------------
  // Runs

  datatype Item = Sight(s: Sighting) | Compact(hours: int, now: int)

  function Answers(run: seq<Item>, older: (int, int) -> bool): (seq<Option<string>>, Observations)
  {
    if run == [] then ([], map[])
    else
      var (answers, obs) := Answers(run[..|run| - 1], older);
      match run[|run| - 1]
      case Sight(s) => (answers + [DuplicateOf(obs, s.key, s.at)], Sighted(obs, s.key, s.message, s.at))
      case Compact(hours, now) => (answers, Compacted(obs, older, hours, now))
  }

  function History(run: seq<Item>): seq<Sighting>
  {
    if run == [] then []
    else History(run[..|run| - 1]) + if run[|run| - 1].Sight? then [run[|run| - 1].s] else []
  }

  /** Compaction never runs with a `now` later than a following sighting. */
  predicate InTime(run: seq<Item>)
  {
    && (forall i :: 0 <= i < |run| && run[i].Sight? ==> InCalendar(run[i].s.at))
    && (forall i :: 0 <= i < |run| && run[i].Compact? ==> InCalendar(run[i].now - run[i].hours * HOUR))
    && (forall i, j :: 0 <= i < j < |run| && run[i].Compact? && run[j].Sight? ==> run[i].now <= run[j].s.at)
  }

  // ---------------------------------------------------------------------------------------------
  // The table answers like the history

  /** `t` is not before any compaction of the run. */
  predicate After(run: seq<Item>, t: int) { forall i :: 0 <= i < |run| && run[i].Compact? ==> run[i].now <= t }

  /** A key in the table agrees with the history; a key deleted from it is out of its window for good. */
  predicate KeyAgrees(run: seq<Item>, obs: Observations, key: string)
  {
    && (key in obs ==> Last(History(run), key) == Some(obs[key].lastSeen) && Opener(History(run), key) == obs[key].first
                       && InCalendar(obs[key].lastSeen))
    && (key !in obs && Last(History(run), key).Some? ==>
          exists i :: 0 <= i < |run| && run[i].Compact? && run[i].now - Last(History(run), key).value > WINDOW)
  }

  lemma SecondsApart(seen: int, cutoff: int, now: int)
    requires 0 <= seen && 0 <= cutoff && seen / SECOND <= cutoff / SECOND && cutoff + HOUR <= now
    ensures now - seen > WINDOW
  {
    assert seen < cutoff + SECOND;
  }

  /** What the text comparison deletes is out of its window at the time of compaction. */
  lemma DeletedIsOld(older: (int, int) -> bool, seen: int, cutoff: int, now: int)
    requires FollowsSeconds(older) && InCalendar(seen) && InCalendar(cutoff) && cutoff + HOUR <= now
    ensures older(seen, cutoff) ==> now - seen > WINDOW
  {
    if older(seen, cutoff) {
      SecondsApart(seen, cutoff, now);
    }
  }

  lemma AnswerAgrees(run: seq<Item>, obs: Observations, s: Sighting)
    requires KeyAgrees(run, obs, s.key) && After(run, s.at)
    ensures DuplicateOf(obs, s.key, s.at) == Expected(History(run), s)
  {
  }

  lemma SightAgrees(run: seq<Item>, obs: Observations, s: Sighting, key: string)
    requires KeyAgrees(run, obs, key) && KeyAgrees(run, obs, s.key) && After(run, s.at) && InCalendar(s.at)
    ensures KeyAgrees(run + [Sight(s)], Sighted(obs, s.key, s.message, s.at), key)
  {
    AnswerAgrees(run, obs, s);
    var more, h := run + [Sight(s)], History(run);
    assert more[..|run|] == run;
    assert History(more)[..|h|] == h;
    assert forall i :: 0 <= i < |run| ==> more[i] == run[i];
  }

  lemma CompactAgrees(run: seq<Item>, obs: Observations, older: (int, int) -> bool, hours: int, now: int, key: string)
    requires FollowsSeconds(older) && InCalendar(now - hours * HOUR) && KeyAgrees(run, obs, key)
    ensures KeyAgrees(run + [Compact(hours, now)], Compacted(obs, older, hours, now), key)
  {
    var more := run + [Compact(hours, now)];
    assert more[..|run|] == run;
    assert History(more) == History(run);
    assert forall i :: 0 <= i < |run| ==> more[i] == run[i];
    if key in obs && key !in Compacted(obs, older, hours, now) {
      DeletedIsOld(older, obs[key].lastSeen, now - hours * HOUR, now);
      assert more[|run|].Compact?;
    }
  }

  lemma {:induction false} AnswersAgree(run: seq<Item>, older: (int, int) -> bool, key: string)
    requires FollowsSeconds(older) && InTime(run)
    ensures Answers(run, older).0 == ExpectedAll(History(run))
    ensures KeyAgrees(run, Answers(run, older).1, key)
  {
    if run == [] {
    } else {
      var before, last := run[..|run| - 1], run[|run| - 1];
      var obs := Answers(before, older).1;
      assert run == before + [last];
      AnswersAgree(before, older, key);
      match last
      case Sight(s) =>
        AnswersAgree(before, older, s.key);
        AnswerAgrees(before, obs, s);
        SightAgrees(before, obs, s, key);
        assert History(run)[..|History(before)|] == History(before);
      case Compact(hours, now) =>
        CompactAgrees(before, obs, older, hours, now, key);
        assert History(run) == History(before);
    }
  }

  /** In every run with compactions at any point, each event is answered from the history of sightings
      alone: a duplicate of its window's first message if the key was sighted within ten minutes, new otherwise. */
  lemma AnswersFollowHistory(run: seq<Item>, older: (int, int) -> bool)
    requires FollowsSeconds(older) && InTime(run)
    ensures Answers(run, older).0 == ExpectedAll(History(run))
  {
    AnswersAgree(run, older, "");
  }

  /** So compaction never changes an answer: runs that differ only in compactions agree. */
  lemma CompactionIsInvisible(run: seq<Item>, other: seq<Item>, older: (int, int) -> bool)
    requires FollowsSeconds(older) && InTime(run) && InTime(other) && History(run) == History(other)
    ensures Answers(run, older).0 == Answers(other, older).0
  {
    AnswersFollowHistory(run, older);
    AnswersFollowHistory(other, older);
  }

  // ---------------------------------------------------------------------------------------------
  // Separation

  lemma {:induction false} ExpectedAt(history: seq<Sighting>, j: nat)
    requires j < |history|
    ensures ExpectedAll(history)[j] == Expected(history[..j], history[j])
  {
    var front := history[..|history| - 1];
    if j < |front| {
      ExpectedAt(front, j);
      assert front[..j] == history[..j];
    }
  }

  /** With a clock that does not go back, no sighting is later than the last one of its key. */
  lemma {:induction false} LastIsLatest(history: seq<Sighting>, i: nat)
    requires i < |history| && forall j, k :: 0 <= j < k < |history| ==> history[j].at <= history[k].at
    ensures Last(history, history[i].key).Some? && history[i].at <= Last(history, history[i].key).value
  {
    if history[|history| - 1].key != history[i].key {
      LastIsLatest(history[..|history| - 1], i);
    }
  }

  /** Two events persisted under one key are more than ten minutes apart, and so is every sighting of the
      key from a later persisted event. */
  lemma PersistedAreSeparated(history: seq<Sighting>, i: nat, j: nat)
    requires i < j < |history| && history[i].key == history[j].key
    requires forall k, l :: 0 <= k < l < |history| ==> history[k].at <= history[l].at
    requires Expected(history[..j], history[j]).None?
    ensures history[j].at - history[i].at > WINDOW
  {
    LastIsLatest(history[..j], i);
  }

  /** The dedupe key the host derives from a received frame; `render` is its text form. */
  function FrameKey(f: seq<byte>, digest: seq<byte> -> seq<byte>, render: OnAir.OnAirKey -> string): Option<string>
  {
    if OnAir.Decode(f).Ok? then Some(render(OnAir.StableKey(OnAir.Decode(f).value, digest))) else None
  }

  /** A copy of a packet that came over relays within the window is a duplicate of the original. */
  lemma RelayedCopyIsDuplicate(history: seq<Sighting>, f: seq<byte>, relays: seq<u16>, digest: seq<byte> -> seq<byte>,
                               render: OnAir.OnAirKey -> string, first: Sighting, copy: Sighting)
    requires OnAir.Decode(f).Ok? && OnAir.Relayed(f, relays).Some?
    requires FrameKey(f, digest, render) == Some(first.key)
    requires FrameKey(OnAir.Relayed(f, relays).value, digest, render) == Some(copy.key)
    requires Expected(history, first).None? && copy.at - first.at <= WINDOW
    ensures Expected(history + [first], copy) == Some(first.message)
  {
    OnAir.ChainKeepsIdentity(f, relays, digest);
    assert (history + [first])[..|history|] == history;
  }
}
