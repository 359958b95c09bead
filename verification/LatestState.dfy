/**
 The latest-state projection: one row per source and key, kept up to date by every state that arrives,
 and rebuilt from all persisted states. When does the order of arrival not matter?
 */
module LatestState {
  import opened Wrappers
  import Timestamps

  /** `occurred` and `session` are `None` where the texts are empty. */
  datatype State = State(
    source: string, key: string, message: string, occurred: Option<int>, session: Option<string>, seqLocal: int,
    payload: string)

  type Latest = map<Key, State>

  /** The zero time, which an empty `occurred_at` is compared as. */
  const ZERO_TIME := 0

  function OrderTime(occurred: Option<int>): int { if occurred.Some? then occurred.value else ZERO_TIME }

  function CompareText(a: string, b: string): int
  {
    if Timestamps.Less(b, a) then 1 else if Timestamps.Less(a, b) then -1 else 0
  }

  predicate OneSession(a: State, b: State) { a.session.Some? && b.session == a.session }

  /** `compareStateOrder`: time, then the sequence number inside one session, then the message id. */
  function Compare(a: State, b: State): int
  {
    if OrderTime(a.occurred) > OrderTime(b.occurred) then 1
    else if OrderTime(a.occurred) < OrderTime(b.occurred) then -1
    else if OneSession(a, b) && a.seqLocal > b.seqLocal then 1
    else if OneSession(a, b) && a.seqLocal < b.seqLocal then -1
    else CompareText(a.message, b.message)
  }

  datatype Key = Key(source: string, key: string)

  function KeyOf(s: State): Key { Key(s.source, s.key) }

  function Upserted(latest: Latest, s: State): Latest
  {
    if KeyOf(s) in latest && Compare(s, latest[KeyOf(s)]) <= 0 then latest else latest[KeyOf(s) := s]
  }

  function Project(arrivals: seq<State>): Latest
  {
    if arrivals == [] then map[] else Upserted(Project(arrivals[..|arrivals| - 1]), arrivals[|arrivals| - 1])
  }

  // ---------------------------------------------------------------------------------------------
  // One key: the last arrival that beat the one before it

  function Champion(ss: seq<State>): State
    requires ss != []
  {
    if |ss| == 1 then ss[0]
    else var best := Champion(ss[..|ss| - 1]); if Compare(ss[|ss| - 1], best) > 0 then ss[|ss| - 1] else best
  }

  function Of(arrivals: seq<State>, k: Key): seq<State>
  {
    if arrivals == [] then []
    else
      var last := arrivals[|arrivals| - 1];
      Of(arrivals[..|arrivals| - 1], k) + if KeyOf(last) == k then [last] else []
  }

  lemma {:induction false} ProjectIsChampion(arrivals: seq<State>, k: Key)
    ensures k in Project(arrivals) <==> Of(arrivals, k) != []
    ensures k in Project(arrivals) ==> Project(arrivals)[k] == Champion(Of(arrivals, k))
  {
    if arrivals == [] {
    } else {
      var front, last := arrivals[..|arrivals| - 1], arrivals[|arrivals| - 1];
      ProjectIsChampion(front, k);
      if KeyOf(last) == k {
        var all := Of(arrivals, k);
        assert all[..|all| - 1] == Of(front, k) && all[|all| - 1] == last;
      } else {
        assert Of(arrivals, k) == Of(front, k);
      }
    }
  }

  // ---------------------------------------------------------------------------------------------
  // The comparison

  predicate DistinctMessages(ss: seq<State>) { forall i, j :: 0 <= i < j < |ss| ==> ss[i].message != ss[j].message }

  lemma TextOrder(a: string, b: string, c: string)
    ensures CompareText(a, b) == -CompareText(b, a)
    ensures CompareText(a, b) == 0 ==> a == b
    ensures CompareText(a, b) >= 0 && CompareText(b, c) >= 0 ==> CompareText(a, c) >= 0
  {
    Timestamps.LessIsTotal(a, b, c);
    Timestamps.LessIsTotal(b, c, a);
    Timestamps.LessIsTotal(a, c, b);
  }

  lemma CompareIsAntisymmetric(a: State, b: State)
    ensures Compare(a, b) == -Compare(b, a)
    ensures Compare(a, b) == 0 ==> a.message == b.message
  {
    TextOrder(a.message, b.message, a.message);
  }

  predicate SameSession(a: State, b: State)
  {
    OrderTime(a.occurred) == OrderTime(b.occurred) ==> a.session == b.session
  }

  lemma CompareIsTransitive(a: State, b: State, c: State)
    requires SameSession(a, b) && SameSession(b, c) && Compare(a, b) >= 0 && Compare(b, c) >= 0
    ensures Compare(a, c) >= 0
  {
    TextOrder(a.message, b.message, c.message);
  }

  lemma ChampionOfThree(a: State, b: State, c: State)
    requires Compare(b, a) > 0 && Compare(c, b) > 0
    ensures Champion([a, b, c]) == c
  {
    assert [a, b, c][..2] == [a, b] && [a, b][..1] == [a];
    assert Champion([a, b]) == b;
  }

  /** Without the shared session the comparison can turn in a circle, and the arrival order decides. */
  lemma ComparisonCanCycle(s: string, t: string)
    requires s != t
    ensures var a := State("n", "k", "c", Some(7), Some(s), 1, "");
            var b := State("n", "k", "a", Some(7), Some(s), 2, "");
            var c := State("n", "k", "b", Some(7), Some(t), 0, "");
            && Compare(b, a) > 0 && Compare(c, b) > 0 && Compare(a, c) > 0
            && Champion([a, b, c]) == c && Champion([b, c, a]) == a
  {
    var a, b, c := State("n", "k", "c", Some(7), Some(s), 1, ""), State("n", "k", "a", Some(7), Some(s), 2, ""),
        State("n", "k", "b", Some(7), Some(t), 0, "");
    assert Timestamps.Less("a", "b") && Timestamps.Less("b", "c");
    ChampionOfThree(a, b, c);
    ChampionOfThree(b, c, a);
  }

  // ---------------------------------------------------------------------------------------------
  // Order of arrival

  predicate IsMaximum(m: State, ss: seq<State>) { m in ss && forall s :: s in ss && s != m ==> Compare(m, s) > 0 }

  lemma {:induction false} ChampionIsMember(ss: seq<State>)
    requires ss != []
    ensures Champion(ss) in ss
  {
    if |ss| == 1 {
    } else {
      ChampionIsMember(ss[..|ss| - 1]);
    }
  }

  /** A maximum wins wherever it arrives. */
  lemma {:induction false} MaximumWins(m: State, ss: seq<State>)
    requires IsMaximum(m, ss)
    ensures Champion(ss) == m
  {
    if |ss| == 1 {
    } else {
      var front, last := ss[..|ss| - 1], ss[|ss| - 1];
      assert ss == front + [last];
      CompareIsAntisymmetric(m, last);
      if m in front {
        MaximumWins(m, front);
        CompareIsAntisymmetric(m, m);
      } else {
        ChampionIsMember(front);
      }
    }
  }

  /** Whoever was beaten and does not come again never holds the row again. */
  lemma {:induction false} BeatenStaysOut(f: State, start: seq<State>, rest: seq<State>)
    requires start != [] && Champion(start) != f && f !in rest
    ensures Champion(start + rest) != f
    decreases |rest|
  {
    if rest == [] {
      assert start + rest == start;
    } else {
      var front := rest[..|rest| - 1];
      BeatenStaysOut(f, start, front);
      assert (start + rest)[..|start + rest| - 1] == start + front;
      assert (start + rest)[|start + rest| - 1] == rest[|rest| - 1];
    }
  }

  function Without(ss: seq<State>, s: State): (r: seq<State>)
    requires s in ss
    ensures multiset(r) + multiset{s} == multiset(ss)
  {
    assert ss == [ss[0]] + ss[1..];
    if ss[0] == s then ss[1..] else [ss[0]] + Without(ss[1..], s)
  }

  lemma {:induction false} DistinctOnce(ss: seq<State>, s: State)
    requires DistinctMessages(ss)
    ensures multiset(ss)[s] <= 1
  {
    if ss == [] {
    } else {
      var front, last := ss[..|ss| - 1], ss[|ss| - 1];
      assert ss == front + [last];
      DistinctOnce(front, s);
      if last == s {
        assert s !in multiset(front) by {
          assert s !in front;
        }
      }
    }
  }

  lemma DifferentMessages(ss: seq<State>, a: State, b: State)
    requires DistinctMessages(ss) && a in ss && b in ss && a != b
    ensures a.message != b.message
  {
    var i :| 0 <= i < |ss| && ss[i] == a;
    var j :| 0 <= j < |ss| && ss[j] == b;
  }

  /** The same states with two given ones first. */
  lemma BringForward(ss: seq<State>, f: State, g: State) returns (rest: seq<State>)
    requires DistinctMessages(ss) && f in ss && g in ss && f != g
    ensures multiset([f, g] + rest) == multiset(ss) && f !in rest
  {
    var others := Without(ss, f);
    assert g in multiset(ss);
    assert g in multiset(others);
    rest := Without(others, g);
    DistinctOnce(ss, f);
    assert f !in multiset(rest);
  }

  /** If the winner does not beat all others, another arrival order of the same states leaves another row:
      the winner comes first and somebody it does not beat comes second. */
  lemma OrderMatters(ss: seq<State>) returns (other: seq<State>)
    requires ss != [] && DistinctMessages(ss) && !IsMaximum(Champion(ss), ss)
    ensures multiset(other) == multiset(ss) && other != [] && Champion(other) != Champion(ss)
  {
    var f := Champion(ss);
    ChampionIsMember(ss);
    var g :| g in ss && g != f && Compare(f, g) <= 0;
    CompareIsAntisymmetric(f, g);
    DifferentMessages(ss, f, g);
    var rest := BringForward(ss, f, g);
    assert [f, g][..1] == [f];
    BeatenStaysOut(f, [f, g], rest);
    other := [f, g] + rest;
  }

  lemma SameMultisetSameMembers(p: seq<State>, q: seq<State>)
    requires multiset(p) == multiset(q)
    ensures forall s :: s in p <==> s in q
  {
    forall s ensures s in p <==> s in q {
      assert s in p <==> s in multiset(p);
      assert s in q <==> s in multiset(q);
    }
  }

  /** The order of arrival never matters exactly when one state beats all others. */
  lemma OrderNeverMattersIffMaximum(ss: seq<State>)
    requires ss != [] && DistinctMessages(ss)
    ensures (exists m :: IsMaximum(m, ss))
            <==> (forall p :: p != [] && multiset(p) == multiset(ss) ==> Champion(p) == Champion(ss))
  {
    if m :| IsMaximum(m, ss) {
      MaximumWins(m, ss);
      forall p | p != [] && multiset(p) == multiset(ss) ensures Champion(p) == Champion(ss) {
        SameMultisetSameMembers(p, ss);
        MaximumWins(m, p);
      }
    } else {
      var other := OrderMatters(ss);
    }
  }

  predicate SharedSessions(ss: seq<State>)
  {
    forall i, j :: 0 <= i < |ss| && 0 <= j < |ss| ==> SameSession(ss[i], ss[j])
  }

  /** States that share one session at one instant have a maximum. */
  lemma {:induction false} SharedSessionsHaveMaximum(ss: seq<State>)
    requires ss != [] && DistinctMessages(ss) && SharedSessions(ss)
    ensures IsMaximum(Champion(ss), ss)
  {
    if |ss| == 1 {
    } else {
      var front, last := ss[..|ss| - 1], ss[|ss| - 1];
      assert ss == front + [last];
      SharedSessionsHaveMaximum(front);
      var best, champion := Champion(front), Champion(ss);
      CompareIsAntisymmetric(last, best);
      forall s | s in ss && s != champion ensures Compare(champion, s) > 0 {
        CompareIsAntisymmetric(best, s);
        CompareIsAntisymmetric(champion, s);
        if champion == last && s in front {
          CompareIsTransitive(last, best, s);
          var i :| 0 <= i < |front| && front[i] == s;
          assert ss[i] == s && s.message != last.message;
        }
      }
    }
  }

  // ---------------------------------------------------------------------------------------------
  // The whole projection, and its rebuild

  lemma {:induction false} OfFilters(arrivals: seq<State>, k: Key, s: State)
    ensures multiset(Of(arrivals, k))[s] == if KeyOf(s) == k then multiset(arrivals)[s] else 0
  {
    if arrivals == [] {
    } else {
      var front, last := arrivals[..|arrivals| - 1], arrivals[|arrivals| - 1];
      OfFilters(front, k, s);
      assert arrivals == front + [last];
    }
  }

  lemma SameStatesPerKey(p: seq<State>, q: seq<State>, k: Key)
    requires multiset(p) == multiset(q)
    ensures multiset(Of(p, k)) == multiset(Of(q, k))
    ensures Of(p, k) == [] <==> Of(q, k) == []
  {
    forall s ensures multiset(Of(p, k))[s] == multiset(Of(q, k))[s] {
      OfFilters(p, k, s);
      OfFilters(q, k, s);
    }
    assert |Of(p, k)| == |multiset(Of(p, k))| && |Of(q, k)| == |multiset(Of(q, k))|;
  }

  ghost predicate HasMaxima(arrivals: seq<State>)
  {
    forall k :: Of(arrivals, k) != [] ==> exists m :: IsMaximum(m, Of(arrivals, k))
  }

  /** Where every key has a state that beats the others, the projection is the same for every arrival
      order and holds exactly those states. */
  lemma ProjectionIsMaximum(p: seq<State>, q: seq<State>)
    requires multiset(p) == multiset(q) && HasMaxima(p)
    ensures Project(p) == Project(q)
    ensures forall k :: k in Project(p) ==> IsMaximum(Project(p)[k], Of(p, k))
  {
    forall k ensures k in Project(p) <==> k in Project(q)
             ensures k in Project(p) ==> Project(p)[k] == Project(q)[k] && IsMaximum(Project(p)[k], Of(p, k)) {
      ProjectIsChampion(p, k);
      ProjectIsChampion(q, k);
      SameStatesPerKey(p, q, k);
      if k in Project(p) {
        var m :| IsMaximum(m, Of(p, k));
        MaximumWins(m, Of(p, k));
        SameMultisetSameMembers(Of(p, k), Of(q, k));
        MaximumWins(m, Of(q, k));
      }
    }
  }

  lemma {:induction false} OfIsPart(arrivals: seq<State>, k: Key)
    requires DistinctMessages(arrivals)
    ensures DistinctMessages(Of(arrivals, k))
    ensures forall s :: s in Of(arrivals, k) ==> s in arrivals && KeyOf(s) == k
  {
    if arrivals == [] {
    } else {
      var front, last := arrivals[..|arrivals| - 1], arrivals[|arrivals| - 1];
      OfIsPart(front, k);
      forall i | 0 <= i < |Of(front, k)| ensures Of(front, k)[i].message != last.message {
        assert Of(front, k)[i] in front;
      }
    }
  }

  predicate SharedPerKey(arrivals: seq<State>)
  {
    forall a, b :: a in arrivals && b in arrivals && KeyOf(a) == KeyOf(b) ==> SameSession(a, b)
  }

  /** One session per source, key and instant is enough. */
  lemma SharedSessionsHaveMaxima(arrivals: seq<State>)
    requires DistinctMessages(arrivals) && SharedPerKey(arrivals)
    ensures HasMaxima(arrivals)
  {
    forall k | Of(arrivals, k) != [] ensures exists m :: IsMaximum(m, Of(arrivals, k)) {
      var ss := Of(arrivals, k);
      OfIsPart(arrivals, k);
      assert SharedSessions(ss) by {
        forall i, j | 0 <= i < |ss| && 0 <= j < |ss| ensures SameSession(ss[i], ss[j]) {
          assert ss[i] in arrivals && ss[j] in arrivals;
        }
      }
      SharedSessionsHaveMaximum(ss);
    }
  }

  /** A persisted state with the time it was persisted at. */
  datatype Persisted = Persisted(state: State, at: int)

  function Candidate(p: Persisted): State
  {
    if p.state.occurred.None? then p.state.(occurred := Some(p.at)) else p.state
  }

  function Candidates(ps: seq<Persisted>): seq<State> { seq(|ps|, i requires 0 <= i < |ps| => Candidate(ps[i])) }

  function States(ps: seq<Persisted>): seq<State> { seq(|ps|, i requires 0 <= i < |ps| => ps[i].state) }

  class Projection {
    var latest: Latest

    constructor ()
      ensures latest == map[]
    {
      latest := map[];
    }

    /** `upsertLatestState`: a state that does not come after the stored one is dropped. */
    method Upsert(s: State)
      modifies this
      ensures latest == Upserted(old(latest), s)
    {
      if KeyOf(s) in latest {
        if Compare(s, latest[KeyOf(s)]) <= 0 {
          return;
        }
      }
      latest := latest[KeyOf(s) := s];
    }

    /** `RebuildLatestState`: the candidates sorted, which is a permutation whatever the comparison
        does, then projected one by one into an empty table. */
    method Rebuild(persisted: seq<Persisted>, sorted: seq<State>)
      requires multiset(sorted) == multiset(Candidates(persisted))
      modifies this
      ensures latest == Project(sorted)
    {
      latest := map[];
      assert sorted[..0] == [];
      for k := 0 to |sorted|
        invariant latest == Project(sorted[..k])
      {
        assert sorted[..k + 1][..k] == sorted[..k];
        Upsert(sorted[k]);
      }
      assert sorted[..|sorted|] == sorted;
    }
  }

  /** If all states carry their time and states of one key at one instant share a session, then the
      projection kept up to date in any arrival order is the one a rebuild computes. */
  lemma RebuildEqualsProjection(persisted: seq<Persisted>, arrivals: seq<State>, sorted: seq<State>)
    requires multiset(arrivals) == multiset(States(persisted)) && multiset(sorted) == multiset(Candidates(persisted))
    requires forall i :: 0 <= i < |persisted| ==> persisted[i].state.occurred.Some?
    requires DistinctMessages(arrivals) && SharedPerKey(arrivals)
    ensures Project(arrivals) == Project(sorted)
    ensures forall k :: k in Project(arrivals) ==> IsMaximum(Project(arrivals)[k], Of(arrivals, k))
  {
    assert Candidates(persisted) == States(persisted);
    SharedSessionsHaveMaxima(arrivals);
    ProjectionIsMaximum(arrivals, sorted);
  }

  lemma OfMembers(arrivals: seq<State>, k: Key, s: State)
    ensures s in Of(arrivals, k) <==> s in arrivals && KeyOf(s) == k
  {
    OfFilters(arrivals, k, s);
    assert s in Of(arrivals, k) <==> s in multiset(Of(arrivals, k));
    assert s in arrivals <==> s in multiset(arrivals);
  }

  lemma CandidateOf(persisted: seq<Persisted>, sorted: seq<State>, s: State) returns (p: Persisted)
    requires multiset(sorted) == multiset(Candidates(persisted)) && s in sorted
    ensures p in persisted && Candidate(p) == s
  {
    SameMultisetSameMembers(sorted, Candidates(persisted));
    var i :| 0 <= i < |persisted| && Candidates(persisted)[i] == s;
    p := persisted[i];
  }

  lemma CandidateIn(persisted: seq<Persisted>, sorted: seq<State>, p: Persisted)
    requires multiset(sorted) == multiset(Candidates(persisted)) && p in persisted
    ensures Candidate(p) in sorted
  {
    SameMultisetSameMembers(sorted, Candidates(persisted));
    var i :| 0 <= i < |persisted| && persisted[i] == p;
    assert Candidates(persisted)[i] == Candidate(p);
  }

  lemma StateIn(persisted: seq<Persisted>, arrivals: seq<State>, s: State)
    requires multiset(arrivals) == multiset(States(persisted))
    ensures s in arrivals <==> exists p :: p in persisted && p.state == s
  {
    SameMultisetSameMembers(arrivals, States(persisted));
    if s in arrivals {
      var i :| 0 <= i < |persisted| && States(persisted)[i] == s;
      assert persisted[i] in persisted;
    }
    if p :| p in persisted && p.state == s {
      var i :| 0 <= i < |persisted| && persisted[i] == p;
      assert States(persisted)[i] == s;
    }
  }

  lemma RebuiltKeysArrived(persisted: seq<Persisted>, arrivals: seq<State>, sorted: seq<State>, k: Key)
    requires multiset(arrivals) == multiset(States(persisted)) && multiset(sorted) == multiset(Candidates(persisted))
    requires k in Project(sorted)
    ensures k in Project(arrivals)
  {
    ProjectIsChampion(sorted, k);
    ProjectIsChampion(arrivals, k);
    var s := Of(sorted, k)[0];
    OfMembers(sorted, k, s);
    var p := CandidateOf(persisted, sorted, s);
    StateIn(persisted, arrivals, p.state);
    OfMembers(arrivals, k, p.state);
  }

  // ---------------------------------------------------------------------------------------------
  // A rebuild, whatever the sort does with a comparison that is no order

  lemma ArrivedKeysAreRebuilt(persisted: seq<Persisted>, arrivals: seq<State>, sorted: seq<State>, k: Key)
    requires multiset(arrivals) == multiset(States(persisted)) && multiset(sorted) == multiset(Candidates(persisted))
    requires k in Project(arrivals)
    ensures k in Project(sorted) && Of(sorted, k) != []
  {
    ProjectIsChampion(sorted, k);
    ProjectIsChampion(arrivals, k);
    var s := Of(arrivals, k)[0];
    OfMembers(arrivals, k, s);
    StateIn(persisted, arrivals, s);
    var p :| p in persisted && p.state == s;
    CandidateIn(persisted, sorted, p);
    OfMembers(sorted, k, Candidate(p));
  }

  /** The states of one key in another order, after all others. */
  function Others(ss: seq<State>, k: Key): seq<State>
  {
    if ss == [] then []
    else
      var last := ss[|ss| - 1];
      Others(ss[..|ss| - 1], k) + if KeyOf(last) == k then [] else [last]
  }

  lemma {:induction false} OthersAndOf(ss: seq<State>, k: Key)
    ensures multiset(Others(ss, k)) + multiset(Of(ss, k)) == multiset(ss)
  {
    if ss == [] {
    } else {
      OthersAndOf(ss[..|ss| - 1], k);
      assert ss == ss[..|ss| - 1] + [ss[|ss| - 1]];
    }
  }

  lemma {:induction false} OthersHaveOtherKeys(ss: seq<State>, k: Key)
    ensures forall s :: s in Others(ss, k) ==> KeyOf(s) != k
  {
    if ss != [] {
      OthersHaveOtherKeys(ss[..|ss| - 1], k);
    }
  }

  lemma {:induction false} OfConcat(a: seq<State>, b: seq<State>, k: Key)
    ensures Of(a + b, k) == Of(a, k) + Of(b, k)
  {
    if b == [] {
      assert a + b == a;
    } else {
      var front := b[..|b| - 1];
      OfConcat(a, front, k);
      assert (a + b)[..|a + b| - 1] == a + front;
    }
  }

  lemma NoneOfKey(ss: seq<State>, k: Key)
    requires forall s :: s in ss ==> KeyOf(s) != k
    ensures Of(ss, k) == []
  {
    if Of(ss, k) != [] {
      OfMembers(ss, k, Of(ss, k)[0]);
    }
  }

  lemma {:induction false} OfOwnKey(ss: seq<State>, k: Key)
    requires forall s :: s in ss ==> KeyOf(s) == k
    ensures Of(ss, k) == ss
  {
    if ss == [] {
    } else {
      OfOwnKey(ss[..|ss| - 1], k);
      assert ss[|ss| - 1] in ss;
      assert ss == ss[..|ss| - 1] + [ss[|ss| - 1]];
    }
  }

  /** The states of one key may come in any order of their own. */
  lemma Reordered(ss: seq<State>, k: Key, other: seq<State>) returns (all: seq<State>)
    requires multiset(other) == multiset(Of(ss, k))
    ensures multiset(all) == multiset(ss) && Of(all, k) == other
  {
    all := Others(ss, k) + other;
    OthersAndOf(ss, k);
    OthersHaveOtherKeys(ss, k);
    NoneOfKey(Others(ss, k), k);
    SameMultisetSameMembers(other, Of(ss, k));
    forall s | s in other ensures KeyOf(s) == k {
      OfMembers(ss, k, s);
    }
    OfOwnKey(other, k);
    OfConcat(Others(ss, k), other, k);
  }

  lemma CandidatesAreDistinct(persisted: seq<Persisted>, k: Key)
    requires DistinctMessages(States(persisted))
    ensures DistinctMessages(Of(Candidates(persisted), k))
  {
    forall i, j | 0 <= i < j < |persisted|
      ensures Candidates(persisted)[i].message != Candidates(persisted)[j].message {
      assert States(persisted)[i].message != States(persisted)[j].message;
    }
    OfIsPart(Candidates(persisted), k);
  }

  /** Does the row beat everything persisted for its key, times filled in? */
  predicate BeatsCandidates(row: State, persisted: seq<Persisted>)
  {
    IsMaximum(row, Of(Candidates(persisted), KeyOf(row)))
  }

  lemma BeatingRowIsRebuilt(persisted: seq<Persisted>, sorted: seq<State>, row: State)
    requires multiset(sorted) == multiset(Candidates(persisted)) && BeatsCandidates(row, persisted)
    ensures KeyOf(row) in Project(sorted) && Project(sorted)[KeyOf(row)] == row
  {
    var k := KeyOf(row);
    SameStatesPerKey(sorted, Candidates(persisted), k);
    SameMultisetSameMembers(Of(sorted, k), Of(Candidates(persisted), k));
    MaximumWins(row, Of(sorted, k));
    ProjectIsChampion(sorted, k);
  }

  /** A row that does not beat all candidates of its key is replaced by some order of them. */
  lemma BeatenRowIsReplaced(persisted: seq<Persisted>, row: State) returns (sorted: seq<State>)
    requires DistinctMessages(States(persisted)) && Of(Candidates(persisted), KeyOf(row)) != []
    requires !BeatsCandidates(row, persisted)
    ensures multiset(sorted) == multiset(Candidates(persisted))
    ensures KeyOf(row) in Project(sorted) && Project(sorted)[KeyOf(row)] != row
  {
    var k, all := KeyOf(row), Candidates(persisted);
    sorted := all;
    if Champion(Of(all, k)) == row {
      CandidatesAreDistinct(persisted, k);
      var other := OrderMatters(Of(all, k));
      sorted := Reordered(all, k, other);
    }
    ProjectIsChampion(sorted, k);
  }

  lemma RowsKeepTheirKeys(arrivals: seq<State>, k: Key)
    requires k in Project(arrivals)
    ensures KeyOf(Project(arrivals)[k]) == k
  {
    ProjectIsChampion(arrivals, k);
    ChampionIsMember(Of(arrivals, k));
    OfMembers(arrivals, k, Project(arrivals)[k]);
  }

  lemma BeatingRowsAreRebuilt(persisted: seq<Persisted>, arrivals: seq<State>, sorted: seq<State>)
    requires multiset(arrivals) == multiset(States(persisted)) && multiset(sorted) == multiset(Candidates(persisted))
    requires forall k :: k in Project(arrivals) ==> BeatsCandidates(Project(arrivals)[k], persisted)
    ensures Project(sorted) == Project(arrivals)
  {
    forall k ensures k in Project(arrivals) <==> k in Project(sorted)
             ensures k in Project(arrivals) ==> k in Project(sorted) && Project(sorted)[k] == Project(arrivals)[k] {
      if k in Project(arrivals) {
        RowsKeepTheirKeys(arrivals, k);
        BeatingRowIsRebuilt(persisted, sorted, Project(arrivals)[k]);
      } else if k in Project(sorted) {
        RebuiltKeysArrived(persisted, arrivals, sorted, k);
      }
    }
  }

  /** A rebuild reproduces the table, in whatever order the sort leaves the candidates, if and only if every
      stored row beats all other candidates of its key. */
  lemma RebuildReproducesIff(persisted: seq<Persisted>, arrivals: seq<State>)
    requires multiset(arrivals) == multiset(States(persisted)) && DistinctMessages(States(persisted))
    ensures (forall sorted :: multiset(sorted) == multiset(Candidates(persisted)) ==>
                                Project(sorted) == Project(arrivals))
            <==> (forall k :: k in Project(arrivals) ==> BeatsCandidates(Project(arrivals)[k], persisted))
  {
    if forall k :: k in Project(arrivals) ==> BeatsCandidates(Project(arrivals)[k], persisted) {
      forall sorted | multiset(sorted) == multiset(Candidates(persisted))
        ensures Project(sorted) == Project(arrivals) {
        BeatingRowsAreRebuilt(persisted, arrivals, sorted);
      }
    } else {
      var k :| k in Project(arrivals) && !BeatsCandidates(Project(arrivals)[k], persisted);
      RowsKeepTheirKeys(arrivals, k);
      ArrivedKeysAreRebuilt(persisted, arrivals, Candidates(persisted), k);
      var sorted := BeatenRowIsReplaced(persisted, Project(arrivals)[k]);
      assert Project(sorted)[k] != Project(arrivals)[k];
    }
  }

  // ---------------------------------------------------------------------------------------------
  // The sort itself, for a short slice: insertion from the left

  function Placed(sorted: seq<State>, s: State): (r: seq<State>)
    ensures multiset(r) == multiset(sorted) + multiset{s}
  {
    if sorted == [] then [s]
    else
      var front, last := sorted[..|sorted| - 1], sorted[|sorted| - 1];
      assert sorted == front + [last];
      if Compare(s, last) < 0 then Placed(front, s) + [last] else sorted + [s]
  }

  /** `sort.SliceStable` on at most twenty elements. */
  function Sorted(ss: seq<State>): (r: seq<State>)
    ensures multiset(r) == multiset(ss)
  {
    if ss == [] then []
    else
      assert ss == ss[..|ss| - 1] + [ss[|ss| - 1]];
      Placed(Sorted(ss[..|ss| - 1]), ss[|ss| - 1])
  }

  lemma SortedNext(ss: seq<State>, s: State)
    ensures Sorted(ss + [s]) == Placed(Sorted(ss), s)
  {
    assert (ss + [s])[..|ss|] == ss;
  }

  lemma ProjectNext(ss: seq<State>, s: State)
    ensures Project(ss + [s]) == Upserted(Project(ss), s)
  {
    assert (ss + [s])[..|ss|] == ss;
  }

  lemma PlacedLast(ss: seq<State>, s: State)
    requires ss != [] && Compare(s, ss[|ss| - 1]) >= 0
    ensures Placed(ss, s) == ss + [s]
  {
  }

  lemma PlacedBeforeLast(ss: seq<State>, s: State, last: State)
    requires ss != [] && Compare(s, last) < 0 && Compare(s, ss[|ss| - 1]) >= 0
    ensures Placed(ss + [last], s) == ss + [s] + [last]
  {
    assert (ss + [last])[..|ss|] == ss;
    PlacedLast(ss, s);
  }

  /** The fourth state goes before the third, and so the third is projected last. */
  predicate Swapped(a: State, b: State, c: State, d: State)
  {
    && Compare(b, a) >= 0 && Compare(c, b) >= 0 && Compare(d, c) < 0 && Compare(d, b) >= 0
    && KeyOf(a) == KeyOf(c) == KeyOf(d) != KeyOf(b)
    && Compare(c, a) <= 0 && Compare(d, a) > 0 && Compare(c, d) > 0
  }

  lemma SortedLast(ss: seq<State>, s: State)
    requires Sorted(ss) == ss && (ss == [] || Compare(s, ss[|ss| - 1]) >= 0)
    ensures Sorted(ss + [s]) == ss + [s]
  {
    SortedNext(ss, s);
    if ss != [] {
      PlacedLast(ss, s);
    }
  }

  lemma ThreeAreSorted(a: State, b: State, c: State)
    requires Compare(b, a) >= 0 && Compare(c, b) >= 0
    ensures Sorted([a] + [b] + [c]) == [a] + [b] + [c]
  {
    SortedLast([], a);
    assert [] + [a] == [a];
    SortedLast([a], b);
    SortedLast([a] + [b], c);
  }

  lemma SwappedIsSorted(a: State, b: State, c: State, d: State)
    requires Swapped(a, b, c, d)
    ensures Sorted([a] + [b] + [c] + [d]) == [a] + [b] + [d] + [c]
  {
    ThreeAreSorted(a, b, c);
    SortedNext([a] + [b] + [c], d);
    PlacedBeforeLast([a] + [b], d, c);
  }

  lemma SwappedRows(a: State, b: State, c: State, d: State)
    requires Swapped(a, b, c, d)
    ensures Project([a] + [b] + [c] + [d]) == map[KeyOf(a) := d, KeyOf(b) := b]
    ensures Project([a] + [b] + [d] + [c]) == map[KeyOf(a) := c, KeyOf(b) := b]
  {
    var two := map[KeyOf(a) := a, KeyOf(b) := b];
    ProjectNext([], a);
    assert [] + [a] == [a];
    ProjectNext([a], b);
    assert Project([a] + [b]) == two;
    ProjectNext([a] + [b], c);
    ProjectNext([a] + [b] + [c], d);
    ProjectNext([a] + [b], d);
    ProjectNext([a] + [b] + [d], c);
  }

  lemma TextsInOrder()
    ensures CompareText("5", "3") > 0 && CompareText("8", "5") > 0 && CompareText("8", "6") > 0
    ensures CompareText("6", "3") > 0 && CompareText("6", "8") < 0
  {
    assert Timestamps.Less("3", "5") && Timestamps.Less("5", "8") && Timestamps.Less("6", "8");
    assert Timestamps.Less("3", "6") && !Timestamps.Less("8", "6");
  }

  /** Four states of one source at one instant, all with their time, in two sessions. */
  function FourStates(t: int, s: string, u: string): (State, State, State, State)
  {
    (State("n", "k", "3", Some(t), Some(u), 1, ""), State("n", "l", "5", Some(t), Some(s), 3, ""),
     State("n", "k", "8", Some(t), Some(u), 0, ""), State("n", "k", "6", Some(t), Some(s), 4, ""))
  }

  function FourArrivals(t: int, s: string, u: string): seq<State>
  {
    var (a, b, c, d) := FourStates(t, s, u);
    [a] + [b] + [c] + [d]
  }

  lemma FourAreSwapped(t: int, s: string, u: string)
    requires s != u
    ensures var (a, b, c, d) := FourStates(t, s, u); Swapped(a, b, c, d)
  {
    assert "k"[0] != "l"[0];
    TextsInOrder();
  }

  lemma TimedCandidates(persisted: seq<Persisted>, arrivals: seq<State>)
    requires States(persisted) == arrivals && forall s :: s in arrivals ==> s.occurred.Some?
    ensures Candidates(persisted) == arrivals
  {
    forall i | 0 <= i < |persisted| ensures Candidates(persisted)[i] == arrivals[i] {
      assert States(persisted)[i] == persisted[i].state && arrivals[i] in arrivals;
    }
  }

  /** They arrive in this order: the table holds "6" for the first key, and the rebuild, which sorts all four,
      stores "8". */
  lemma RebuildDiffersAcrossSessions(t: int, s: string, u: string, persisted: seq<Persisted>)
    requires s != u && States(persisted) == FourArrivals(t, s, u)
    ensures Candidates(persisted) == FourArrivals(t, s, u)
    ensures var (a, b, c, d) := FourStates(t, s, u);
            && Project(FourArrivals(t, s, u)) == map[KeyOf(a) := d, KeyOf(b) := b]
            && Project(Sorted(Candidates(persisted))) == map[KeyOf(a) := c, KeyOf(b) := b]
  {
    var (a, b, c, d) := FourStates(t, s, u);
    TimedCandidates(persisted, FourArrivals(t, s, u));
    FourAreSwapped(t, s, u);
    SwappedIsSorted(a, b, c, d);
    SwappedRows(a, b, c, d);
  }

  // ---------------------------------------------------------------------------------------------
  // A rebuild where every key has a maximum

  /** The stored row carries a time and beats every state of its key without one, taken as of when it was
      persisted. */
  ghost predicate BeatsUntimed(m: State, persisted: seq<Persisted>)
  {
    m.occurred.Some?
    && forall p :: p in persisted && KeyOf(p.state) == KeyOf(m) && p.state.occurred.None? ==>
         Compare(m, Candidate(p)) > 0
  }

  lemma RebuiltRowBeatsUntimed(persisted: seq<Persisted>, arrivals: seq<State>, sorted: seq<State>, m: State)
    requires multiset(arrivals) == multiset(States(persisted)) && multiset(sorted) == multiset(Candidates(persisted))
    requires DistinctMessages(arrivals) && m in arrivals && IsMaximum(m, Of(sorted, KeyOf(m)))
    ensures BeatsUntimed(m, persisted)
  {
    OfMembers(sorted, KeyOf(m), m);
    var own := CandidateOf(persisted, sorted, m);
    forall p | p in persisted && KeyOf(p.state) == KeyOf(m) && p.state.occurred.None?
      ensures Compare(m, Candidate(p)) > 0 {
      CandidateIn(persisted, sorted, p);
      OfMembers(sorted, KeyOf(m), Candidate(p));
      StateIn(persisted, arrivals, p.state);
      assert p.state != m;
      DifferentMessages(arrivals, p.state, m);
    }
  }

  lemma BeatingUntimedIsMaximum(persisted: seq<Persisted>, arrivals: seq<State>, sorted: seq<State>, m: State)
    requires multiset(arrivals) == multiset(States(persisted)) && multiset(sorted) == multiset(Candidates(persisted))
    requires m in arrivals && IsMaximum(m, Of(arrivals, KeyOf(m))) && BeatsUntimed(m, persisted)
    ensures IsMaximum(m, Of(sorted, KeyOf(m)))
  {
    var k := KeyOf(m);
    StateIn(persisted, arrivals, m);
    var own :| own in persisted && own.state == m;
    CandidateIn(persisted, sorted, own);
    OfMembers(sorted, k, m);
    forall s | s in Of(sorted, k) && s != m ensures Compare(m, s) > 0 {
      OfMembers(sorted, k, s);
      var p := CandidateOf(persisted, sorted, s);
      if p.state.occurred.Some? {
        StateIn(persisted, arrivals, s);
        OfMembers(arrivals, k, s);
      }
    }
  }

  /** A rebuild leaves a row as it is exactly when the row carries a time and beats every state of its key
      that came without one. */
  lemma RebuildKeepsRowIff(persisted: seq<Persisted>, arrivals: seq<State>, sorted: seq<State>, k: Key)
    requires multiset(arrivals) == multiset(States(persisted)) && multiset(sorted) == multiset(Candidates(persisted))
    requires DistinctMessages(arrivals) && HasMaxima(arrivals) && HasMaxima(sorted) && k in Project(arrivals)
    ensures k in Project(sorted)
    ensures Project(sorted)[k] == Project(arrivals)[k] <==> BeatsUntimed(Project(arrivals)[k], persisted)
  {
    ProjectionIsMaximum(arrivals, arrivals);
    ProjectionIsMaximum(sorted, sorted);
    var m := Project(arrivals)[k];
    OfMembers(arrivals, k, m);
    StateIn(persisted, arrivals, m);
    var own :| own in persisted && own.state == m;
    CandidateIn(persisted, sorted, own);
    OfMembers(sorted, k, Candidate(own));
    ProjectIsChampion(sorted, k);
    if Project(sorted)[k] == m {
      RebuiltRowBeatsUntimed(persisted, arrivals, sorted, m);
    }
    if BeatsUntimed(m, persisted) {
      BeatingUntimedIsMaximum(persisted, arrivals, sorted, m);
      MaximumWins(m, Of(sorted, k));
    }
  }

  /** So a rebuild leaves the whole table as it is exactly when this holds of every row. */
  lemma RebuildEqualsProjectionIff(persisted: seq<Persisted>, arrivals: seq<State>, sorted: seq<State>)
    requires multiset(arrivals) == multiset(States(persisted)) && multiset(sorted) == multiset(Candidates(persisted))
    requires DistinctMessages(arrivals) && HasMaxima(arrivals) && HasMaxima(sorted)
    ensures Project(sorted) == Project(arrivals) <==>
            forall k :: k in Project(arrivals) ==> BeatsUntimed(Project(arrivals)[k], persisted)
  {
    forall k ensures k in Project(arrivals) <==> k in Project(sorted)
             ensures k in Project(arrivals) ==>
                       (Project(sorted)[k] == Project(arrivals)[k] <==> BeatsUntimed(Project(arrivals)[k], persisted)) {
      if k in Project(arrivals) {
        RebuildKeepsRowIff(persisted, arrivals, sorted, k);
      } else if k in Project(sorted) {
        RebuiltKeysArrived(persisted, arrivals, sorted, k);
        assert false;
      }
    }
  }

  /** A state without a time counts as oldest when it arrives, but as persisted last in a rebuild. */
  lemma RebuildDiffersWithoutTimes(t: int, later: int)
    requires ZERO_TIME < t < later
    ensures var a := State("n", "k", "a", Some(t), None, 0, "");
            var b := State("n", "k", "b", None, None, 0, "");
            var rebuilt := [a, b.(occurred := Some(later))];
            Candidates([Persisted(a, t), Persisted(b, later)]) == rebuilt
            && Project([a, b])[KeyOf(a)] == a && Project(rebuilt)[KeyOf(a)].message == "b"
  {
    var a := State("n", "k", "a", Some(t), None, 0, "");
    var b := State("n", "k", "b", None, None, 0, "");
    var c := b.(occurred := Some(later));
    assert [a, b][..1] == [a] && [a, c][..1] == [a] && [a][..0] == [];
    assert Project([a]) == map[KeyOf(a) := a];
  }
}
