/**
 The command ledger and its execution log: which results are taken, and what any sequence of them leaves.
 */
module CommandPhases {
  import opened Wrappers

  datatype Phase = Issued | Accepted | Executing | Succeeded | Failed | Rejected | Expired

  predicate Terminal(p: Phase) { p.Succeeded? || p.Failed? || p.Rejected? || p.Expired? }

  /** `validCommandTransitions` */
  predicate CanFollow(current: Phase, next: Phase)
  {
    match current
    case Issued => next != Issued
    case Accepted => next.Executing? || Terminal(next)
    case Executing => next.Succeeded? || next.Failed? || next.Expired?
    case _ => false
  }

  /** A command token is unique per target and window; `epoch` names the window. */
  datatype TokenSlot = TokenSlot(scope: string, epoch: string, token: int)

  datatype Command = Command(message: string, slot: Option<TokenSlot>, phase: Phase)

  datatype Execution = Execution(command: string, phase: Phase, message: string)

  datatype Commands = Commands(ledger: map<string, Command>, log: seq<Execution>)

  /** The commands the token query may answer with; it asks for target and token only. */
  predicate TokenMatches(c: Commands, id: string, scope: string, token: int)
  {
    && id in c.ledger && c.ledger[id].slot.Some?
    && c.ledger[id].slot.value.scope == scope && c.ledger[id].slot.value.token == token
  }

  /** A possible answer of the token query: some command holding the token, "" when there is none. */
  ghost predicate IsAnswer(c: Commands, scope: string, token: int, found: string)
  {
    if found == "" then forall id :: !TokenMatches(c, id, scope, token) else TokenMatches(c, found, scope, token)
  }

  datatype Refusal = Unresolved | BadPhase | UnknownCommand | BadTransition

  datatype Recorded = Recorded(commands: Commands) | Refused(why: Refusal)

  /** `recordCommandResult` for a resolved command; a phase text that is no result phase is `None`. */
  function Record(c: Commands, id: string, phase: Option<Phase>, message: string): Recorded
  {
    if id == "" then Refused(Unresolved)
    else if phase.None? || phase.value.Issued? then Refused(BadPhase)
    else if id !in c.ledger then Refused(UnknownCommand)
    else if c.ledger[id].phase == phase.value then Recorded(c)
    else if !CanFollow(c.ledger[id].phase, phase.value) then Refused(BadTransition)
    else Recorded(Commands(c.ledger[id := c.ledger[id].(phase := phase.value)],
                           c.log + [Execution(id, phase.value, message)]))
  }

  // ---------------------------------------------------------------------------------------------
  // What the log looks like

  function Rank(p: Phase): nat
  {
    match p
    case Issued => 0
    case Accepted => 1
    case Executing => 2
    case _ => 3
  }

  function PhasesOf(log: seq<Execution>, id: string): seq<Phase>
  {
    if log == [] then []
    else PhasesOf(log[..|log| - 1], id) + if log[|log| - 1].command == id then [log[|log| - 1].phase] else []
  }

  predicate Rising(ps: seq<Phase>)
  {
    (forall i :: 0 <= i < |ps| ==> !ps[i].Issued?) && (forall i, j :: 0 <= i < j < |ps| ==> Rank(ps[i]) < Rank(ps[j]))
  }

  /** Of one command: the logged phases rise, and the ledger shows the last of them. */
  predicate HistoryOk(c: Commands, id: string)
  {
    var ps := PhasesOf(c.log, id);
    && Rising(ps)
    && (id !in c.ledger ==> ps == [])
    && (id in c.ledger ==> c.ledger[id].phase == if ps == [] then Issued else ps[|ps| - 1])
  }

  ghost predicate Consistent(c: Commands) { forall id :: HistoryOk(c, id) }

  lemma PhasesOfExtended(log: seq<Execution>, e: Execution, id: string)
    ensures PhasesOf(log + [e], id) == PhasesOf(log, id) + if e.command == id then [e.phase] else []
  {
    assert (log + [e])[..|log|] == log;
  }

  lemma RisesFurther(ps: seq<Phase>, p: Phase)
    requires Rising(ps) && !p.Issued? && (ps == [] || Rank(ps[|ps| - 1]) < Rank(p))
    ensures Rising(ps + [p])
  {
    var more := ps + [p];
    forall i, j | 0 <= i < j < |more| ensures Rank(more[i]) < Rank(more[j]) {
      assert i < |ps| - 1 ==> Rank(ps[i]) < Rank(ps[|ps| - 1]);
    }
  }

  lemma FollowingIsHigher(current: Phase, next: Phase)
    requires CanFollow(current, next)
    ensures !next.Issued? && Rank(current) < Rank(next)
  {
  }

  lemma RecordKeepsHistory(c: Commands, id: string, phase: Phase, message: string, other: string)
    requires HistoryOk(c, id) && HistoryOk(c, other) && Record(c, id, Some(phase), message).Recorded?
    ensures HistoryOk(Record(c, id, Some(phase), message).commands, other)
  {
    if phase != c.ledger[id].phase {
      PhasesOfExtended(c.log, Execution(id, phase, message), other);
      if other == id {
        FollowingIsHigher(c.ledger[id].phase, phase);
        RisesFurther(PhasesOf(c.log, id), phase);
      }
    }
  }

  lemma RecordKeeps(c: Commands, id: string, phase: Option<Phase>, message: string)
    requires Consistent(c) && Record(c, id, phase, message).Recorded?
    ensures Consistent(Record(c, id, phase, message).commands)
  {
    forall other ensures HistoryOk(Record(c, id, phase, message).commands, other) {
      assert HistoryOk(c, id) && HistoryOk(c, other);
      RecordKeepsHistory(c, id, phase.value, message, other);
    }
  }

  /** `Issue`: the ledger row of a new command. */
  lemma IssueKeeps(c: Commands, id: string, command: Command)
    requires Consistent(c) && id !in c.ledger && command.phase == Issued
    ensures Consistent(c.(ledger := c.ledger[id := command]))
  {
    var n := c.(ledger := c.ledger[id := command]);
    forall other ensures HistoryOk(n, other) {
      assert HistoryOk(c, other);
    }
  }

  /** Phases that rise in rank are at most three: the one at `i` has more than `i` below it. */
  lemma {:induction false} RisingIsShort(ps: seq<Phase>)
    requires Rising(ps)
    ensures |ps| <= 3
    ensures ps != [] ==> |ps| <= Rank(ps[|ps| - 1])
  {
    if ps == [] {
    } else {
      var front, last := ps[..|ps| - 1], ps[|ps| - 1];
      RisingIsShort(front);
      assert !last.Issued?;
      assert front != [] ==> Rank(ps[|ps| - 2]) < Rank(last);
    }
  }

  // ---------------------------------------------------------------------------------------------
  // Runs

  datatype Report = Issue(id: string, command: Command) | Result(id: string, phase: Option<Phase>, message: string)

  /** A refused report changes nothing, and so does a second command of the same id. */
  function Take(c: Commands, r: Report): Commands
  {
    match r
    case Issue(id, command) =>
      if id == "" || id in c.ledger then c else c.(ledger := c.ledger[id := command.(phase := Issued)])
    case Result(id, phase, message) =>
      var n := Record(c, id, phase, message);
      if n.Recorded? then n.commands else c
  }

  function TakeAll(c: Commands, reports: seq<Report>): Commands
    decreases |reports|
  {
    if reports == [] then c else TakeAll(Take(c, reports[0]), reports[1..])
  }

  lemma {:induction false} TakeAllKeeps(c: Commands, reports: seq<Report>)
    requires Consistent(c)
    ensures Consistent(TakeAll(c, reports))
    decreases |reports|
  {
    if reports == [] {
    } else {
      match reports[0] {
        case Issue(id, command) =>
          if id != "" && id !in c.ledger {
            IssueKeeps(c, id, command.(phase := Issued));
          }
        case Result(id, phase, message) =>
          if Record(c, id, phase, message).Recorded? {
            RecordKeeps(c, id, phase, message);
          }
      }
      TakeAllKeeps(Take(c, reports[0]), reports[1..]);
    }
  }

  /** After any reports at all, each command has at most three log entries, of strictly rising rank, and
      the ledger shows the last of them. */
  lemma LogRisesAndLedgerFollows(reports: seq<Report>, id: string)
    ensures var c := TakeAll(Commands(map[], []), reports);
            var ps := PhasesOf(c.log, id);
            && Rising(ps) && |ps| <= 3
            && (id in c.ledger ==> c.ledger[id].phase == if ps == [] then Issued else ps[|ps| - 1])
  {
    var start := Commands(map[], []);
    assert Consistent(start);
    TakeAllKeeps(start, reports);
    assert HistoryOk(TakeAll(start, reports), id);
    RisingIsShort(PhasesOf(TakeAll(start, reports).log, id));
  }

  /** A result that changes anything is for another command than one that has ended. */
  lemma RecordSparesEnded(c: Commands, other: string, phase: Option<Phase>, message: string, id: string)
    requires id in c.ledger && Terminal(c.ledger[id].phase) && Record(c, other, phase, message).Recorded?
    ensures var n := Record(c, other, phase, message).commands;
            id in n.ledger && n.ledger[id] == c.ledger[id] && PhasesOf(n.log, id) == PhasesOf(c.log, id)
  {
    if c.ledger[other].phase != phase.value {
      assert other != id;
      PhasesOfExtended(c.log, Execution(other, phase.value, message), id);
    }
  }

  lemma EndedStays(c: Commands, r: Report, id: string)
    requires id in c.ledger && Terminal(c.ledger[id].phase)
    ensures var n := Take(c, r);
            id in n.ledger && n.ledger[id] == c.ledger[id] && PhasesOf(n.log, id) == PhasesOf(c.log, id)
  {
    if r.Result? && Record(c, r.id, r.phase, r.message).Recorded? {
      RecordSparesEnded(c, r.id, r.phase, r.message, id);
    }
  }

  /** Once a command has ended, no report of any kind changes its ledger row or its log. */
  lemma {:induction false} EndedForGood(c: Commands, reports: seq<Report>, id: string)
    requires id in c.ledger && Terminal(c.ledger[id].phase)
    ensures var n := TakeAll(c, reports);
            id in n.ledger && n.ledger[id] == c.ledger[id] && PhasesOf(n.log, id) == PhasesOf(c.log, id)
    decreases |reports|
  {
    if reports == [] {
    } else {
      EndedStays(c, reports[0], id);
      EndedForGood(Take(c, reports[0]), reports[1..], id);
    }
  }

  /** A result is taken exactly when it repeats the ledger's phase or moves up in rank, save that a
      command that is executing can no longer be rejected. */
  lemma TakenIffRankRises(c: Commands, id: string, phase: Phase, message: string)
    requires id != "" && id in c.ledger && !phase.Issued?
    ensures Record(c, id, Some(phase), message).Recorded? <==>
            phase == c.ledger[id].phase
            || (Rank(c.ledger[id].phase) < Rank(phase) && !(c.ledger[id].phase.Executing? && phase.Rejected?))
  {
  }

  /** No two commands hold one slot: the ledger's unique index. */
  predicate SlotsUnique(c: Commands)
  {
    forall a, b :: a in c.ledger && b in c.ledger && a != b && c.ledger[a].slot.Some? ==>
      c.ledger[a].slot != c.ledger[b].slot
  }

  /** The token query has one answer exactly when the target's token is held in one window only. */
  lemma TokenIsUniqueIffOneWindow(c: Commands, id: string, scope: string, token: int)
    requires SlotsUnique(c) && TokenMatches(c, id, scope, token)
    ensures (forall other :: TokenMatches(c, other, scope, token) ==> other == id)
            <==> (forall other :: TokenMatches(c, other, scope, token) ==>
                    c.ledger[other].slot.value.epoch == c.ledger[id].slot.value.epoch)
  {
  }
}
