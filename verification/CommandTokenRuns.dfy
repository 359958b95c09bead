/**
 Command tokens over runs of the router: what an allocated token guarantees when commands are issued in
 between, and which command a result that names only a token is taken for.
 */
module CommandTokenRuns {
  import opened Wrappers
  import opened SiteRouter
  import opened SiteRouterCommands
  import opened SiteRouterRuns
  import opened RoutePlanner
  import Outbox
  import OutboxCalls
  import CommandPhases
  import CommandTokens

  /** The query the allocator asks for a target: any possible answer for each token. */
  ghost predicate Resolves(c: CommandPhases.Commands, target: string, resolve: int -> string)
  {
    forall token :: CommandPhases.IsAnswer(c, target, token, resolve(token))
  }

  /** The allocator's last probe, the one that decides for the token of a command, is answered by this
      ledger. The probes before it are separate queries and may have seen earlier ledgers. */
  ghost predicate Allocated(c: CommandPhases.Commands, id: string, slot: CommandPhases.TokenSlot)
  {
    CommandPhases.IsAnswer(c, slot.scope, slot.token, "") || CommandPhases.IsAnswer(c, slot.scope, slot.token, id)
  }

  /** What the allocator returns is allocated in this sense. */
  lemma AllocationIsAllocated(c: CommandPhases.Commands, hash: nat, id: string, slot: CommandPhases.TokenSlot,
                              resolve: int -> string)
    requires Resolves(c, slot.scope, resolve) && CommandTokens.IsAllocation(hash, id, resolve, slot.token)
    ensures Allocated(c, id, slot)
  {
    assert CommandPhases.IsAnswer(c, slot.scope, slot.token, resolve(slot.token));
  }

  /** Then nobody holds the token at that ledger, in whatever window. */
  lemma AllocatedTokenIsUnheld(c: CommandPhases.Commands, id: string, slot: CommandPhases.TokenSlot)
    requires Allocated(c, id, slot) && id !in c.ledger
    ensures forall other :: !CommandPhases.TokenMatches(c, other, slot.scope, slot.token)
  {
  }

  /** A token the allocator returns for a command never makes issuing the command fail for a taken slot,
      if no other command was issued in between. */
  lemma AllocatedTokenIsFree(s: Store, e: Envelope, key: string, planning: Planning, priority: Outbox.Priority,
                             now: Now)
    requires e.body.Command? && e.body.slot.Some?
    requires Allocated(s.tables.commands, e.body.id, e.body.slot.value)
    ensures Issue(s, e, key, planning, priority, now).outcome != Failed(SlotTaken)
  {
    var c := s.tables.commands;
    if e.body.id !in c.ledger {
      AllocatedTokenIsUnheld(c, e.body.id, e.body.slot.value);
      if SlotUsed(c, e.body.slot) {
        var id :| id in c.ledger && c.ledger[id].slot == e.body.slot;
        assert CommandPhases.TokenMatches(c, id, e.body.slot.value.scope, e.body.slot.value.token);
      }
    }
  }

  lemma {:induction false} RunKeepsRows(s: Store, ops: seq<Op>, cfg: Config)
    ensures RowsKept(s.tables.commands, PerformAll(s, ops, cfg).tables.commands)
    decreases |ops|
  {
    if ops == [] {
    } else {
      OpKeepsRows(s, ops[0], cfg);
      RunKeepsRows(Perform(s, ops[0], cfg), ops[1..], cfg);
    }
  }

  /** Some command that was not yet there when the token was allocated holds exactly the slot. */
  predicate TakenMeanwhile(before: CommandPhases.Commands, after: CommandPhases.Commands, slot: CommandPhases.TokenSlot)
  {
    exists id :: id in after.ledger && id !in before.ledger && after.ledger[id].slot == Some(slot)
  }

  /** With anything in between, issuing a new sendable command fails for its slot exactly when another
      command was taken for the same target, window and token since the allocation. */
  lemma AllocatedTokenFailsIffTakenMeanwhile(s: Store, ops: seq<Op>, cfg: Config, e: Envelope, key: string,
                                             planning: Planning, priority: Outbox.Priority, now: Now)
    requires e.body.Command? && e.body.slot.Some?
    requires Allocated(s.tables.commands, e.body.id, e.body.slot.value)
    requires Validates(e) && Ready(planning) && Duplicate(PerformAll(s, ops, cfg).tables, e).None?
    ensures var n := PerformAll(s, ops, cfg);
            Issue(n, e, key, planning, priority, now).outcome == Failed(SlotTaken) <==>
              TakenMeanwhile(s.tables.commands, n.tables.commands, e.body.slot.value)
  {
    var c, after, slot := s.tables.commands, PerformAll(s, ops, cfg).tables.commands, e.body.slot.value;
    RunKeepsRows(s, ops, cfg);
    AllocatedTokenIsUnheld(c, e.body.id, slot);
    if SlotUsed(after, e.body.slot) {
      var id :| id in after.ledger && after.ledger[id].slot == e.body.slot;
      if id in c.ledger {
        assert CommandPhases.TokenMatches(c, id, slot.scope, slot.token);
      }
    }
  }

  // ---------------------------------------------------------------------------------------------
  // One answer per token

  /** No two commands hold one token of one target, in whatever windows. */
  ghost predicate TokensUnique(c: CommandPhases.Commands)
  {
    forall a, b, scope, token ::
      CommandPhases.TokenMatches(c, a, scope, token) && CommandPhases.TokenMatches(c, b, scope, token) ==> a == b
  }

  /** The token query has one possible answer. */
  ghost predicate OneAnswer(c: CommandPhases.Commands, scope: string, token: int)
  {
    forall a, b ::
      CommandPhases.IsAnswer(c, scope, token, a) && CommandPhases.IsAnswer(c, scope, token, b) ==> a == b
  }

  lemma TokensUniqueIffOneAnswer(c: CommandPhases.Commands)
    requires "" !in c.ledger
    ensures TokensUnique(c) <==> forall scope, token :: OneAnswer(c, scope, token)
  {
    if forall scope, token :: OneAnswer(c, scope, token) {
      forall a, b, scope, token
        | CommandPhases.TokenMatches(c, a, scope, token) && CommandPhases.TokenMatches(c, b, scope, token)
        ensures a == b {
        assert OneAnswer(c, scope, token);
        assert CommandPhases.IsAnswer(c, scope, token, a) && CommandPhases.IsAnswer(c, scope, token, b);
      }
    }
  }

  /** The command with a token that an operation brings. */
  function Carried(op: Op): Option<Envelope>
  {
    if op.Receive? && op.e.body.Command? && op.e.body.slot.Some? then Some(op.e)
    else if op.IssueOp? && op.command.body.Command? && op.command.body.slot.Some? then Some(op.command)
    else None
  }

  function SlotOf(e: Envelope): CommandPhases.TokenSlot
    requires e.body.Command? && e.body.slot.Some?
  {
    e.body.slot.value
  }

  /** The command an operation brings is new and taken. */
  ghost predicate Takes(s: Store, op: Op, cfg: Config)
  {
    var e := Carried(op);
    e.Some? && e.value.body.id !in s.tables.commands.ledger
    && e.value.body.id in Perform(s, op, cfg).tables.commands.ledger
  }

  lemma InsertedTokens(t: Tables, e: Envelope, now: Now, found: string, id: string, scope: string, token: int)
    requires Validates(e) && Duplicate(t, e).None? && Inserted(t, e, now, found).Done?
    ensures CommandPhases.TokenMatches(Inserted(t, e, now, found).tables.commands, id, scope, token) <==>
              || CommandPhases.TokenMatches(t.commands, id, scope, token)
              || (&& e.body.Command? && e.body.slot.Some? && id == e.body.id
                  && SlotOf(e).scope == scope && SlotOf(e).token == token)
  {
  }

  /** Tokens are held by the commands that held them before, and by the one that is taken. */
  lemma OpTokens(s: Store, op: Op, cfg: Config, id: string, scope: string, token: int)
    ensures CommandPhases.TokenMatches(Perform(s, op, cfg).tables.commands, id, scope, token) <==>
              || CommandPhases.TokenMatches(s.tables.commands, id, scope, token)
              || (&& Takes(s, op, cfg) && id == Carried(op).value.body.id
                  && SlotOf(Carried(op).value).scope == scope && SlotOf(Carried(op).value).token == token)
  {
    var t := s.tables;
    match op
    case Receive(e, now, found) =>
      if Validates(e) && Duplicate(t, e).None? && Inserted(t, e, now, found).Done? {
        InsertedTokens(t, e, now, found, id, scope, token);
      }
    case IssueOp(e, key, planning, priority, at) =>
      if Validates(e) && Duplicate(t, e).None? && Inserted(t, e, at, "").Done? {
        InsertedTokens(t, e, at, "", id, scope, token);
      }
    case _ =>
  }

  /** Some command that was not yet there when the token was allocated holds it, in whatever window. */
  ghost predicate TokenTakenMeanwhile(before: CommandPhases.Commands, after: CommandPhases.Commands,
                                      slot: CommandPhases.TokenSlot)
  {
    exists id :: id !in before.ledger && CommandPhases.TokenMatches(after, id, slot.scope, slot.token)
  }

  lemma HeldMeansTakenMeanwhile(before: CommandPhases.Commands, c: CommandPhases.Commands, id: string,
                                slot: CommandPhases.TokenSlot, other: string)
    requires RowsKept(before, c) && Allocated(before, id, slot) && id !in c.ledger
    requires CommandPhases.TokenMatches(c, other, slot.scope, slot.token)
    ensures TokenTakenMeanwhile(before, c, slot)
  {
    AllocatedTokenIsUnheld(before, id, slot);
    assert other in before.ledger ==> CommandPhases.TokenMatches(before, other, slot.scope, slot.token);
  }

  /** One operation whose token, if any, was allocated at an earlier ledger keeps tokens unique exactly if
      the token was not taken since. */
  lemma OpKeepsTokensUniqueIff(before: CommandPhases.Commands, s: Store, op: Op, cfg: Config)
    requires RowsKept(before, s.tables.commands)
    requires Carried(op).Some? ==> Allocated(before, Carried(op).value.body.id, SlotOf(Carried(op).value))
    ensures TokensUnique(Perform(s, op, cfg).tables.commands) <==>
              && TokensUnique(s.tables.commands)
              && !(Takes(s, op, cfg) && TokenTakenMeanwhile(before, s.tables.commands, SlotOf(Carried(op).value)))
  {
    var c, n := s.tables.commands, Perform(s, op, cfg).tables.commands;
    forall id, scope, token
      ensures CommandPhases.TokenMatches(c, id, scope, token) ==> CommandPhases.TokenMatches(n, id, scope, token) {
      OpTokens(s, op, cfg, id, scope, token);
    }
    if Takes(s, op, cfg) {
      TakenKeepsTokensUniqueIff(before, s, op, cfg);
    } else {
      forall id, scope, token
        ensures CommandPhases.TokenMatches(n, id, scope, token) ==> CommandPhases.TokenMatches(c, id, scope, token) {
        OpTokens(s, op, cfg, id, scope, token);
      }
    }
  }

  lemma TakenKeepsTokensUniqueIff(before: CommandPhases.Commands, s: Store, op: Op, cfg: Config)
    requires RowsKept(before, s.tables.commands) && Takes(s, op, cfg)
    requires Allocated(before, Carried(op).value.body.id, SlotOf(Carried(op).value))
    ensures TokensUnique(Perform(s, op, cfg).tables.commands) <==>
              && TokensUnique(s.tables.commands)
              && !TokenTakenMeanwhile(before, s.tables.commands, SlotOf(Carried(op).value))
  {
    var c, n := s.tables.commands, Perform(s, op, cfg).tables.commands;
    var e := Carried(op).value;
    var slot := SlotOf(e);
    forall id, scope, token
      ensures CommandPhases.TokenMatches(n, id, scope, token) <==>
                || CommandPhases.TokenMatches(c, id, scope, token)
                || (id == e.body.id && slot.scope == scope && slot.token == token) {
      OpTokens(s, op, cfg, id, scope, token);
    }
    if other :| CommandPhases.TokenMatches(c, other, slot.scope, slot.token) {
      HeldMeansTakenMeanwhile(before, c, e.body.id, slot, other);
      assert CommandPhases.TokenMatches(n, other, slot.scope, slot.token);
      assert CommandPhases.TokenMatches(n, e.body.id, slot.scope, slot.token);
    } else {
      forall a, b, scope, token
        | CommandPhases.TokenMatches(n, a, scope, token) && CommandPhases.TokenMatches(n, b, scope, token)
        ensures TokensUnique(c) ==> a == b {
      }
    }
  }

  // ---------------------------------------------------------------------------------------------
  // Runs in which allocating and issuing are two calls

  /** The commands after the first `k` operations. */
  ghost function At(ops: seq<Op>, cfg: Config, k: nat): CommandPhases.Commands
    requires k <= |ops|
  {
    PerformAll(NO_STORE, ops[..k], cfg).tables.commands
  }

  lemma {:induction false} PerformOneMore(s: Store, ops: seq<Op>, op: Op, cfg: Config)
    ensures PerformAll(s, ops + [op], cfg) == Perform(PerformAll(s, ops, cfg), op, cfg)
    decreases |ops|
  {
    if ops == [] {
      assert ops + [op] == [op] && [op][1..] == [];
    } else {
      PerformOneMore(Perform(s, ops[0], cfg), ops[1..], op, cfg);
      assert (ops + [op])[0] == ops[0] && (ops + [op])[1..] == ops[1..] + [op];
    }
  }

  lemma NextStore(ops: seq<Op>, cfg: Config, k: nat)
    requires k < |ops|
    ensures PerformAll(NO_STORE, ops[..k + 1], cfg) == Perform(PerformAll(NO_STORE, ops[..k], cfg), ops[k], cfg)
  {
    assert ops[..k + 1] == ops[..k] + [ops[k]];
    PerformOneMore(NO_STORE, ops[..k], ops[k], cfg);
  }

  lemma {:induction false} RowsKeptSince(ops: seq<Op>, cfg: Config, j: nat, k: nat)
    requires j <= k <= |ops|
    ensures RowsKept(At(ops, cfg, j), At(ops, cfg, k))
  {
    if j == k {
    } else {
      RowsKeptSince(ops, cfg, j, k - 1);
      NextStore(ops, cfg, k - 1);
      OpKeepsRows(PerformAll(NO_STORE, ops[..k - 1], cfg), ops[k - 1], cfg);
    }
  }

  /** The token that operation `k` brings was allocated after the first `asked[k]` operations, not later than
      the operation itself; in between anybody may issue commands. */
  ghost predicate AllocatedEarlier(ops: seq<Op>, asked: seq<nat>, cfg: Config)
  {
    && |asked| == |ops|
    && forall k :: 0 <= k < |ops| && Carried(ops[k]).Some? ==>
         && asked[k] <= k
         && Allocated(At(ops, cfg, asked[k]), Carried(ops[k]).value.body.id, SlotOf(Carried(ops[k]).value))
  }

  /** Operation `k` takes its command although another one got the same token of the same target between
      the allocation and the issue. */
  ghost predicate Overtaken(ops: seq<Op>, asked: seq<nat>, cfg: Config, k: nat)
    requires |asked| == |ops| && k < |ops|
  {
    && Takes(PerformAll(NO_STORE, ops[..k], cfg), ops[k], cfg) && asked[k] <= k
    && TokenTakenMeanwhile(At(ops, cfg, asked[k]), At(ops, cfg, k), SlotOf(Carried(ops[k]).value))
  }

  lemma NextTokensUnique(ops: seq<Op>, asked: seq<nat>, cfg: Config, k: nat)
    requires AllocatedEarlier(ops, asked, cfg) && k < |ops|
    ensures TokensUnique(At(ops, cfg, k + 1)) <==> TokensUnique(At(ops, cfg, k)) && !Overtaken(ops, asked, cfg, k)
  {
    var since := if Carried(ops[k]).Some? then asked[k] else k;
    NextStore(ops, cfg, k);
    RowsKeptSince(ops, cfg, since, k);
    OpKeepsTokensUniqueIff(At(ops, cfg, since), PerformAll(NO_STORE, ops[..k], cfg), ops[k], cfg);
  }

  lemma NoTokensAtFirst(ops: seq<Op>, cfg: Config)
    ensures TokensUnique(At(ops, cfg, 0))
  {
    assert ops[..0] == [];
  }

  /** What holds at first and is lost exactly at the bad steps holds in the end exactly if there was none. */
  lemma {:induction false} KeptIffNoBadStep(kept: nat -> bool, bad: nat -> bool, n: nat)
    requires kept(0) && forall k: nat :: k < n ==> (kept(k + 1) <==> kept(k) && !bad(k))
    ensures kept(n) <==> forall k: nat :: k < n ==> !bad(k)
  {
    if n == 0 {
    } else {
      KeptIffNoBadStep(kept, bad, n - 1);
      assert kept(n - 1 + 1) <==> kept(n - 1) && !bad(n - 1);
    }
  }

  lemma TokensUniqueIffNoneOvertaken(ops: seq<Op>, asked: seq<nat>, cfg: Config)
    requires AllocatedEarlier(ops, asked, cfg)
    ensures TokensUnique(At(ops, cfg, |ops|)) <==> forall k :: 0 <= k < |ops| ==> !Overtaken(ops, asked, cfg, k)
  {
    var kept := (k: nat) => k <= |ops| && TokensUnique(At(ops, cfg, k));
    var bad := (k: nat) => k < |ops| && Overtaken(ops, asked, cfg, k);
    NoTokensAtFirst(ops, cfg);
    forall k: nat | k < |ops| ensures kept(k + 1) <==> kept(k) && !bad(k) {
      NextTokensUnique(ops, asked, cfg, k);
    }
    KeptIffNoBadStep(kept, bad, |ops|);
    assert forall k: nat :: k < |ops| ==> (bad(k) <==> Overtaken(ops, asked, cfg, k));
  }

  lemma {:induction false} NoCommandWithoutId(s: Store, ops: seq<Op>, cfg: Config)
    requires "" !in s.tables.commands.ledger
    ensures "" !in PerformAll(s, ops, cfg).tables.commands.ledger
    decreases |ops|
  {
    if ops == [] {
    } else {
      NoCommandWithoutId(Perform(s, ops[0], cfg), ops[1..], cfg);
    }
  }

  /** In every run in which all tokens come from the allocator, a result that names a target's token can be
      taken for one command only if and only if no command was overtaken: allocated a token, and issued after
      another command had got the same one, in whatever window. */
  lemma AllocatedTokensTellTheirCommandIff(ops: seq<Op>, asked: seq<nat>, cfg: Config)
    requires AllocatedEarlier(ops, asked, cfg)
    ensures (forall scope, token :: OneAnswer(PerformAll(NO_STORE, ops, cfg).tables.commands, scope, token)) <==>
            (forall k :: 0 <= k < |ops| ==> !Overtaken(ops, asked, cfg, k))
  {
    assert ops[..|ops|] == ops;
    NoCommandWithoutId(NO_STORE, ops, cfg);
    TokensUniqueIffNoneOvertaken(ops, asked, cfg);
    TokensUniqueIffOneAnswer(PerformAll(NO_STORE, ops, cfg).tables.commands);
  }

  /** In particular if every command is issued right after its allocation, with nothing in between. */
  lemma AllocatedTokensTellTheirCommand(ops: seq<Op>, cfg: Config, scope: string, token: int)
    requires AllocatedEarlier(ops, seq(|ops|, k => k), cfg)
    ensures OneAnswer(PerformAll(NO_STORE, ops, cfg).tables.commands, scope, token)
  {
    AllocatedTokensTellTheirCommandIff(ops, seq(|ops|, k => k), cfg);
  }

  // ---------------------------------------------------------------------------------------------
  // Two clients

  function CommandEnvelope(id: string, slot: CommandPhases.TokenSlot, req: Request): Envelope
  {
    Envelope(id, "site", true, req, Body.Command(id, Some(slot)))
  }

  /** Two commands for one target with one token, in two windows. */
  datatype Pair = Pair(a: string, b: string, scope: string, u: string, v: string, token: int, req: Request)

  predicate Proper(p: Pair) { p.a != "" && p.b != "" && p.a != p.b && p.u != p.v && p.scope != "" }

  function First(p: Pair): Envelope { CommandEnvelope(p.a, CommandPhases.TokenSlot(p.scope, p.u, p.token), p.req) }

  function Second(p: Pair): Envelope { CommandEnvelope(p.b, CommandPhases.TokenSlot(p.scope, p.v, p.token), p.req) }

  /** Both are issued, one after the other. */
  function TwoIssues(p: Pair, planning: Planning, now: Now): seq<Op>
  {
    [IssueOp(First(p), "", planning, Outbox.Control, now), IssueOp(Second(p), "", planning, Outbox.Control, now)]
  }

  ghost function AfterBoth(p: Pair, planning: Planning, now: Now, cfg: Config): Tables
  {
    PerformAll(NO_STORE, TwoIssues(p, planning, now), cfg).tables
  }

  lemma TwoSteps(p: Pair, planning: Planning, now: Now, cfg: Config)
    ensures var ops := TwoIssues(p, planning, now);
            var first := Perform(NO_STORE, ops[0], cfg);
            && PerformAll(NO_STORE, ops[..0], cfg) == NO_STORE && PerformAll(NO_STORE, ops[..1], cfg) == first
            && PerformAll(NO_STORE, ops, cfg) == Perform(first, ops[1], cfg)
  {
    var ops := TwoIssues(p, planning, now);
    NextStore(ops, cfg, 0);
    NextStore(ops, cfg, 1);
    assert ops[..2] == ops;
  }

  lemma BothAreIssued(p: Pair, planning: Planning, now: Now, cfg: Config)
    requires Proper(p) && Ready(planning)
    ensures var t := AfterBoth(p, planning, now, cfg);
            && t.commands.ledger == map[p.a := IssuedRow(First(p)), p.b := IssuedRow(Second(p))]
            && t.messages == [First(p)] + [Second(p)]
  {
    var ops := TwoIssues(p, planning, now);
    TwoSteps(p, planning, now, cfg);
    NewCommandIsIssued(NO_STORE, First(p), "", planning, Outbox.Control, now);
    var first := Perform(NO_STORE, ops[0], cfg);
    assert first.tables.messages == [First(p)];
    assert !SlotUsed(first.tables.commands, Second(p).body.slot);
    NewCommandIsIssued(first, Second(p), "", planning, Outbox.Control, now);
  }

  const NOBODY: int -> string := token => ""

  /** While no command is in the ledger, the allocator returns the first token it probes. */
  lemma FirstProbeIsAllocated(hash: nat, id: string, slot: CommandPhases.TokenSlot)
    requires slot.token == CommandTokens.StartToken(hash)
    ensures Resolves(NO_TABLES.commands, slot.scope, NOBODY)
    ensures CommandTokens.IsAllocation(hash, id, NOBODY, slot.token) && Allocated(NO_TABLES.commands, id, slot)
  {
    AllocationIsAllocated(NO_TABLES.commands, hash, id, slot, NOBODY);
  }

  /** Two clients whose command ids share the low 16 bits of their hash allocate before either issues: the
      allocator gives both the same token, the unique index lets both through, and the query for the token
      has two answers. */
  lemma TwoClientsShareToken(p: Pair, planning: Planning, now: Now, cfg: Config, hash: string -> nat)
    requires Proper(p) && Ready(planning)
    requires p.token == CommandTokens.StartToken(hash(p.a)) == CommandTokens.StartToken(hash(p.b))
    ensures Resolves(NO_TABLES.commands, p.scope, NOBODY)
    ensures CommandTokens.IsAllocation(hash(p.a), p.a, NOBODY, p.token)
    ensures CommandTokens.IsAllocation(hash(p.b), p.b, NOBODY, p.token)
    ensures AllocatedEarlier(TwoIssues(p, planning, now), [0, 0], cfg)
    ensures Overtaken(TwoIssues(p, planning, now), [0, 0], cfg, 1)
    ensures var c := AfterBoth(p, planning, now, cfg).commands;
            && CommandPhases.SlotsUnique(c)
            && CommandPhases.IsAnswer(c, p.scope, p.token, p.a) && CommandPhases.IsAnswer(c, p.scope, p.token, p.b)
  {
    var ops := TwoIssues(p, planning, now);
    TwoSteps(p, planning, now, cfg);
    BothAreIssued(p, planning, now, cfg);
    FirstProbeIsAllocated(hash(p.a), p.a, SlotOf(First(p)));
    FirstProbeIsAllocated(hash(p.b), p.b, SlotOf(Second(p)));
    NewCommandIsIssued(NO_STORE, First(p), "", planning, Outbox.Control, now);
    assert CommandPhases.TokenMatches(At(ops, cfg, 1), p.a, p.scope, p.token);
  }

  /** A result that names a token only. */
  function TokenResult(message: string, scope: string, token: int, req: Request): Envelope
  {
    Envelope(message, scope, true, req, Body.CommandResult("", Some(token), Some(CommandPhases.Accepted)))
  }

  /** Whatever command the token query answers with is the one that moves, and no other. */
  lemma AnswerMoves(t: Tables, message: string, scope: string, token: int, req: Request, now: Now, found: string)
    requires message != "" && scope != "" && !Persisted(t.messages, message)
    requires found != "" && found in t.commands.ledger && t.commands.ledger[found].phase.Issued?
    ensures var r := Ingested(t, TokenResult(message, scope, token, req), now, found);
            && r.outcome == Acked(Ack(message, false))
            && r.tables.commands.ledger ==
                 t.commands.ledger[found := t.commands.ledger[found].(phase := CommandPhases.Accepted)]
  {
  }

  /** After both were issued, a result that names only the token is taken for either command, whichever the
      query happens to answer: the one it is not about moves, the one it is about does not. */
  lemma ResultMovesTheWrongCommand(p: Pair, planning: Planning, now: Now, cfg: Config, message: string)
    requires Proper(p) && Ready(planning) && message != "" && message != p.a && message != p.b
    ensures var t := AfterBoth(p, planning, now, cfg);
            var result := TokenResult(message, p.scope, p.token, p.req);
            var asA, asB := Ingested(t, result, now, p.a), Ingested(t, result, now, p.b);
            var a, b := IssuedRow(First(p)), IssuedRow(Second(p));
            && IsTokenAnswer(t, result, p.a) && IsTokenAnswer(t, result, p.b)
            && asA.outcome == asB.outcome == Acked(Ack(message, false))
            && asA.tables.commands.ledger == map[p.a := a.(phase := CommandPhases.Accepted), p.b := b]
            && asB.tables.commands.ledger == map[p.a := a, p.b := b.(phase := CommandPhases.Accepted)]
  {
    BothAreIssued(p, planning, now, cfg);
    AnswerMoves(AfterBoth(p, planning, now, cfg), message, p.scope, p.token, p.req, now, p.a);
    AnswerMoves(AfterBoth(p, planning, now, cfg), message, p.scope, p.token, p.req, now, p.b);
  }
}
