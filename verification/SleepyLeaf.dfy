/**
 The sleepy leaf: compact commands are applied once and answered once per token as long as the token
 ring remembers it, also across deep sleep, through a copy of the state in RTC memory.
 One task handles downlinks. The checksum is a function; radio errors do not change the state.
 */
module SleepyLeaf {
  import opened Bytes
  import opened TokenRing

  const RTC_MAGIC := 0x534C5059
  const MAX_CYCLES: byte := 3

  datatype Kind =
    | MaintenanceOn | MaintenanceOff | ThresholdSet | QuietSet | AlarmClear | SamplingSet | OtherKind(code: byte)

  datatype Command = Command(token: u16, kind: Kind, argument: byte, expiresInSec: byte)

  datatype Phase = Succeeded | Rejected | Expired

  datatype Reason = Ok | Stale | BadCommand | Unsupported

  /** The fields that survive deep sleep. */
  datatype Image = Image(sequence: byte, cycles: byte, cursor: byte, shortId: u16, tokens: seq<u16>)

  datatype Rtc = Rtc(magic: int, version: int, image: Image, checksum: int)

  /** What the leaf did, in order. `at` tells which recording of its token an act belongs to. */
  datatype Act =
    | Effect(token: u16, kind: Kind, argument: byte, at: nat)
    | Terminal(token: u16, phase: Phase, reason: Reason, at: nat)

  /** Acts belong to recordings of their tokens, and no recording has two effects or two results. */
  predicate ActsOk(acts: seq<Act>, recorded: seq<u16>)
  {
    && (forall i :: 0 <= i < |acts| ==> acts[i].at < |recorded| && recorded[acts[i].at] == acts[i].token)
    && (forall i, j :: 0 <= i < j < |acts| && (acts[i].Effect? <==> acts[j].Effect?) ==> acts[i].at < acts[j].at)
  }

  lemma LaterActLaterRecording(acts: seq<Act>, recorded: seq<u16>, i: nat, j: nat)
    requires ActsOk(acts, recorded)
    requires i < j < |acts| && acts[i].token == acts[j].token && (acts[i].Effect? <==> acts[j].Effect?)
    ensures acts[i].at < acts[j].at < |recorded|
    ensures recorded[acts[i].at] == recorded[acts[j].at] == acts[j].token
  {
  }

  /** How many other tokens lie between two recordings. */
  function OthersBetween(recorded: seq<u16>, a: nat, b: nat): nat
    requires a < b < |recorded|
  {
    |TokensIn(recorded, a + 1, b) - {recorded[b]}|
  }

  lemma OthersAreMany(recorded: seq<u16>, n: nat, a: nat, b: nat)
    requires Separated(recorded, n) && a < b < |recorded| && recorded[a] == recorded[b]
    ensures OthersBetween(recorded, a, b) >= n
  {
    ManyBetweenRepeats(recorded, n, a, b);
  }

  /** Between two effects, or two results, for one token the leaf recorded at least `n` other tokens. */
  lemma RepeatsAreFarApart(acts: seq<Act>, recorded: seq<u16>, n: nat, i: nat, j: nat)
    requires ActsOk(acts, recorded) && Separated(recorded, n)
    requires i < j < |acts| && acts[i].token == acts[j].token && (acts[i].Effect? <==> acts[j].Effect?)
    ensures acts[i].at < acts[j].at < |recorded| && recorded[acts[j].at] == acts[j].token
    ensures OthersBetween(recorded, acts[i].at, acts[j].at) >= n
  {
    LaterActLaterRecording(acts, recorded, i, j);
    OthersAreMany(recorded, n, acts[i].at, acts[j].at);
  }

  /** What commands set. */
  datatype Settings = Settings(threshold: byte, quiet: byte, sampling: byte, alarmClear: bool, cycles: byte)

  function SettingsAfter(s: Settings, kind: Kind, argument: byte): Settings
  {
    match kind
    case MaintenanceOn => s.(cycles := MAX_CYCLES)
    case MaintenanceOff => s.(cycles := 0)
    case ThresholdSet => s.(threshold := argument)
    case QuietSet => s.(quiet := argument)
    case AlarmClear => s.(alarmClear := true)
    case SamplingSet => s.(sampling := argument)
    case OtherKind(_) => s
  }

  /** The setting a command asks for is the current one: applying it again would change nothing. */
  predicate InEffect(s: Settings, kind: Kind, argument: byte) { SettingsAfter(s, kind, argument) == s }

  /** What deep sleep leaves of the settings: the maintenance cycles. */
  function Slept(s: Settings): Settings { Settings(0, 0, 0, false, s.cycles) }

  predicate SurvivesSleep(kind: Kind, argument: byte)
  {
    || kind.MaintenanceOn? || kind.MaintenanceOff?
    || ((kind.ThresholdSet? || kind.QuietSet? || kind.SamplingSet?) && argument == 0)
  }

  /** Of the settings in effect exactly those for maintenance, and those back at zero, outlast deep sleep. */
  lemma SettingOutlastsSleepIff(s: Settings, kind: Kind, argument: byte)
    requires !kind.OtherKind? && InEffect(s, kind, argument)
    ensures InEffect(Slept(s), kind, argument) <==> SurvivesSleep(kind, argument)
  {
  }

  lemma AppliedIsInEffect(s: Settings, kind: Kind, argument: byte)
    ensures InEffect(SettingsAfter(s, kind, argument), kind, argument)
  {
  }

  /** Each kind sets its own setting and leaves the others alone; maintenance lasts three cycles. */
  lemma EachKindSetsItsOwn(s: Settings, kind: Kind, argument: byte)
    ensures var n := SettingsAfter(s, kind, argument);
            && (n.threshold == if kind == ThresholdSet then argument else s.threshold)
            && (n.quiet == if kind == QuietSet then argument else s.quiet)
            && (n.sampling == if kind == SamplingSet then argument else s.sampling)
            && (n.alarmClear == if kind == AlarmClear then true else s.alarmClear)
            && (n.cycles == if kind == MaintenanceOn then 3 else if kind == MaintenanceOff then 0 else s.cycles)
  {
  }

  predicate CopyValid(rtc: Rtc, slots: nat, checksum: Image -> int)
  {
    rtc.magic == RTC_MAGIC && rtc.version == 2 + slots && rtc.checksum == checksum(rtc.image)
  }

  /** A copy is valid for one number of token slots only, the one it was written for. */
  lemma CopyFitsOneRing(rtc: Rtc, m: nat, n: nat, checksum: Image -> int)
    requires CopyValid(rtc, m, checksum)
    ensures rtc.magic == 0x534C5059 && (CopyValid(rtc, n, checksum) <==> n == m)
  {
  }

  class Leaf {
    const slots: nat
    const persistent: bool
    const checksum: Image -> int
    var awake: bool
    var cycles: byte
    var threshold: byte
    var quiet: byte
    var sampling: byte
    var alarmClear: bool
    var applied: bool
    var lastToken: u16
    var shortId: u16
    var sequence: byte
    const tokens: array<u16>
    var cursor: byte
    var rtc: Rtc

    /** Tokens recorded and acts done since the last start without a valid RTC copy. */
    ghost var recorded: seq<u16>
    ghost var acts: seq<Act>

    function Now(): Image
      reads this, tokens
    {
      Image(sequence, cycles, cursor, shortId, tokens[..])
    }

    function CurrentSettings(): Settings
      reads this
    {
      Settings(threshold, quiet, sampling, alarmClear, cycles)
    }

    predicate RtcValid()
      reads this
    {
      CopyValid(rtc, slots, checksum)
    }

    /** The RTC copy is the state, wherever the lock is released. */
    predicate Saved()
      reads this, tokens
    {
      persistent ==> RtcValid() && rtc.image == Now()
    }

    predicate Shape()
      reads this
    {
      1 <= slots <= 8 && tokens.Length == slots && cursor < slots
    }

    ghost predicate Remembers()
      reads this, tokens
    {
      Holds(tokens[..], cursor, recorded) && Separated(recorded, slots) && ActsOk(acts, recorded)
    }

    ghost predicate Valid()
      reads this, tokens
    {
      Shape() && shortId != 0 && (awake <==> cycles > 0) && cycles <= MAX_CYCLES && Remembers() && Saved()
    }

    /** `sleepy_save_rtc_state_locked` */
    method Save()
      requires Shape()
      modifies this`rtc
      ensures Saved() && (!persistent ==> rtc == old(rtc))
    {
      if persistent {
        var image := Image(sequence, cycles, cursor, shortId, tokens[..]);
        rtc := Rtc(RTC_MAGIC, 2 + slots, image, checksum(image));
      }
    }

    /** `sleepy_take_next_sequence_locked` */
    method TakeSequence() returns (next: byte)
      requires Valid()
      modifies this`sequence, this`rtc
      ensures Valid() && next == old(sequence) && sequence == (next + 1) % 0x100
    {
      next := sequence;
      sequence := (sequence + 1) % 0x100;
      Save();
    }

    /** `sleepy_recent_command_seen_locked`: looks through all slots. */
    method Seen(token: u16) returns (seen: bool)
      requires Valid()
      ensures seen <==> token != 0 && Recent(recorded, slots, token)
    {
      if token == 0 {
        return false;
      }
      SeenIffRecent(tokens[..], cursor, recorded, token);
      for i := 0 to tokens.Length
        invariant token !in tokens[..i]
      {
        if tokens[i] == token {
          assert token in tokens[..];
          return true;
        }
      }
      assert tokens[..] == tokens[..tokens.Length];
      seen := false;
    }

    /** `sleepy_record_recent_command_locked`, within one hold of the lock. */
    method Record(token: u16)
      requires Shape() && Remembers() && token != 0 && !Recent(recorded, slots, token)
      modifies tokens, this`cursor, this`rtc, this`recorded
      ensures Shape() && Remembers() && Saved() && recorded == old(recorded) + [token]
    {
      RecordHolds(tokens[..], cursor, recorded, token);
      SeparatedIffUnseen(recorded, slots, token);
      ghost var ring := tokens[..];
      tokens[cursor] := token;
      assert tokens[..] == ring[cursor := token];
      cursor := (cursor + 1) % slots;
      recorded := recorded + [token];
      Save();
    }

    /** `sleepy_enable_maintenance_locked` and `sleepy_disable_maintenance_locked` */
    method Maintain(on: bool)
      modifies this`awake, this`cycles
      ensures awake == on && cycles == if on then MAX_CYCLES else 0
    {
      awake, cycles := on, if on then MAX_CYCLES else 0;
    }

    /** The switch over the command kind. */
    method TakeEffect(kind: Kind, argument: byte)
      requires !kind.OtherKind?
      modifies this`awake, this`cycles, this`threshold, this`quiet, this`sampling, this`alarmClear
      ensures CurrentSettings() == SettingsAfter(old(CurrentSettings()), kind, argument)
      ensures old(awake <==> cycles > 0) ==> (awake <==> cycles > 0)
    {
      match kind {
        case MaintenanceOn => Maintain(true);
        case MaintenanceOff => Maintain(false);
        case ThresholdSet => threshold := argument;
        case QuietSet => quiet := argument;
        case AlarmClear => alarmClear := true;
        case SamplingSet => sampling := argument;
      }
    }

    /** The effect of a token recorded just now is a new act. */
    lemma EffectIsNew(token: u16, kind: Kind, argument: byte)
      requires ActsOk(acts, recorded)
      ensures ActsOk(acts + [Effect(token, kind, argument, |recorded|)], recorded + [token])
    {
    }

    /** The hold of the lock in which a command takes effect and its token is recorded. */
    method Perform(c: Command)
      requires Valid() && c.token != 0 && !c.kind.OtherKind? && !Recent(recorded, slots, c.token)
      modifies this`awake, this`cycles, this`threshold, this`quiet, this`sampling, this`alarmClear
      modifies tokens, this`applied, this`lastToken, this`cursor, this`rtc, this`recorded, this`acts
      ensures Valid() && recorded == old(recorded) + [c.token] && lastToken == c.token && applied
      ensures acts == old(acts) + [Effect(c.token, c.kind, c.argument, |old(recorded)|)]
      ensures CurrentSettings() == SettingsAfter(old(CurrentSettings()), c.kind, c.argument)
    {
      EffectIsNew(c.token, c.kind, c.argument);
      TakeEffect(c.kind, c.argument);
      applied := true;
      lastToken := c.token;
      Record(c.token);
      acts := acts + [Effect(c.token, c.kind, c.argument, |recorded| - 1)];
    }

    /** The token recorded last has no result yet. */
    ghost predicate Unanswered(token: u16)
      reads this
    {
      recorded != [] && recorded[|recorded| - 1] == token
      && forall i :: 0 <= i < |acts| && acts[i].Terminal? ==> acts[i].at < |recorded| - 1
    }

    /** `sleepy_send_command_result` for a recorded token. */
    method SendResult(token: u16, phase: Phase, reason: Reason)
      requires Valid() && Unanswered(token)
      modifies this`sequence, this`rtc, this`acts
      ensures Valid() && sequence == (old(sequence) + 1) % 0x100
      ensures acts == old(acts) + [Terminal(token, phase, reason, |recorded| - 1)]
    {
      var _ := TakeSequence();
      acts := acts + [Terminal(token, phase, reason, |recorded| - 1)];
    }

    /** `sleepy_send_terminal_command_result_once`: the check and the recording are one hold of the lock. */
    method SendTerminalOnce(token: u16, phase: Phase, reason: Reason)
      requires Valid() && token != 0
      modifies tokens, this`cursor, this`rtc, this`recorded, this`sequence, this`acts
      ensures Valid()
      ensures if Recent(old(recorded), slots, token)
              then recorded == old(recorded) && acts == old(acts) && Now() == old(Now())
              else && recorded == old(recorded) + [token]
                   && acts == old(acts) + [Terminal(token, phase, reason, |old(recorded)|)]
    {
      var seen := Seen(token);
      if seen {
        return;
      }
      Record(token);
      SendResult(token, phase, reason);
    }

    /** `sleepy_apply_compact_command`: a recent token does nothing at all; any other is recorded, takes
        effect at most once, and is answered with one result. */
    method Apply(c: Command)
      requires Valid()
      modifies this, tokens
      ensures Valid()
      ensures c.token == 0 ==> recorded == old(recorded) && acts == old(acts)
      ensures c.token != 0 && Recent(old(recorded), slots, c.token) ==>
                recorded == old(recorded) && acts == old(acts) && Now() == old(Now())
      ensures CurrentSettings() == if c.token != 0 && !Recent(old(recorded), slots, c.token) && c.expiresInSec != 0
                                   then SettingsAfter(old(CurrentSettings()), c.kind, c.argument)
                                   else old(CurrentSettings())
      ensures c.token != 0 && !Recent(old(recorded), slots, c.token) ==>
                recorded == old(recorded) + [c.token]
                && acts == old(acts) +
                     (if c.expiresInSec == 0 then [Terminal(c.token, Expired, Stale, |old(recorded)|)]
                      else if c.kind.OtherKind? then [Terminal(c.token, Rejected, Unsupported, |old(recorded)|)]
                      else [Effect(c.token, c.kind, c.argument, |old(recorded)|),
                            Terminal(c.token, Succeeded, Ok, |old(recorded)|)])
    {
      if c.token == 0 {
        var _ := TakeSequence();
        return;
      }
      var duplicate := Seen(c.token);
      if duplicate {
        return;
      }
      if c.expiresInSec == 0 {
        SendTerminalOnce(c.token, Expired, Stale);
      } else if c.kind.OtherKind? {
        SendTerminalOnce(c.token, Rejected, Unsupported);
      } else {
        Perform(c);
        SendResult(c.token, Succeeded, Ok);
      }
    }

    /** `sleepy_policy_set_maintenance_awake` */
    method SetMaintenance(on: bool)
      requires Valid()
      modifies this`awake, this`cycles, this`rtc
      ensures Valid() && awake == on && cycles == if on then MAX_CYCLES else 0
    {
      Maintain(on);
      Save();
    }

    /** `sleepy_policy_set_short_id`: zero is refused. */
    method SetShortId(id: u16) returns (ok: bool)
      requires Valid()
      modifies this`shortId, this`rtc
      ensures Valid() && ok == (id != 0) && shortId == if ok then id else old(shortId)
    {
      if id == 0 {
        return false;
      }
      shortId := id;
      Save();
      ok := true;
    }

    /** `sleepy_finish_cycle_locked` */
    method FinishCycle()
      requires Valid()
      modifies this`awake, this`cycles, this`rtc
      ensures Valid() && cycles == (if old(cycles) > 0 then old(cycles) - 1 else 0) && awake == (old(cycles) > 1)
    {
      if awake {
        if cycles > 0 {
          cycles := cycles - 1;
        }
        if cycles == 0 {
          awake := false;
        }
      }
      Save();
    }

    /** `sleepy_restore_rtc_state_locked` */
    method Restore()
      requires Shape() && shortId != 0 && (persistent && RtcValid() ==> |rtc.image.tokens| == slots)
      modifies this`shortId, this`sequence, this`cycles, this`awake, this`cursor, this`rtc, tokens
      ensures Shape() && shortId != 0
      ensures persistent && old(RtcValid()) ==>
                rtc == old(rtc) && shortId == (if rtc.image.shortId != 0 then rtc.image.shortId else old(shortId))
                && sequence == rtc.image.sequence && cycles == rtc.image.cycles && awake == (cycles > 0)
                && cursor == rtc.image.cursor % slots && tokens[..] == rtc.image.tokens
      ensures persistent && !old(RtcValid()) ==> Saved()
      ensures !(persistent && old(RtcValid())) ==>
                shortId == old(shortId) && sequence == old(sequence) && cycles == old(cycles) && awake == old(awake)
                && cursor == old(cursor) && tokens[..] == old(tokens[..])
    {
      if !persistent {
        return;
      }
      if !RtcValid() {
        Save();
        return;
      }
      if rtc.image.shortId != 0 {
        shortId := rtc.image.shortId;
      }
      sequence, cycles := rtc.image.sequence, rtc.image.cycles;
      awake := cycles > 0;
      cursor := rtc.image.cursor % slots;
      forall i | 0 <= i < slots {
        tokens[i] := rtc.image.tokens[i];
      }
    }

    method ClearTokens()
      requires tokens.Length == slots
      modifies tokens
      ensures tokens[..] == seq(slots, _ => 0)
    {
      forall i | 0 <= i < slots {
        tokens[i] := 0;
      }
    }

    /** Static initialisation of the RAM copy, and the default identity, which is never zero. */
    method Initialise(identity: u16)
      requires tokens.Length == slots
      modifies this, tokens
      ensures rtc == old(rtc) && recorded == old(recorded) && acts == old(acts)
      ensures shortId == identity && !awake && cycles == 0 && cursor == 0 && tokens[..] == seq(slots, _ => 0)
      ensures threshold == quiet == sampling == 0 && !alarmClear && !applied
    {
      ClearTokens();
      awake, cycles, threshold, quiet, sampling := false, 0, 0, 0, 0;
      alarmClear, applied, lastToken, shortId, sequence, cursor := false, false, 0, identity, 0, 0;
    }

    /** Waking from deep sleep at any point where the lock was free: with RTC persistence the state and the
        memory of handled tokens are as before, but what commands had set is forgotten, save the maintenance
        cycles; without it, everything is. */
    method Wake(identity: u16)
      requires Valid() && identity != 0
      modifies this, tokens
      ensures Valid()
      ensures persistent ==>
                Now() == old(Now()) && awake == old(awake) && recorded == old(recorded) && acts == old(acts)
      ensures persistent ==> CurrentSettings() == Slept(old(CurrentSettings()))
      ensures persistent ==> (CurrentSettings() == old(CurrentSettings()) <==>
                                old(threshold == 0 && quiet == 0 && sampling == 0 && !alarmClear))
      ensures !persistent ==> recorded == [] && acts == [] && CurrentSettings() == Settings(0, 0, 0, false, 0)
    {
      SmallRemainder(cursor, slots);
      EmptyHolds(slots);
      Initialise(identity);
      if !persistent {
        recorded, acts := [], [];
      }
      Restore();
    }

    /** Power on, with anything in the RTC memory. What is no valid copy is ignored and replaced; a valid one,
        whether left over or there by chance, is taken over field by field. */
    constructor (slots: nat, persistent: bool, checksum: Image -> int, garbage: Rtc, identity: u16)
      requires 1 <= slots <= 8 && identity != 0 && |garbage.image.tokens| == slots
      ensures this.slots == slots && this.persistent == persistent && this.checksum == checksum && fresh(tokens)
      ensures Shape() && shortId != 0 && (awake <==> cycles > 0)
      ensures !(persistent && CopyValid(garbage, slots, checksum)) ==>
                Valid() && recorded == [] && acts == [] && CurrentSettings() == Settings(0, 0, 0, false, 0)
      ensures persistent && CopyValid(garbage, slots, checksum) ==>
                var image := garbage.image;
                rtc == garbage && Now() == image.(cursor := image.cursor % slots,
                                                  shortId := if image.shortId != 0 then image.shortId else identity)
    {
      this.slots, this.persistent, this.checksum := slots, persistent, checksum;
      tokens := new u16[slots];
      rtc := garbage;
      recorded, acts := [], [];
      new;
      EmptyHolds(slots);
      Initialise(identity);
      Restore();
    }
  }

  /** What a command set is lost in deep sleep unless it is a setting that outlasts it, and the command is not
      applied again: its token is remembered. */
  method SettingIsLostInSleep(leaf: Leaf, c: Command, identity: u16)
    requires leaf.Valid() && leaf.persistent && identity != 0
    requires c.token != 0 && !c.kind.OtherKind? && c.expiresInSec != 0 && !Recent(leaf.recorded, leaf.slots, c.token)
    modifies leaf, leaf.tokens
    ensures leaf.Valid()
    ensures InEffect(leaf.CurrentSettings(), c.kind, c.argument) <==> SurvivesSleep(c.kind, c.argument)
    ensures leaf.acts == old(leaf.acts) + [Effect(c.token, c.kind, c.argument, |old(leaf.recorded)|),
                                           Terminal(c.token, Succeeded, Ok, |old(leaf.recorded)|)]
  {
    AppliedIsInEffect(leaf.CurrentSettings(), c.kind, c.argument);
    leaf.Apply(c);
    SettingOutlastsSleepIff(leaf.CurrentSettings(), c.kind, c.argument);
    leaf.Wake(identity);
    assert leaf.recorded[|leaf.recorded| - 1] == c.token;
    leaf.Apply(c);
  }

  /** A setting that was in effect before deep sleep is in effect after the command was sent again exactly if
      it outlasts the sleep or the command's token has left the ring. */
  method ResendAfterSleep(leaf: Leaf, c: Command, identity: u16)
    requires leaf.Valid() && leaf.persistent && identity != 0
    requires c.token != 0 && !c.kind.OtherKind? && c.expiresInSec != 0
    requires InEffect(leaf.CurrentSettings(), c.kind, c.argument)
    modifies leaf, leaf.tokens
    ensures leaf.Valid()
    ensures InEffect(leaf.CurrentSettings(), c.kind, c.argument) <==>
              SurvivesSleep(c.kind, c.argument) || !Recent(old(leaf.recorded), leaf.slots, c.token)
  {
    SettingOutlastsSleepIff(leaf.CurrentSettings(), c.kind, c.argument);
    AppliedIsInEffect(Slept(leaf.CurrentSettings()), c.kind, c.argument);
    leaf.Wake(identity);
    leaf.Apply(c);
  }
}
