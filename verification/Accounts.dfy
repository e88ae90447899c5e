/**
  What one pass over a recording does (`replay_once` in src/main.rs), as values: the state that
  one record hands on to the next, what each record changes for the rest of the program, and what
  holds of every pass.
 */
module Accounts {
  import opened Prelude
  import opened Messages
  import opened Cdr
  import opened Stamps
  import opened FrameGraph
  import opened Auditing
  import opened TfFiltering
  import opened Loopback
  import opened Lockstepping
  import opened Pacing
  import Source

  const TF_MESSAGE := "tf2_msgs.TFMessage"

  /** A replayed stream: what it carries, and the exact name it publishes under. */
  datatype StreamInfo = StreamInfo(msgName: string, unsupported: bool, support: Support, channel: string)

  type Record = Source.Record

  type Message = (nat, seq<byte>)

  datatype Outcome = Published | Skipped | Emptied | Ended

  /** What became of a record; Err when it stopped the replay. */
  type Fate = Result<Outcome>

  datatype Tally = Tally(published: nat, skipped: nat, restamped: nat)

  /** What one record hands on to the next: the pinned clocks and the gate that is out. */
  datatype State = State(setting: Setting, outstanding: Option<Outstanding>)

  /**
    One record: what became of it, the looks at the clock from `from` until before `to` it took,
    whether it waited for a gate in vain, and what it handed on.
   */
  datatype Turn = Turn(record: Record, fate: Fate, from: nat, to: nat, timedOut: bool, after: State)

  /** A pass: the look it began at, the state it began in, and every record pulled. */
  datatype Account = Account(began: nat, start: State, turns: seq<Turn>)

  /** What the passes of a replay leave with the transport, the audit, the recorder, the gate and the filter. */
  datatype Observed = Observed(out: seq<Message>, edges: seq<Edge>, samples: seq<seq<Sample>>, notes: seq<Key>,
                               gates: nat, timeouts: nat, emptied: nat)

  /** `--lockstep`: the gate's stream, and what the topic that answers it shows at each look. */
  datatype Gating = Gating(stream: nat, timeout: real, count: nat -> nat, latest: nat -> real)

  function Final(a: Account): State {
    if a.turns == [] then a.start else a.turns[|a.turns| - 1].after
  }

  /** The look the last record ended before. */
  function Until(a: Account): nat {
    if a.turns == [] then a.began else a.turns[|a.turns| - 1].to
  }

  /** The last record, if any, does not end the pass. */
  predicate Goes(turns: seq<Turn>) {
    turns != [] ==> turns[|turns| - 1].fate != Err && turns[|turns| - 1].fate != Ok(Ended)
  }

  predicate WasReleased(t: Turn) { t.fate != Ok(Skipped) && t.fate != Ok(Ended) }

  predicate Settled(s: Setting) { s.anchor.Some? && s.base.Some? && s.rate > 0.0 }

  /** What a replay was asked to do, the codecs it goes through, and how time, gate and transport behave. */
  datatype Config = Config(args: Args, streams: seq<StreamInfo>, lcm: LcmCodec,
                           toWire: (nat, seq<byte>) -> Option<seq<byte>>, rules: Option<seq<Rule>>, recording: bool,
                           at: nat -> real, gate: Option<Gating>, accepts: nat -> bool)
  {
    // ---------------------------------------------------------- one record's payload

    predicate Supported(record: Record)
      requires record.stream < |streams|
    {
      !streams[record.stream].unsupported
    }

    predicate Gated(record: Record) { gate.Some? && gate.value.stream == record.stream }

    /** What `--drop-tf` leaves of a payload; None when nothing is left to publish. */
    ghost function Sifted(stream: nat, wire: seq<byte>): Result<Option<seq<byte>>>
      requires stream < |streams| && lcm.Lawful()
    {
      if streams[stream].msgName != TF_MESSAGE || rules.None? then Ok(Some(wire))
      else
        var decoded := lcm.decode(Tf2TFMessage, wire);
        if decoded.None? then Err
        else
          var kept := Kept(rules.value, decoded.value.tfMessage.transforms);
          Ok(if kept == [] then None else Some(lcm.encode(MTFMessage(TFMessage(kept)))))
    }

    /** The payload a record shows the audit: its wire form, filtered and not yet restamped. */
    ghost function Shown(record: Record): Result<Option<seq<byte>>>
      requires record.stream < |streams| && lcm.Lawful()
    {
      var stored := toWire(record.stream, record.data);
      if stored.None? then Err else Sifted(record.stream, stored.value)
    }

    /** The bytes a record goes out as under `mapping`, and whether a stamp had to be substituted. */
    ghost function Outgoing(record: Record, mapping: Retimer): Result<Option<(seq<byte>, bool)>>
      requires record.stream < |streams| && mapping.Valid() && lcm.Lawful()
    {
      match Shown(record)
      case Err => Err
      case Ok(None) => Ok(None)
      case Ok(Some(wire)) =>
        match Retimed(mapping, lcm, streams[record.stream].support, wire, SecondsToNanos(record.ts))
        case Err => Err
        case Ok(sent) => Ok(Some(sent))
    }

    /** What a record comes to before it is sent: nothing at all when the rules leave nothing of it. */
    ghost function PreparedAs(record: Record, mapping: Retimer): Result<Option<seq<byte>>>
      requires record.stream < |streams| && mapping.Valid() && lcm.Lawful()
    {
      match Outgoing(record, mapping)
      case Err => Err
      case Ok(None) => Ok(None)
      case Ok(Some((data, _))) => Ok(Some(data))
    }

    /** A substituted stamp is counted. */
    ghost function RestampedAs(tally: Tally, record: Record, mapping: Retimer): Tally
      requires record.stream < |streams| && mapping.Valid() && lcm.Lawful()
    {
      match Outgoing(record, mapping)
      case Ok(Some((_, true))) => tally.(restamped := tally.restamped + 1)
      case _ => tally
    }

    /** The key a published payload will be recognised by when it loops back. */
    function KeyOf(stream: nat, data: seq<byte>): Key
      requires stream < |streams|
    {
      var stamp := StampOf(lcm, streams[stream].support, data);
      (streams[stream].channel, if stamp.Some? then stamp.value else 0)
    }

    // ---------------------------------------------------------- one record's turn

    /** The first record with a wire form pins the clocks, whatever becomes of it. */
    predicate Pins(setting: Setting, record: Record)
      requires record.stream < |streams|
    {
      Supported(record) && setting.anchor.None?
    }

    ghost function Begun(setting: Setting, record: Record, look: nat): Setting
      requires record.stream < |streams|
    {
      if Pins(setting, record) then FirstPin(args, setting, record.ts, look, at) else setting
    }

    function BegunBy(setting: Setting, record: Record, look: nat): nat
      requires record.stream < |streams|
    {
      if Pins(setting, record) then look + 2 else look
    }

    /** A record without a wire form or before the start is skipped, and one past the duration is the end. */
    function PlacedAs(base: Option<real>, record: Record): Option<Outcome>
      requires record.stream < |streams| && (Supported(record) ==> base.Some?)
    {
      if !Supported(record) || record.ts < base.value then Some(Skipped)
      else if args.duration.Some? && record.ts - base.value > args.duration.value then Some(Ended)
      else None
    }

    /** A gate waits for the one before it and pins the clocks anew; anything else leaves the setting alone. */
    ghost predicate Paced(s: State, start: nat, record: Record, timedOut: bool, setting: Setting, tick: nat) {
      && Settled(setting)
      && if !Gated(record) then !timedOut && setting == s.setting
         else
           var look := setting.anchor.value.look;
           && start <= look && look + 2 <= tick && setting == Repinned(s.setting, record.ts, look, setting.rate, at)
           && WaitedAs(at, gate.value.count, gate.value.latest, gate.value.timeout, s.outstanding, timedOut, start,
                       look, record.ts, s.setting.rate, setting.rate)
    }

    /** A payload with nothing left is not sent; one the codecs or the transport refuse stops the pass. */
    ghost function FateOf(record: Record, mapping: Retimer, out: nat): (fate: Fate)
      requires record.stream < |streams| && mapping.Valid() && lcm.Lawful()
      ensures fate != Ok(Skipped) && fate != Ok(Ended)
    {
      match PreparedAs(record, mapping)
      case Err => Err
      case Ok(None) => Ok(Emptied)
      case Ok(Some(_)) => if accepts(out) then Ok(Published) else Err
    }

    /** A gate that went out is outstanding from then on; one that did not leaves none. */
    function HandedOn(outstanding: Option<Outstanding>, record: Record, fate: Fate, tick: nat): Option<Outstanding>
      requires tick > 0
    {
      if !Gated(record) then outstanding
      else if fate == Ok(Published) then Some(Outstanding(gate.value.count(tick), at(tick - 1), record.ts))
      else None
    }

    lemma StillPaced(s: State, start: nat, record: Record, timedOut: bool, setting: Setting, tick: nat, later: nat)
      requires Paced(s, start, record, timedOut, setting, tick) && tick <= later
      ensures Paced(s, start, record, timedOut, setting, later)
    {
    }

    /** Whatever was outstanding before a gate has been waited for. */
    lemma GateStaysSingle(outstanding: Option<Outstanding>, record: Record, fate: Fate, tick: nat)
      requires tick > 0
      ensures Gated(record) ==> HandedOn(outstanding, record, fate, tick) == HandedOn(None, record, fate, tick)
    {
    }

    /** The last look before a message went out; a gate is followed by one more. */
    function OutLook(record: Record, fate: Fate, tick: nat): nat
      requires tick >= 2
    {
      if Gated(record) && fate == Ok(Published) then tick - 2 else tick - 1
    }

    /** It went out, or was found not to, no earlier than it was due. */
    ghost predicate InTime(setting: Setting, record: Record, fate: Fate, tick: nat)
      requires Settled(setting) && tick >= 2
    {
      args.rate > 0.0 ==> at(OutLook(record, fate, tick)) >= DueAt(setting, record.ts)
    }

    /** In scaled mode the log keeps how a message reads: under its setting, at the last look before it went out. */
    ghost function LoggedAs(log: seq<Sent>, setting: Setting, record: Record, fate: Fate, tick: nat): seq<Sent>
      requires Settled(setting) && tick >= 2
    {
      if fate == Ok(Published) && args.stamps.ScaledStamps?
      then log + [ArrivalOf(args, setting, record.ts, at(OutLook(record, fate, tick)))]
      else log
    }

    /** A record within the start and the duration: it is paced, and meets its fate no earlier than it is due. */
    ghost predicate Released(s: State, start: nat, out: nat, t: Turn)
      requires t.record.stream < |streams| && lcm.Lawful()
    {
      && t.to >= 2 && Paced(s, start, t.record, t.timedOut, t.after.setting, t.to)
      && t.fate == FateOf(t.record, MappingOf(args, t.after.setting), out)
      && t.after.outstanding == HandedOn(s.outstanding, t.record, t.fate, t.to)
      && InTime(t.after.setting, t.record, t.fate, t.to)
    }

    /** A record outside start and duration passes the state on; any other is released. */
    ghost predicate Met(s: State, start: nat, out: nat, t: Turn)
      requires t.record.stream < |streams| && (Supported(t.record) ==> s.setting.base.Some?) && lcm.Lawful()
    {
      match PlacedAs(s.setting.base, t.record)
      case Some(outcome) => t.fate == Ok(outcome) && !t.timedOut && t.after == s
      case None => Released(s, start, out, t)
    }

    /** What the record of a turn has to meet, `out` messages having gone out before it. */
    ghost predicate Turned(s: State, out: nat, t: Turn)
      requires lcm.Lawful()
    {
      && t.record.stream < |streams|
      && var setting, start := Begun(s.setting, t.record, t.from), BegunBy(s.setting, t.record, t.from);
      && start <= t.to && (Supported(t.record) ==> setting.base.Some?)
      && Met(State(setting, s.outstanding), start, out, t)
    }

    /** A turn of this replay's streams, whose record went on only under a setting. */
    predicate Fits(t: Turn) {
      t.record.stream < |streams| && (WasReleased(t) ==> t.to >= 2 && Settled(t.after.setting))
    }

    ghost function Mapping(t: Turn): Retimer
      requires Fits(t) && WasReleased(t)
      ensures Mapping(t).Valid()
    {
      MappingOf(args, t.after.setting)
    }

    lemma TurnFits(s: State, out: nat, t: Turn)
      requires lcm.Lawful() && Turned(s, out, t)
      ensures Fits(t) && s.setting.anchor.Some? ==> t.after.setting.anchor.Some?
      ensures Fits(t) && t.from <= t.to
    {
      hide FateOf, WaitedAs, HandedOn;
    }

    // ---------------------------------------------------------- what it changes elsewhere

    function WaitedFor(o: Observed, timedOut: bool): Observed {
      if timedOut then o.(timeouts := o.timeouts + 1) else o
    }

    /** The audit sees the payload on its stream. */
    ghost function Inspected(o: Observed, record: Record, wire: seq<byte>): Observed
      requires record.stream < |streams| == |o.samples|
      ensures |Inspected(o, record, wire).samples| == |o.samples|
    {
      var support := streams[record.stream].support;
      var seen := o.samples[record.stream] + SampleOf(support, wire, SecondsToNanos(record.ts));
      o.(edges := o.edges + EdgesFrom(lcm, support, wire), samples := o.samples[record.stream := seen])
    }

    /** The recorder hears of a message before the transport does. */
    function NotedAs(o: Observed, stream: nat, data: seq<byte>): Observed
      requires stream < |streams|
    {
      if recording then o.(notes := o.notes + [KeyOf(stream, data)]) else o
    }

    function SentAs(o: Observed, record: Record, data: seq<byte>): Observed {
      if accepts(|o.out|) then
        o.(out := o.out + [(record.stream, data)], gates := o.gates + if Gated(record) then 1 else 0)
      else o
    }

    /** The audit is shown what is left of a payload; a payload nothing is left of is counted. */
    ghost function ShownAs(o: Observed, record: Record): Observed
      requires record.stream < |streams| == |o.samples| && lcm.Lawful()
      ensures |ShownAs(o, record).samples| == |o.samples|
    {
      match Shown(record)
      case Err => o
      case Ok(None) => o.(emptied := o.emptied + 1)
      case Ok(Some(wire)) => Inspected(o, record, wire)
    }

    /** A released record: shown to the audit, and, if there is something to send, noted and sent. */
    ghost function EmittedAs(o: Observed, record: Record, mapping: Retimer): Observed
      requires record.stream < |streams| == |o.samples| && mapping.Valid() && lcm.Lawful()
      ensures |EmittedAs(o, record, mapping).samples| == |o.samples|
    {
      match PreparedAs(record, mapping)
      case Ok(Some(data)) => SentAs(NotedAs(ShownAs(o, record), record.stream, data), record, data)
      case _ => ShownAs(o, record)
    }

    ghost function Applied(o: Observed, t: Turn): Observed
      requires Fits(t) && |streams| == |o.samples| && lcm.Lawful()
      ensures |Applied(o, t).samples| == |o.samples|
    {
      if !WasReleased(t) then o
      else EmittedAs(WaitedFor(o, t.timedOut), t.record, Mapping(t))
    }

    ghost function CountedAs(tally: Tally, record: Record, mapping: Retimer, fate: Fate): Tally
      requires record.stream < |streams| && mapping.Valid() && lcm.Lawful()
    {
      var restamped := RestampedAs(tally, record, mapping);
      restamped.(published := restamped.published + if fate == Ok(Published) then 1 else 0)
    }

    ghost function Tallied(tally: Tally, t: Turn): Tally
      requires Fits(t) && lcm.Lawful()
    {
      if t.fate == Ok(Skipped) then tally.(skipped := tally.skipped + 1)
      else if t.fate == Ok(Ended) then tally
      else CountedAs(tally, t.record, Mapping(t), t.fate)
    }

    ghost function Logged(log: seq<Sent>, t: Turn): seq<Sent>
      requires Fits(t)
    {
      if WasReleased(t) then LoggedAs(log, t.after.setting, t.record, t.fate, t.to) else log
    }

    lemma NothingDone(o: Observed, tally: Tally, log: seq<Sent>, t: Turn)
      requires t.record.stream < |streams| == |o.samples| && lcm.Lawful() && !WasReleased(t)
      ensures Fits(t) && Applied(o, t) == o && Logged(log, t) == log
      ensures Tallied(tally, t) == if t.fate == Ok(Skipped) then tally.(skipped := tally.skipped + 1) else tally
    {
    }

    // ---------------------------------------------------------- whole passes

    ghost predicate AllFit(turns: seq<Turn>) { forall t :: t in turns ==> Fits(t) }

    ghost function After(o: Observed, turns: seq<Turn>): Observed
      requires AllFit(turns) && |streams| == |o.samples| && lcm.Lawful()
      ensures |After(o, turns).samples| == |o.samples|
    {
      if turns == [] then o else Applied(After(o, turns[..|turns| - 1]), turns[|turns| - 1])
    }

    ghost function TallyOf(turns: seq<Turn>): Tally
      requires AllFit(turns) && lcm.Lawful()
    {
      if turns == [] then Tally(0, 0, 0) else Tallied(TallyOf(turns[..|turns| - 1]), turns[|turns| - 1])
    }

    ghost function LogOf(turns: seq<Turn>): seq<Sent>
      requires AllFit(turns)
    {
      if turns == [] then [] else Logged(LogOf(turns[..|turns| - 1]), turns[|turns| - 1])
    }

    /**
      A truthful account of a pass that found `o`: each record was pulled once those before it were
      done with and had not ended the pass, and met what it had to.
     */
    ghost predicate Tells(o: Observed, a: Account)
      requires |streams| == |o.samples| && lcm.Lawful()
      decreases |a.turns|
    {
      && AllFit(a.turns)
      && (a.turns != [] ==>
            var front, t := a.(turns := a.turns[..|a.turns| - 1]), a.turns[|a.turns| - 1];
            && Tells(o, front) && Goes(front.turns) && Until(front) <= t.from
            && Turned(Final(front), |After(o, front.turns).out|, t))
    }

    lemma OneTurnMore(o: Observed, a: Account, t: Turn)
      requires |streams| == |o.samples| && lcm.Lawful() && Tells(o, a) && Goes(a.turns)
      requires Until(a) <= t.from && Turned(Final(a), |After(o, a.turns).out|, t)
      ensures var more := a.(turns := a.turns + [t]);
              && Tells(o, more) && Final(more) == t.after && Until(more) == t.to
              && After(o, more.turns) == Applied(After(o, a.turns), t)
              && TallyOf(more.turns) == Tallied(TallyOf(a.turns), t)
              && LogOf(more.turns) == Logged(LogOf(a.turns), t)
    {
      hide Turned, Applied, Tallied, Logged, Fits;
      TurnFits(Final(a), |After(o, a.turns).out|, t);
      assert (a.turns + [t])[..|a.turns|] == a.turns;
    }

    /** The gates counted are messages that went out on the gate's stream, no more and no fewer. */
    lemma {:induction false} GatesAreMessages(o: Observed, turns: seq<Turn>)
      requires AllFit(turns) && |streams| == |o.samples| && lcm.Lawful() && gate.Some?
      ensures After(o, turns).gates - o.gates
           == OnStream(After(o, turns).out, gate.value.stream) - OnStream(o.out, gate.value.stream)
      decreases |turns|
    {
      if turns != [] {
        var front, t := turns[..|turns| - 1], turns[|turns| - 1];
        GatesAreMessages(o, front);
        GateIsMessage(After(o, front), t);
      }
    }

    lemma GateIsMessage(o: Observed, t: Turn)
      requires Fits(t) && |streams| == |o.samples| && lcm.Lawful() && gate.Some?
      ensures Applied(o, t).gates - o.gates
           == OnStream(Applied(o, t).out, gate.value.stream) - OnStream(o.out, gate.value.stream)
    {
      hide PreparedAs, Mapping, Settled, NotedAs, ShownAs, SentAs, OnStream;
      if WasReleased(t) {
        var waited, prepared := WaitedFor(o, t.timedOut), PreparedAs(t.record, Mapping(t));
        ShowingSendsNothing(waited, t.record);
        if prepared.Ok? && prepared.value.Some? {
          var shown := ShownAs(waited, t.record);
          NotingSendsNothing(shown, t.record.stream, prepared.value.value);
          SendingIsCounted(NotedAs(shown, t.record.stream, prepared.value.value), t.record, prepared.value.value);
        }
      }
    }

    lemma ShowingSendsNothing(o: Observed, record: Record)
      requires record.stream < |streams| == |o.samples| && lcm.Lawful()
      ensures var shown := ShownAs(o, record);
              shown.out == o.out && shown.gates == o.gates && shown.notes == o.notes && shown.timeouts == o.timeouts
    {
      hide Shown, EdgesFrom, SampleOf;
    }

    lemma NotingSendsNothing(o: Observed, stream: nat, data: seq<byte>)
      requires stream < |streams|
      ensures var noted := NotedAs(o, stream, data);
              && noted.out == o.out && noted.gates == o.gates && noted.edges == o.edges
              && noted.notes == o.notes + if recording then [KeyOf(stream, data)] else []
    {
      hide KeyOf;
    }

    lemma SendingIsCounted(o: Observed, record: Record, data: seq<byte>)
      requires gate.Some?
      ensures var sent := SentAs(o, record, data);
              sent.gates - o.gates == OnStream(sent.out, gate.value.stream) - OnStream(o.out, gate.value.stream)
    {
      OneMessageMore(o.out, (record.stream, data), gate.value.stream);
    }

    /** With pacing, scaled stamps and times after the epoch, what went out is on time and in step. */
    ghost predicate Timely(a: Account)
      requires AllFit(a.turns)
    {
      args.stamps.ScaledStamps? && args.rate > 0.0 && Chronological(a.turns)
      && (Final(a).setting.base.Some? ==> Final(a).setting.base.value >= 0.0) ==>
        RatesReach(StartRate(args), LogOf(a.turns)) && OnTime(StartRate(args), LogOf(a.turns))
    }

    /** A truthful and timely account of a pass over the first records of a source. */
    ghost predicate Vouches(o: Observed, a: Account, all: seq<Source.Item>, blob: (nat, int) -> Option<seq<byte>>) {
      && |streams| == |o.samples| && lcm.Lawful()
      && Tells(o, a) && Timely(a) && PulledFrom(a.turns, all, blob)
    }
  }

  /** How many messages went out on a stream. */
  function OnStream(out: seq<Message>, stream: nat): nat {
    if out == [] then 0
    else OnStream(out[..|out| - 1], stream) + if out[|out| - 1].0 == stream then 1 else 0
  }

  lemma OneMessageMore(out: seq<Message>, m: Message, stream: nat)
    ensures OnStream(out + [m], stream) == OnStream(out, stream) + if m.0 == stream then 1 else 0
  {
    assert (out + [m])[..|out|] == out;
  }

  /** What the source promises of a recording: times after the epoch, in nondecreasing order. */
  ghost predicate Chronological(turns: seq<Turn>) {
    && (forall i :: 0 <= i < |turns| ==> turns[i].record.ts >= 0.0)
    && (forall i, j :: 0 <= i < j < |turns| ==> turns[i].record.ts <= turns[j].record.ts)
  }

  lemma PrefixIsChronological(turns: seq<Turn>, t: Turn)
    ensures Chronological(turns + [t]) ==> Chronological(turns)
    ensures Chronological(turns + [t]) ==> t.record.ts >= 0.0
                                           && (turns != [] ==> turns[|turns| - 1].record.ts <= t.record.ts)
  {
    var more := turns + [t];
    assert forall k :: 0 <= k < |turns| ==> more[k] == turns[k];
    assert more[|turns|] == t;
  }

  /** These are the first records of a source, in the order the source merges them. */
  ghost predicate PulledFrom(turns: seq<Turn>, all: seq<Source.Item>, blob: (nat, int) -> Option<seq<byte>>) {
    |turns| <= |all| && forall k :: 0 <= k < |turns| ==> turns[k].record == Source.RecordOf(all[k], blob)
  }

  lemma PulledOneMore(turns: seq<Turn>, all: seq<Source.Item>, blob: (nat, int) -> Option<seq<byte>>, t: Turn)
    requires PulledFrom(turns, all, blob) && |turns| < |all|
    requires var item := all[|turns|];
             && blob(item.stream, item.row.id).Some?
             && t.record == Source.Record.Record(item.stream, item.row.ts, blob(item.stream, item.row.id).value)
    ensures PulledFrom(turns + [t], all, blob)
  {
    Source.RecordIs(all[|turns|], t.record, blob);
  }

  /** The first records of a drained database, whenever its times are after the epoch. */
  lemma PulledIsChronological(all: seq<Source.Item>, queues: seq<seq<Source.Row>>,
                              blob: (nat, int) -> Option<seq<byte>>, turns: seq<Turn>)
    requires Source.Merges(all, queues) && PulledFrom(turns, all, blob)
    requires forall k :: 0 <= k < |all| ==> all[k].row.ts >= 0.0
    ensures Chronological(turns)
  {
    forall i, j | 0 <= i < j < |turns|
      ensures turns[i].record.ts <= turns[j].record.ts
    {
      assert Source.Before(all[i], all[j]);
    }
  }

  /** The pass ran to its end: it pulled everything, or the record the duration stopped at was the last. */
  ghost predicate Complete(turns: seq<Turn>, all: seq<Source.Item>) {
    if Goes(turns) then |turns| == |all| else turns[|turns| - 1].fate == Ok(Ended)
  }

  /** The pass was stopped: by the record pulled last, or because the next one is not in the source. */
  ghost predicate Stopped(turns: seq<Turn>, all: seq<Source.Item>, blob: (nat, int) -> Option<seq<byte>>) {
    if Goes(turns) then |turns| < |all| && blob(all[|turns|].stream, all[|turns|].row.id).None?
    else turns[|turns| - 1].fate == Err
  }

  // ------------------------------------------------------------ `--loop`

  ghost predicate Fitting(config: Config, accounts: seq<Account>) {
    config.lcm.Lawful() && forall k :: 0 <= k < |accounts| ==> config.AllFit(accounts[k].turns)
  }

  ghost function AllAfter(config: Config, o: Observed, accounts: seq<Account>): Observed
    requires Fitting(config, accounts) && |config.streams| == |o.samples|
    ensures |AllAfter(config, o, accounts).samples| == |o.samples|
  {
    if accounts == [] then o
    else config.After(AllAfter(config, o, accounts[..|accounts| - 1]), accounts[|accounts| - 1].turns)
  }

  /** However many passes: the gates counted are messages that went out on the gate's stream. */
  lemma {:induction false} AllGatesAreMessages(config: Config, o: Observed, accounts: seq<Account>)
    requires Fitting(config, accounts) && |config.streams| == |o.samples| && config.gate.Some?
    ensures var after, stream := AllAfter(config, o, accounts), config.gate.value.stream;
            after.gates - o.gates == OnStream(after.out, stream) - OnStream(o.out, stream)
    decreases |accounts|
  {
    hide Config.AllFit, OnStream;
    if accounts != [] {
      var front := accounts[..|accounts| - 1];
      AllGatesAreMessages(config, o, front);
      config.GatesAreMessages(AllAfter(config, o, front), accounts[|accounts| - 1].turns);
    }
  }

  function Plus(a: Tally, b: Tally): Tally {
    Tally(a.published + b.published, a.skipped + b.skipped, a.restamped + b.restamped)
  }

  ghost function Total(config: Config, accounts: seq<Account>): Tally
    requires Fitting(config, accounts)
  {
    if accounts == [] then Tally(0, 0, 0)
    else
      Plus(Total(config, accounts[..|accounts| - 1]), config.TallyOf(accounts[|accounts| - 1].turns))
  }

  /** The gate that is out after these passes. */
  function Carried(outstanding: Option<Outstanding>, accounts: seq<Account>): Option<Outstanding> {
    if accounts == [] then outstanding else Final(accounts[|accounts| - 1]).outstanding
  }

  /**
    Pass after pass over the same source: each begins when the one before is over, with clocks
    unpinned and the rate it was given, on what that one left, a gate that is out included.
   */
  ghost predicate AllVouch(config: Config, began: nat, o: Observed, outstanding: Option<Outstanding>,
                           accounts: seq<Account>, all: seq<Source.Item>, blob: (nat, int) -> Option<seq<byte>>)
    decreases |accounts|
  {
    && Fitting(config, accounts) && |config.streams| == |o.samples|
    && (accounts != [] ==>
          var front, last := accounts[..|accounts| - 1], accounts[|accounts| - 1];
          && AllVouch(config, began, o, outstanding, front, all, blob)
          && config.Vouches(AllAfter(config, o, front), last, all, blob)
          && last.start == State(Unset(config.args), Carried(outstanding, front))
          && last.began >= if front == [] then began else Until(front[|front| - 1]))
  }

  lemma LoopedFits(config: Config, began: nat, o: Observed, outstanding: Option<Outstanding>,
                   accounts: seq<Account>, all: seq<Source.Item>, blob: (nat, int) -> Option<seq<byte>>)
    requires AllVouch(config, began, o, outstanding, accounts, all, blob)
    ensures Fitting(config, accounts) && |config.streams| == |o.samples|
  {
  }

  lemma OneAccountMore(config: Config, began: nat, o: Observed, outstanding: Option<Outstanding>,
                       accounts: seq<Account>, all: seq<Source.Item>, blob: (nat, int) -> Option<seq<byte>>, a: Account)
    requires AllVouch(config, began, o, outstanding, accounts, all, blob)
    requires config.Vouches(AllAfter(config, o, accounts), a, all, blob)
    requires a.start == State(Unset(config.args), Carried(outstanding, accounts))
    requires a.began >= if accounts == [] then began else Until(accounts[|accounts| - 1])
    ensures AllVouch(config, began, o, outstanding, accounts + [a], all, blob) && Fitting(config, accounts + [a])
    ensures AllAfter(config, o, accounts + [a]) == config.After(AllAfter(config, o, accounts), a.turns)
    ensures Total(config, accounts + [a]) == Plus(Total(config, accounts), config.TallyOf(a.turns))
  {
    hide Config.Turned, Config.Timely, PulledFrom, Config.Fits;
    assert (accounts + [a])[..|accounts|] == accounts;
  }
}
