/**
  One pass over a recording (`replay_once` in src/main.rs), step by step, and `--loop` over it.
  Every step is proved against what `Accounts` says a record does.
 */
module Replay {
  import opened Prelude
  import opened Clocks
  import opened Messages
  import opened Cdr
  import opened Stamps
  import opened FrameGraph
  import opened Auditing
  import opened TfFiltering
  import opened Loopback
  import opened Lockstepping
  import opened Pacing
  import opened Accounts
  import Source

  /** The transport. Whether it takes the n-th message is up to it. */
  class Sink {
    const accepts: nat -> bool
    var out: seq<Message>

    constructor (accepts: nat -> bool)
      ensures out == [] && this.accepts == accepts
    {
      this.accepts := accepts;
      out := [];
    }

    method Publish(stream: nat, data: seq<byte>) returns (ok: bool)
      modifies this
      ensures ok <==> accepts(|old(out)|)
      ensures out == if ok then old(out) + [(stream, data)] else old(out)
    {
      ok := accepts(|out|);
      if ok { out := out + [(stream, data)]; }
    }
  }

  /** What has been noted so far, in order. */
  function NotesOf(history: seq<Event>): seq<Key> {
    if history == [] then []
    else
      var last := history[|history| - 1];
      NotesOf(history[..|history| - 1]) + if last.Noted? then [last.key] else []
  }

  lemma OneNoteMore(history: seq<Event>, e: Event)
    requires e.Noted?
    ensures NotesOf(history + [e]) == NotesOf(history) + [e.key]
  {
    assert (history + [e])[..|history|] == history;
  }

  /** What all passes leave their marks on. */
  ghost function Marks(sink: Sink, audit: Audit, lockstep: Lockstep?, tf: TfFilter?, recorder: SelfPublished?): Observed
    reads sink`out, audit`edges, audit`samples
    reads if lockstep != null then {lockstep as object} else {}
    reads if tf != null then {tf as object} else {}
    reads if recorder != null then {recorder as object} else {}
  {
    Observed(sink.out, audit.edges, audit.samples,
             if recorder != null then NotesOf(recorder.history) else [],
             if lockstep != null then lockstep.gates else 0,
             if lockstep != null then lockstep.timeouts else 0,
             if tf != null then tf.emptied else 0)
  }

  /** The gate that is out. */
  function OutstandingOf(lockstep: Lockstep?): Option<Outstanding>
    reads if lockstep != null then {lockstep as object} else {}
  {
    if lockstep == null then None else lockstep.outstanding
  }

  /** The configuration speaks of these very objects. */
  ghost predicate Wired(config: Config, clock: Clock, sink: Sink, lockstep: Lockstep?, tf: TfFilter?,
                        recorder: SelfPublished?)
  {
    && config.lcm.Lawful() && config.args.rate >= 0.0
    && config.at == clock.at && config.accepts == sink.accepts
    && config.gate == (if lockstep == null then None
                       else Some(Gating(lockstep.stream, lockstep.timeout, lockstep.arrivals.count,
                                        lockstep.arrivals.latest)))
    && (config.recording <==> recorder != null)
    && config.rules == (if tf == null then None else Some(tf.rules))
  }

  /** What every pass finds and leaves as it should be: the objects all passes share. */
  ghost predicate Shared(config: Config, clock: Clock, audit: Audit, lockstep: Lockstep?, tf: TfFilter?,
                         recorder: SelfPublished?)
    reads clock, audit, audit.ahead, audit.backwards, audit.doubled, audit.split
    reads if lockstep != null then {lockstep as object} else {}
    reads if tf != null then {tf as object} else {}
    reads if recorder != null then {recorder as object} else {}
  {
    && clock.Valid() && audit.Valid() && |audit.streams| == |audit.samples| == |config.streams|
    && (lockstep != null ==> lockstep.Valid(clock.tick))
    && (recorder != null ==> recorder.Valid(clock.Latest()))
    && (tf != null ==> tf.Valid())
  }

  class Pass {
    const config: Config
    const clock: Clock
    const pacer: Pacer
    const audit: Audit
    const sink: Sink
    const lockstep: Lockstep?
    const tf: TfFilter?
    const recorder: SelfPublished?
    var tally: Tally
    /** Everything pulled so far, and what became of it. */
    ghost var account: Account

    ghost predicate Valid()
      reads clock, pacer, audit, audit.ahead, audit.backwards, audit.doubled, audit.split
      reads if lockstep != null then {lockstep as object} else {}
      reads if tf != null then {tf as object} else {}
      reads if recorder != null then {recorder as object} else {}
    {
      && Wired(config, clock, sink, lockstep, tf, recorder)
      && Shared(config, clock, audit, lockstep, tf, recorder)
      && pacer.clock == clock && pacer.args == config.args && pacer.Valid()
    }

    ghost function Now(): State
      reads pacer
      reads if lockstep != null then {lockstep as object} else {}
    {
      State(pacer.Set(), OutstandingOf(lockstep))
    }

    ghost function Left(): Observed
      reads sink, audit
      reads if lockstep != null then {lockstep as object} else {}
      reads if tf != null then {tf as object} else {}
      reads if recorder != null then {recorder as object} else {}
    {
      Marks(sink, audit, lockstep, tf, recorder)
    }

    constructor (config: Config, pacer: Pacer, audit: Audit, sink: Sink,
                 lockstep: Lockstep?, tf: TfFilter?, recorder: SelfPublished?)
      requires Wired(config, pacer.clock, sink, lockstep, tf, recorder)
      requires Shared(config, pacer.clock, audit, lockstep, tf, recorder)
      requires pacer.args == config.args && pacer.Valid()
      ensures Valid() && tally == Tally(0, 0, 0)
      ensures account == Account(clock.tick, Now(), [])
      ensures this.config == config && this.pacer == pacer && this.clock == pacer.clock && this.audit == audit
      ensures this.sink == sink && this.lockstep == lockstep && this.tf == tf && this.recorder == recorder
    {
      this.config := config;
      this.clock := pacer.clock;
      this.pacer := pacer;
      this.audit := audit;
      this.sink := sink;
      this.lockstep := lockstep;
      this.tf := tf;
      this.recorder := recorder;
      tally := Tally(0, 0, 0);
      account := Account(pacer.clock.tick, State(pacer.Set(), OutstandingOf(lockstep)), []);
    }

    /** The records so far came in order, and one at `ts` would keep it so. */
    ghost predicate FollowsOn(ts: real)
      reads pacer
    {
      pacer.ordered && ts >= 0.0 && (pacer.lastTs.Some? ==> pacer.lastTs.value <= ts)
    }

    lemma EveryStreamIsAudited()
      requires Valid()
      ensures |Left().samples| == |config.streams|
    {
    }

    /** The first record with a wire form pins the clocks. */
    method Pinned(record: Record)
      requires Valid() && record.stream < |config.streams| && config.Supported(record)
      modifies pacer`base, pacer`anchor, pacer`retimer, pacer`firstWallNs, pacer`pins, pacer`frontier, pacer`lastTs,
        pacer`ordered, clock
      ensures Valid() && pacer.anchor.Some? && pacer.base.Some? && pacer.lastTs == Some(record.ts)
      ensures Now() == State(config.Begun(old(Now()).setting, record, old(clock.tick)), old(Now()).outstanding)
      ensures clock.tick == config.BegunBy(old(Now()).setting, record, old(clock.tick))
      ensures old(FollowsOn(record.ts)) ==> FollowsOn(record.ts)
    {
      hide Audit.Valid, Lockstep.Valid, SelfPublished.Valid, TfFilter.Valid, FirstPin, LcmCodec.Lawful, RatesReach,
        OnTime, WithinReach, Pacer.InStep, Pacer.RetimerValid;
      ghost var earlier, from := clock.Latest(), clock.tick;
      pacer.Pin(record.ts);
      clock.TimePassed();
      if lockstep != null { lockstep.StillValid(from, clock.tick); }
      if recorder != null { recorder.StillValid(earlier, clock.Latest()); }
    }

    /** Waits for the gate before this one to be answered, and pins the clocks anew. */
    method AwaitAnswer(record: Record) returns (ghost timedOut: bool)
      requires Valid() && config.Gated(record) && lockstep != null
      requires pacer.anchor.Some? && pacer.lastTs == Some(record.ts)
      requires pacer.base.Some? && pacer.base.value <= record.ts
      modifies pacer`anchor, pacer`rate, pacer`retimer, pacer`pins, pacer`frontier, clock
      modifies lockstep`timeouts, lockstep`outstanding, lockstep`answers
      ensures Valid() && clock.tick >= old(clock.tick) && clock.tick >= 2
      ensures pacer.frontier == record.ts && pacer.Due(record.ts)
      ensures config.Paced(old(Now()), old(clock.tick), record, timedOut, pacer.Set(), clock.tick)
      ensures lockstep.outstanding == None && lockstep.timeouts == old(lockstep.timeouts) + if timedOut then 1 else 0
    {
      hide Pacer.Valid, Audit.Valid, Lockstep.Valid, SelfPublished.Valid, TfFilter.Valid, LcmCodec.Lawful, WaitedAs,
        Pacer.Due;
      ghost var earlier := clock.Latest();
      pacer.Gate(record.ts, lockstep);
      timedOut := lockstep.timeouts > old(lockstep.timeouts);
      clock.TimePassed();
      pacer.RetimerFits();
      if recorder != null { recorder.StillValid(earlier, clock.Latest()); }
    }

    /** Holds a record back until it is due. */
    method HoldBack(record: Record)
      requires Valid() && !config.Gated(record)
      requires pacer.anchor.Some? && pacer.lastTs == Some(record.ts)
      requires pacer.base.Some? && pacer.base.value <= record.ts
      modifies pacer`frontier, clock
      ensures Valid() && clock.tick >= old(clock.tick) && clock.tick >= 2 && pacer.frontier == record.ts
      ensures config.Paced(old(Now()), old(clock.tick), record, false, pacer.Set(), clock.tick)
      ensures pacer.args.rate > 0.0 ==> pacer.Due(record.ts)
    {
      hide Pacer.Valid, Audit.Valid, Lockstep.Valid, SelfPublished.Valid, TfFilter.Valid, LcmCodec.Lawful, WaitedAs,
        Repinned, Pacer.Due;
      ghost var earlier, from := clock.Latest(), clock.tick;
      pacer.RetimerFits();
      pacer.SleepUntilDue(record.ts);
      if lockstep != null { lockstep.StillValid(from, clock.tick); }
      clock.TimePassed();
      if recorder != null { recorder.StillValid(earlier, clock.Latest()); }
    }

    /** Drops what `--drop-tf` names; false when nothing is left to publish. */
    method Filter(stream: nat, buf: Buffer) returns (r: Result<bool>)
      requires Valid() && stream < |config.streams|
      modifies buf
      modifies if tf != null then {tf as object} else {}
      ensures Valid()
      ensures match config.Sifted(stream, old(buf.bytes))
              case Err => r == Err
              case Ok(None) => r == Ok(false)
              case Ok(Some(left)) => r == Ok(true) && buf.bytes == left
      ensures Left() == old(Left()).(emptied := old(Left()).emptied + if r == Ok(false) then 1 else 0)
    {
      hide Pacer.Valid, Audit.Valid, Lockstep.Valid, SelfPublished.Valid, TfFilter.Valid, Kept, Lost, NotesOf,
        Ruled, RuledOff;
      if config.streams[stream].msgName != TF_MESSAGE || tf == null { return Ok(true); }
      r := tf.Apply(config.lcm, buf);
    }

    /** Shows the payload to the audit before anything is restamped. */
    method Audited(record: Record, data: seq<byte>)
      requires Valid() && record.stream < |config.streams|
      modifies audit, audit.ahead, audit.backwards, audit.doubled, audit.split, clock
      ensures Valid() && clock.tick >= old(clock.tick)
      ensures Left() == config.Inspected(old(Left()), record, data)
      ensures old(pacer.Due(record.ts)) ==> pacer.Due(record.ts)
    {
      hide Pacer.Valid, Audit.Valid, Lockstep.Valid, SelfPublished.Valid, TfFilter.Valid, LcmCodec.Lawful, NotesOf,
        EdgesFrom, SampleOf, SecondsToNanos, Pacer.Due;
      ghost var earlier, from := clock.Latest(), clock.tick;
      audit.Inspect(clock, config.lcm, record.stream, config.streams[record.stream].support, data,
                    SecondsToNanos(record.ts));
      clock.TimePassed();
      pacer.StillValid(record.ts);
      if lockstep != null { lockstep.StillValid(from, clock.tick); }
      if recorder != null { recorder.StillValid(earlier, clock.Latest()); }
    }

    /** Every message is noted before it is put on the wire. */
    method Noted(record: Record, data: seq<byte>)
      requires Valid() && record.stream < |config.streams|
      modifies clock
      modifies if recorder != null then {recorder as object} else {}
      ensures Valid() && clock.tick >= old(clock.tick)
      ensures Left() == config.NotedAs(old(Left()), record.stream, data)
      ensures recorder != null ==> Claimed(recorder.accepted, config.KeyOf(record.stream, data), clock.Latest())
      ensures recorder != null ==> NotedNext(old(recorder.history), recorder.history, config.KeyOf(record.stream, data))
      ensures old(pacer.Due(record.ts)) ==> pacer.Due(record.ts)
    {
      hide Pacer.Valid, Audit.Valid, Lockstep.Valid, SelfPublished.Valid, TfFilter.Valid, LcmCodec.Lawful,
        Config.KeyOf, Claimed, NotesOf, Pacer.Due;
      if recorder == null { return; }
      ghost var from := clock.tick;
      recorder.Note(clock, config.KeyOf(record.stream, data));
      NextNote(old(recorder.history), recorder.history, config.KeyOf(record.stream, data));
      pacer.StillValid(record.ts);
      if lockstep != null { lockstep.StillValid(from, clock.tick); }
    }

    /** Restamps in place; a substituted stamp is tallied. */
    method Restamp(record: Record, buf: Buffer) returns (ok: bool)
      requires Valid() && record.stream < |config.streams|
      modifies this`tally, buf
      ensures pacer.retimer.Valid()
      ensures match Retimed(pacer.retimer, config.lcm, config.streams[record.stream].support, old(buf.bytes),
                            SecondsToNanos(record.ts))
              case Err => !ok && tally == old(tally)
              case Ok((out, substituted)) =>
                && ok && buf.bytes == out
                && tally == old(tally).(restamped := old(tally.restamped) + if substituted then 1 else 0)
    {
      hide Pacer.Valid, Audit.Valid, Lockstep.Valid, SelfPublished.Valid, TfFilter.Valid, LcmCodec.Lawful, Retimed,
        SecondsToNanos;
      pacer.RetimerFits();
      var support := config.streams[record.stream].support;
      var substituted := buf.Apply(pacer.retimer, config.lcm, support, SecondsToNanos(record.ts));
      if substituted.Err? { return false; }
      if substituted.value { tally := tally.(restamped := tally.restamped + 1); }
      return true;
    }

    /** The audit sees the payload before it is restamped. */
    method Finish(record: Record, buf: Buffer) returns (r: Result<Option<seq<byte>>>)
      requires Valid() && record.stream < |config.streams|
      modifies this`tally, buf, clock, audit, audit.ahead, audit.backwards, audit.doubled, audit.split
      ensures Valid() && clock.tick >= old(clock.tick) && pacer.retimer.Valid()
      ensures old(pacer.Due(record.ts)) ==> pacer.Due(record.ts)
      ensures Left() == config.Inspected(old(Left()), record, old(buf.bytes))
      ensures match Retimed(pacer.retimer, config.lcm, config.streams[record.stream].support, old(buf.bytes),
                            SecondsToNanos(record.ts))
              case Err => r == Err && tally == old(tally)
              case Ok((out, substituted)) =>
                && r == Ok(Some(out))
                && tally == old(tally).(restamped := old(tally.restamped) + if substituted then 1 else 0)
    {
      hide Pacer.Valid, Audit.Valid, Lockstep.Valid, SelfPublished.Valid, TfFilter.Valid, LcmCodec.Lawful,
        Retimed, Config.Inspected, Pacer.Due, Marks, SecondsToNanos;
      Audited(record, buf.bytes);
      var restamped := Restamp(record, buf);
      return if restamped then Ok(Some(buf.bytes)) else Err;
    }

    /** From stored bytes to the bytes that go out; `Ok(None)` is a tf message with nothing left. */
    method Prepare(record: Record) returns (r: Result<Option<seq<byte>>>)
      requires Valid() && record.stream < |config.streams|
      modifies this`tally, clock, audit, audit.ahead, audit.backwards, audit.doubled, audit.split
      modifies if tf != null then {tf as object} else {}
      ensures Valid() && clock.tick >= old(clock.tick) && pacer.retimer.Valid()
      ensures old(pacer.Due(record.ts)) ==> pacer.Due(record.ts)
      ensures r == config.PreparedAs(record, pacer.retimer)
      ensures tally == config.RestampedAs(old(tally), record, pacer.retimer)
      ensures Left() == config.ShownAs(old(Left()), record)
    {
      hide Pacer.Valid, Audit.Valid, Lockstep.Valid, SelfPublished.Valid, TfFilter.Valid, LcmCodec.Lawful,
        Retimed, Config.Sifted, Config.Inspected, Pacer.Due, Marks, SecondsToNanos;
      pacer.RetimerFits();
      var stored := config.toWire(record.stream, record.data);
      if stored.None? { return Err; }
      var buf := new Buffer(stored.value);
      var kept := Filter(record.stream, buf);
      match kept {
        case Err => r := Err;
        case Ok(false) => r := Ok(None);
        case Ok(true) => r := Finish(record, buf);
      }
    }

    /** Published, and then on record as published. */
    method Launch(record: Record, data: seq<byte>) returns (fate: Fate)
      requires Valid() && record.stream < |config.streams|
      requires pacer.anchor.Some? && pacer.frontier == record.ts && (pacer.args.rate > 0.0 ==> pacer.Due(record.ts))
      modifies this`tally, pacer`log, sink
      ensures Valid() && Settled(pacer.Set())
      ensures fate == if config.accepts(|old(sink.out)|) then Ok(Published) else Err
      ensures sink.out == old(sink.out) + if fate.Ok? then [(record.stream, data)] else []
      ensures tally == old(tally).(published := old(tally.published) + if fate.Ok? then 1 else 0)
      ensures pacer.log == if fate.Ok? && config.args.stamps.ScaledStamps?
                           then old(pacer.log) + [ArrivalOf(config.args, pacer.Set(), record.ts, clock.Latest())]
                           else old(pacer.log)
    {
      hide Pacer.Valid, Audit.Valid, Lockstep.Valid, SelfPublished.Valid, TfFilter.Valid, LcmCodec.Lawful, ArrivalOf,
        Pacer.Due;
      pacer.RetimerFits();
      var ok := sink.Publish(record.stream, data);
      if ok {
        pacer.Published(record.ts);
        tally := tally.(published := tally.published + 1);
        fate := Ok(Published);
      } else {
        fate := Err;
      }
    }

    /** A gate that went out is outstanding from then on, timed by the look that follows the publish. */
    method GateSent(record: Record)
      requires Valid() && config.Gated(record) && lockstep != null && lockstep.outstanding.None? && clock.tick > 0
      modifies clock, lockstep`outstanding, lockstep`gates
      ensures Valid() && clock.tick == old(clock.tick) + 1
      ensures OutstandingOf(lockstep)
           == config.HandedOn(old(OutstandingOf(lockstep)), record, Ok(Published), clock.tick)
      ensures lockstep.gates == old(lockstep.gates) + 1
    {
      hide Pacer.Valid, Audit.Valid, Lockstep.Valid, SelfPublished.Valid, TfFilter.Valid, LcmCodec.Lawful;
      ghost var earlier, from := clock.Latest(), clock.tick;
      var publishedAt := clock.Now();
      pacer.StillValid(record.ts);
      lockstep.StillValid(from, clock.tick);
      lockstep.Sent(clock, record.ts, publishedAt);
      if recorder != null { recorder.StillValid(earlier, clock.Latest()); }
    }

    /** Published; a gate is outstanding from then on. */
    method Deliver(record: Record, data: seq<byte>) returns (fate: Fate)
      requires Valid() && record.stream < |config.streams| && Settled(pacer.Set()) && clock.tick >= 2
      requires pacer.frontier == record.ts && (pacer.args.rate > 0.0 ==> pacer.Due(record.ts))
      requires config.Gated(record) ==> OutstandingOf(lockstep).None?
      modifies this`tally, clock, pacer`log, sink
      modifies if lockstep != null then {lockstep as object} else {}
      ensures Valid() && clock.tick >= old(clock.tick)
      ensures fate == if config.accepts(|old(sink.out)|) then Ok(Published) else Err
      ensures Left() == config.SentAs(old(Left()), record, data)
      ensures tally == old(tally).(published := old(tally.published) + if fate.Ok? then 1 else 0)
      ensures Handed(record, fate, old(pacer.log), old(OutstandingOf(lockstep)))
    {
      hide Pacer.Valid, Audit.Valid, Lockstep.Valid, SelfPublished.Valid, TfFilter.Valid, LcmCodec.Lawful, ArrivalOf,
        DueAt, NotesOf;
      fate := Launch(record, data);
      if fate.Ok? && lockstep != null && lockstep.stream == record.stream {
        GateSent(record);
      }
    }

    /** How log and gate stand once a record met its fate, which was in time. */
    ghost predicate Handed(record: Record, fate: Fate, log: seq<Sent>, outstanding: Option<Outstanding>)
      reads pacer, clock
      reads if lockstep != null then {lockstep as object} else {}
    {
      && Settled(pacer.Set()) && clock.tick >= 2
      && pacer.log == config.LoggedAs(log, pacer.Set(), record, fate, clock.tick)
      && OutstandingOf(lockstep) == config.HandedOn(outstanding, record, fate, clock.tick)
      && config.InTime(pacer.Set(), record, fate, clock.tick)
    }

    /** The recorder hears of a message before the transport does. */
    method Send(record: Record, data: seq<byte>) returns (fate: Fate)
      requires Valid() && record.stream < |config.streams| && Settled(pacer.Set()) && clock.tick >= 2
      requires pacer.frontier == record.ts && (pacer.args.rate > 0.0 ==> pacer.Due(record.ts))
      requires config.Gated(record) ==> OutstandingOf(lockstep).None?
      modifies this`tally, clock, pacer`log, sink
      modifies if lockstep != null then {lockstep as object} else {}
      modifies if recorder != null then {recorder as object} else {}
      ensures Valid() && clock.tick >= old(clock.tick)
      ensures fate == if config.accepts(|old(sink.out)|) then Ok(Published) else Err
      ensures Left() == config.SentAs(config.NotedAs(old(Left()), record.stream, data), record, data)
      ensures tally == old(tally).(published := old(tally.published) + if fate.Ok? then 1 else 0)
      ensures Handed(record, fate, old(pacer.log), old(OutstandingOf(lockstep)))
      ensures recorder != null ==> NotedNext(old(recorder.history), recorder.history, config.KeyOf(record.stream, data))
    {
      hide Pacer.Valid, Audit.Valid, Lockstep.Valid, SelfPublished.Valid, TfFilter.Valid, LcmCodec.Lawful, ArrivalOf,
        DueAt, NotesOf, Claimed, NotedNext, Marks, Config.SentAs, Config.NotedAs, Handed, Pacer.Due;
      Noted(record, data);
      fate := Deliver(record, data);
    }

    /** A record that is not sent changes neither the log nor the gate. */
    lemma NotSent(record: Record, fate: Fate)
      requires Valid() && Settled(pacer.Set()) && clock.tick >= 2 && fate != Ok(Published)
      requires pacer.args.rate > 0.0 ==> pacer.Due(record.ts)
      requires config.Gated(record) ==> OutstandingOf(lockstep).None?
      ensures Handed(record, fate, pacer.log, OutstandingOf(lockstep))
    {
      hide Pacer.Valid, Audit.Valid, Lockstep.Valid, SelfPublished.Valid, TfFilter.Valid, LcmCodec.Lawful, DueAt;
    }

    /** Shown to the audit, and, if there is something to send, sent. */
    method Emit(record: Record) returns (fate: Fate)
      requires Valid() && record.stream < |config.streams| && Settled(pacer.Set()) && clock.tick >= 2
      requires pacer.frontier == record.ts && (pacer.args.rate > 0.0 ==> pacer.Due(record.ts))
      requires config.Gated(record) ==> OutstandingOf(lockstep).None?
      modifies this`tally, clock, pacer`log, audit, audit.ahead, audit.backwards, audit.doubled, audit.split, sink
      modifies if lockstep != null then {lockstep as object} else {}
      modifies if tf != null then {tf as object} else {}
      modifies if recorder != null then {recorder as object} else {}
      ensures Valid() && clock.tick >= old(clock.tick) && pacer.retimer.Valid()
      ensures fate == config.FateOf(record, pacer.retimer, |old(sink.out)|)
      ensures Left() == config.EmittedAs(old(Left()), record, pacer.retimer)
      ensures tally == config.CountedAs(old(tally), record, pacer.retimer, fate)
      ensures Handed(record, fate, old(pacer.log), old(OutstandingOf(lockstep)))
    {
      hide Pacer.Valid, Audit.Valid, Lockstep.Valid, SelfPublished.Valid, TfFilter.Valid, LcmCodec.Lawful, Marks,
        Config.ShownAs, Config.SentAs, Config.NotedAs, Config.RestampedAs, Config.Outgoing, Handed, Pacer.Due;
      var prepared := Prepare(record);
      match prepared {
        case Err =>
          fate := Err;
          NotSent(record, fate);
        case Ok(None) =>
          fate := Ok(Emptied);
          NotSent(record, fate);
        case Ok(Some(data)) =>
          fate := Send(record, data);
      }
    }

    /** Waits for the record's moment: a gate's comes with the answer, any other's with the clock. */
    method Pace(record: Record) returns (ghost timedOut: bool)
      requires Valid() && record.stream < |config.streams|
      requires pacer.anchor.Some? && pacer.lastTs == Some(record.ts)
      requires pacer.base.Some? && pacer.base.value <= record.ts
      modifies pacer`anchor, pacer`rate, pacer`retimer, pacer`pins, pacer`frontier, clock
      modifies if lockstep != null then {lockstep as object} else {}
      ensures Valid() && clock.tick >= 2 && clock.tick >= old(clock.tick) && pacer.frontier == record.ts
      ensures pacer.args.rate > 0.0 ==> pacer.Due(record.ts)
      ensures config.Paced(old(Now()), old(clock.tick), record, timedOut, Now().setting, clock.tick)
      ensures OutstandingOf(lockstep) == if config.Gated(record) then None else old(OutstandingOf(lockstep))
      ensures Left() == config.WaitedFor(old(Left()), timedOut)
    {
      hide Pacer.Valid, Audit.Valid, Lockstep.Valid, SelfPublished.Valid, TfFilter.Valid, LcmCodec.Lawful, NotesOf,
        Config.Paced, Pacer.Due;
      if lockstep != null && lockstep.stream == record.stream {
        timedOut := AwaitAnswer(record);
      } else {
        HoldBack(record);
        timedOut := false;
      }
    }

    /** The turn so far, ending now. */
    ghost function TurnOf(record: Record, fate: Fate, from: nat, timedOut: bool): Turn
      reads pacer, clock
      reads if lockstep != null then {lockstep as object} else {}
    {
      Turn(record, fate, from, clock.tick, timedOut, Now())
    }

    /** What a turn came to, from what the rest of the program showed before it. */
    ghost predicate CameTo(t: Turn, left: Observed, was: Tally, log: seq<Sent>)
      reads this, pacer, sink, audit
      reads if lockstep != null then {lockstep as object} else {}
      reads if tf != null then {tf as object} else {}
      reads if recorder != null then {recorder as object} else {}
    {
      && config.Fits(t) && |config.streams| == |left.samples| && config.lcm.Lawful()
      && Left() == config.Applied(left, t)
      && tally == config.Tallied(was, t)
      && pacer.log == config.Logged(log, t)
    }

    /** Waits for the record's moment, and sends it on. */
    method Release(record: Record, ghost from: nat) returns (fate: Fate, ghost timedOut: bool)
      requires Valid() && record.stream < |config.streams|
      requires pacer.anchor.Some? && pacer.lastTs == Some(record.ts)
      requires pacer.base.Some? && pacer.base.value <= record.ts
      modifies this`tally, clock, pacer`anchor, pacer`rate, pacer`retimer, pacer`pins, pacer`frontier, pacer`log
      modifies audit, audit.ahead, audit.backwards, audit.doubled, audit.split, sink
      modifies if lockstep != null then {lockstep as object} else {}
      modifies if tf != null then {tf as object} else {}
      modifies if recorder != null then {recorder as object} else {}
      ensures Valid() && clock.tick >= old(clock.tick)
      ensures config.Released(old(Now()), old(clock.tick), |old(sink.out)|, TurnOf(record, fate, from, timedOut))
      ensures CameTo(TurnOf(record, fate, from, timedOut), old(Left()), old(tally), old(pacer.log))
    {
      hide Pacer.Valid, Audit.Valid, Lockstep.Valid, SelfPublished.Valid, TfFilter.Valid, LcmCodec.Lawful, NotesOf,
        Pacer.Due, Config.FateOf, Config.EmittedAs, Config.CountedAs, Marks, MappingOf, Config.Paced, Config.HandedOn,
        Config.InTime, Config.LoggedAs, Config.WaitedFor;
      EveryStreamIsAudited();
      timedOut := Pace(record);
      pacer.RetimerFits();
      ghost var paced := clock.tick;
      fate := Emit(record);
      config.StillPaced(old(Now()), old(clock.tick), record, timedOut, pacer.Set(), paced, clock.tick);
      config.GateStaysSingle(old(OutstandingOf(lockstep)), record, fate, clock.tick);
    }

    /** A record with a wire form: before the start, past the end, or released. */
    method Place(record: Record, ghost from: nat) returns (fate: Fate, ghost timedOut: bool)
      requires Valid() && record.stream < |config.streams| && config.Supported(record)
      requires pacer.anchor.Some? && pacer.lastTs == Some(record.ts) && pacer.base.Some?
      modifies this`tally, clock, pacer`anchor, pacer`rate, pacer`retimer, pacer`pins, pacer`frontier, pacer`log
      modifies audit, audit.ahead, audit.backwards, audit.doubled, audit.split, sink
      modifies if lockstep != null then {lockstep as object} else {}
      modifies if tf != null then {tf as object} else {}
      modifies if recorder != null then {recorder as object} else {}
      ensures Valid() && clock.tick >= old(clock.tick)
      ensures config.Met(old(Now()), old(clock.tick), |old(sink.out)|, TurnOf(record, fate, from, timedOut))
      ensures CameTo(TurnOf(record, fate, from, timedOut), old(Left()), old(tally), old(pacer.log))
    {
      hide Pacer.Valid, Audit.Valid, Lockstep.Valid, SelfPublished.Valid, TfFilter.Valid, LcmCodec.Lawful, NotesOf,
        Config.Released, Marks, Config.Applied, Config.Tallied, Config.Logged;
      EveryStreamIsAudited();
      timedOut := false;
      var elapsed := record.ts - pacer.base.value;
      if elapsed < 0.0 {
        tally := tally.(skipped := tally.skipped + 1);
        fate := Ok(Skipped);
        config.NothingDone(Left(), old(tally), pacer.log, TurnOf(record, fate, from, false));
      } else if config.args.duration.Some? && elapsed > config.args.duration.value {
        fate := Ok(Ended);
        config.NothingDone(Left(), old(tally), pacer.log, TurnOf(record, fate, from, false));
      } else {
        fate, timedOut := Release(record, from);
      }
    }

    /** The first of these pins the clocks; then each is placed. */
    method Take(record: Record) returns (fate: Fate, ghost timedOut: bool)
      requires Valid() && record.stream < |config.streams| && config.Supported(record)
      modifies this`tally, clock, pacer, audit, audit.ahead, audit.backwards, audit.doubled, audit.split, sink
      modifies if lockstep != null then {lockstep as object} else {}
      modifies if tf != null then {tf as object} else {}
      modifies if recorder != null then {recorder as object} else {}
      ensures Valid()
      ensures config.Turned(old(Now()), |old(sink.out)|, TurnOf(record, fate, old(clock.tick), timedOut))
      ensures CameTo(TurnOf(record, fate, old(clock.tick), timedOut), old(Left()), old(tally), old(pacer.log))
      ensures old(FollowsOn(record.ts)) ==> FollowsOn(record.ts)
    {
      hide Pacer.Valid, Audit.Valid, Lockstep.Valid, SelfPublished.Valid, TfFilter.Valid, LcmCodec.Lawful, NotesOf,
        Config.Met, Config.Begun, Config.BegunBy, Marks, CameTo;
      Pinned(record);
      fate, timedOut := Place(record, old(clock.tick));
    }

    /** One turn of the loop: what becomes of one record. */
    method Step(record: Record) returns (fate: Fate, ghost t: Turn)
      requires Valid() && record.stream < |config.streams|
      modifies this`tally, clock, pacer, audit, audit.ahead, audit.backwards, audit.doubled, audit.split, sink
      modifies if lockstep != null then {lockstep as object} else {}
      modifies if tf != null then {tf as object} else {}
      modifies if recorder != null then {recorder as object} else {}
      ensures Valid()
      ensures t == TurnOf(record, fate, old(clock.tick), t.timedOut)
      ensures config.Turned(old(Now()), |old(sink.out)|, t)
      ensures CameTo(t, old(Left()), old(tally), old(pacer.log))
      ensures old(FollowsOn(record.ts)) ==> FollowsOn(record.ts)
    {
      hide Pacer.Valid, Audit.Valid, Lockstep.Valid, SelfPublished.Valid, TfFilter.Valid, LcmCodec.Lawful, NotesOf,
        Config.Released, Marks, Config.Applied, Config.Tallied, Config.Logged;
      ghost var timedOut := false;
      if config.streams[record.stream].unsupported {
        EveryStreamIsAudited();
        tally := tally.(skipped := tally.skipped + 1);
        fate := Ok(Skipped);
        config.NothingDone(Left(), old(tally), pacer.log, TurnOf(record, fate, clock.tick, false));
      } else {
        fate, timedOut := Take(record);
      }
      t := TurnOf(record, fate, old(clock.tick), timedOut);
    }

    /** Everything the pass did is what its account says. */
    ghost predicate Told(o: Observed)
      reads this, clock, pacer, sink, audit
      reads if lockstep != null then {lockstep as object} else {}
      reads if tf != null then {tf as object} else {}
      reads if recorder != null then {recorder as object} else {}
    {
      && |config.streams| == |o.samples| && config.lcm.Lawful() && config.Tells(o, account)
      && Now() == Final(account) && Until(account) <= clock.tick
      && Left() == config.After(o, account.turns)
      && tally == config.TallyOf(account.turns)
      && pacer.log == config.LogOf(account.turns)
    }

    /** Puts one turn on the account. */
    ghost method Tell(t: Turn, o: Observed, was: Tally, log: seq<Sent>)
      requires |config.streams| == |o.samples| && config.lcm.Lawful()
      requires config.Tells(o, account) && Goes(account.turns) && Until(account) <= t.from
      requires config.Turned(Final(account), |config.After(o, account.turns).out|, t)
      requires was == config.TallyOf(account.turns) && log == config.LogOf(account.turns)
      requires CameTo(t, config.After(o, account.turns), was, log)
      requires t == TurnOf(t.record, t.fate, t.from, t.timedOut)
      modifies this`account
      ensures Told(o) && account == old(account).(turns := old(account.turns) + [t])
    {
      hide Config.Turned, Config.Tells, Config.After, Config.TallyOf, Config.LogOf, Config.Applied, Config.Tallied,
        Config.Logged, Marks;
      config.OneTurnMore(o, account, t);
      account := account.(turns := account.turns + [t]);
    }

    /** One record pulled, turned and put on the account. */
    method Turning(record: Record, ghost o: Observed) returns (fate: Fate, ghost t: Turn)
      requires Valid() && Told(o) && Goes(account.turns) && record.stream < |config.streams|
      modifies this, clock, pacer, audit, audit.ahead, audit.backwards, audit.doubled, audit.split, sink
      modifies if lockstep != null then {lockstep as object} else {}
      modifies if tf != null then {tf as object} else {}
      modifies if recorder != null then {recorder as object} else {}
      ensures Valid() && Told(o)
      ensures t.record == record && t.fate == fate && account == old(account).(turns := old(account.turns) + [t])
      ensures old(FollowsOn(record.ts)) ==> FollowsOn(record.ts)
    {
      hide Pacer.Valid, Audit.Valid, Lockstep.Valid, SelfPublished.Valid, TfFilter.Valid, LcmCodec.Lawful, NotesOf,
        Config.Turned, Config.Tells, Config.After, Config.TallyOf, Config.LogOf, CameTo, FollowsOn;
      ghost var was, log := tally, pacer.log;
      fate, t := Step(record);
      Tell(t, o, was, log);
    }

    /** The records so far were taken in order. */
    ghost predicate InOrder()
      reads this, pacer
    {
      Chronological(account.turns) ==>
        && pacer.ordered
        && (if account.turns == [] then pacer.lastTs.None?
            else FollowsOn(account.turns[|account.turns| - 1].record.ts))
    }

    /** Records in order stay in order. */
    method TurnInOrder(record: Record, ghost o: Observed) returns (fate: Fate, ghost t: Turn)
      requires Valid() && Told(o) && Goes(account.turns) && record.stream < |config.streams| && InOrder()
      modifies this, clock, pacer, audit, audit.ahead, audit.backwards, audit.doubled, audit.split, sink
      modifies if lockstep != null then {lockstep as object} else {}
      modifies if tf != null then {tf as object} else {}
      modifies if recorder != null then {recorder as object} else {}
      ensures Valid() && Told(o) && InOrder()
      ensures t.record == record && t.fate == fate && account == old(account).(turns := old(account.turns) + [t])
    {
      hide Valid, Told, Chronological;
      fate, t := Turning(record, o);
      PrefixIsChronological(old(account.turns), t);
    }

    /** The next record of the source and its fate; None when there is none, Err when it is missing. */
    method Pull(source: Source.DbSource, ghost all: seq<Source.Item>, ghost queues: seq<seq<Source.Row>>,
                ghost o: Observed) returns (r: Result<Option<Fate>>)
      requires Valid() && Told(o) && Goes(account.turns) && InOrder() && source.Valid()
      requires Source.Merges(all, queues) && |queues| == |config.streams|
      requires PulledFrom(account.turns, all, source.blob) && source.Left() == all[|account.turns|..]
      modifies this, clock, pacer, audit, audit.ahead, audit.backwards, audit.doubled, audit.split, sink, source
      modifies if lockstep != null then {lockstep as object} else {}
      modifies if tf != null then {tf as object} else {}
      modifies if recorder != null then {recorder as object} else {}
      ensures Valid() && Told(o) && InOrder() && source.Valid()
      ensures PulledFrom(account.turns, all, source.blob)
      ensures account.began == old(account).began && account.start == old(account).start
      ensures r.Err? || r.value.None? ==> account == old(account)
      ensures r.Err? ==> Stopped(account.turns, all, source.blob)
      ensures r == Ok(None) ==> |account.turns| == |all|
      ensures r.Ok? && r.value.Some? ==>
                && |account.turns| == |old(account).turns| + 1
                && account.turns[|account.turns| - 1].fate == r.value.value
                && source.Left() == all[|account.turns|..]
    {
      hide Pacer.Valid, Audit.Valid, Lockstep.Valid, SelfPublished.Valid, TfFilter.Valid, LcmCodec.Lawful, Told,
        InOrder, PulledFrom, Valid, Source.DbSource.Valid, Source.DbSource.Left, Source.DbSource.Queues,
        Source.Ordered, Source.Merges;
      PulledSoFar(all, source.blob);
      var next, item := source.Next();
      if next == Ok(None) { return Ok(None); }
      assert item.value == all[|account.turns|];
      if next.Err? { return Err; }
      var record := next.value.value;
      Source.MergedStreams(all, queues);
      ghost var turns := account.turns;
      var fate, t := TurnInOrder(record, o);
      PulledOneMore(turns, all, source.blob, t);
      return Ok(Some(fate));
    }

    lemma PulledSoFar(all: seq<Source.Item>, blob: (nat, int) -> Option<seq<byte>>)
      requires PulledFrom(account.turns, all, blob)
      ensures |account.turns| <= |all|
    {
    }

    /** What holds between any two records holds when the pass is over. */
    lemma Concluded(o: Observed)
      requires Valid() && Told(o) && InOrder()
      ensures config.AllFit(account.turns) && config.Timely(account)
      ensures lockstep != null ==>
                && lockstep.gates <= 1 + lockstep.arrivals.count(clock.tick) + lockstep.timeouts
                && lockstep.gates - o.gates == OnStream(sink.out, lockstep.stream) - OnStream(o.out, lockstep.stream)
    {
      hide Pacer.Valid, Audit.Valid, Lockstep.Valid, SelfPublished.Valid, TfFilter.Valid, LcmCodec.Lawful,
        RatesReach, OnTime, Config.After, Config.Turned, NotesOf, Chronological, OnStream, Config.TallyOf, Config.LogOf;
      if lockstep != null {
        lockstep.GatesAreAnswered(clock.tick);
        config.GatesAreMessages(o, account.turns);
      }
      pacer.PacedLogIsOnTime();
    }

    lemma NothingTold()
      requires Valid() && account == Account(clock.tick, Now(), []) && tally == Tally(0, 0, 0) && pacer.log == []
      requires pacer.ordered && pacer.anchor.None?
      ensures Told(Left()) && InOrder() && Goes(account.turns)
      ensures forall all: seq<Source.Item>, blob: (nat, int) -> Option<seq<byte>> ::
                PulledFrom(account.turns, all, blob)
    {
      hide Audit.Valid, Lockstep.Valid, SelfPublished.Valid, TfFilter.Valid, NotesOf;
    }

    /**
      Everything the source yields meets what it has to, until the source is exhausted, the
      duration is over, or something stops the pass; the sink, the audit, the recorder, the gate,
      the filter and the counters show what the account says and nothing else; and gates, which
      are messages in the sink, are answered, timed out, or the one outstanding.
     */
    method Run(source: Source.DbSource) returns (r: Result<bool>)
      requires Valid() && account == Account(clock.tick, Now(), []) && tally == Tally(0, 0, 0) && pacer.log == []
      requires pacer.ordered && pacer.anchor.None?
      requires source.Valid() && |source.tables| == |config.streams|
      requires forall i :: 0 <= i < |source.tables| ==> Source.Ordered(source.Queues()[i])
      modifies this, clock, pacer, audit, audit.ahead, audit.backwards, audit.doubled, audit.split, sink, source
      modifies if lockstep != null then {lockstep as object} else {}
      modifies if tf != null then {tf as object} else {}
      modifies if recorder != null then {recorder as object} else {}
      ensures Valid() && source.Valid() && Told(old(Left()))
      ensures account.began == old(clock.tick) && account.start == old(Now())
      ensures config.Vouches(old(Left()), account, old(source.Left()), source.blob)
      ensures r.Ok? ==> Complete(account.turns, old(source.Left())) && (r.value <==> !Goes(account.turns))
      ensures r.Err? ==> Stopped(account.turns, old(source.Left()), source.blob)
      ensures lockstep != null ==>
                && lockstep.gates <= 1 + lockstep.arrivals.count(clock.tick) + lockstep.timeouts
                && lockstep.gates - old(lockstep.gates)
                   == OnStream(sink.out, lockstep.stream) - OnStream(old(sink.out), lockstep.stream)
    {
      hide Pacer.Valid, Audit.Valid, Lockstep.Valid, SelfPublished.Valid, TfFilter.Valid, LcmCodec.Lawful,
        Valid, Told, InOrder, PulledFrom, OnStream, NotesOf, Config.Tells, Config.Timely,
        Source.DbSource.Valid, Source.DbSource.Left, Source.DbSource.Queues, Source.Ordered;
      ghost var all, o, queues := source.Left(), Left(), source.Queues();
      NothingTold();
      source.LeftIsMerged();
      while true
        invariant Valid() && source.Valid() && Told(o) && Goes(account.turns) && InOrder()
        invariant PulledFrom(account.turns, all, source.blob)
        invariant |account.turns| <= |all| && source.Left() == all[|account.turns|..]
        invariant account.began == old(clock.tick) && account.start == old(Now())
        decreases |all| - |account.turns|
      {
        var pulled := Pull(source, all, queues, o);
        PulledSoFar(all, source.blob);
        if pulled.Err? || pulled.value.None? || !pulled.value.value.Ok? || pulled.value.value == Ok(Ended) {
          Concluded(o);
          IsVouched(o, all, source.blob);
          return if pulled.Err? then Err
                 else if pulled.value.None? then Ok(false)
                 else if pulled.value.value.Err? then Err else Ok(true);
        }
      }
    }

    lemma IsVouched(o: Observed, all: seq<Source.Item>, blob: (nat, int) -> Option<seq<byte>>)
      requires Told(o) && config.AllFit(account.turns) && config.Timely(account) && PulledFrom(account.turns, all, blob)
      ensures config.Vouches(o, account, all, blob)
    {
      hide Config.Tells, Config.Timely, PulledFrom;
    }
  }

  /** Every gate since `o` is a message in the sink, and all are answered, timed out, or the one outstanding. */
  ghost predicate Answered(clock: Clock, sink: Sink, lockstep: Lockstep?, o: Observed)
    reads clock, sink
    reads if lockstep != null then {lockstep as object} else {}
  {
    lockstep != null ==>
      && lockstep.gates <= 1 + lockstep.arrivals.count(clock.tick) + lockstep.timeouts
      && lockstep.gates - o.gates == OnStream(sink.out, lockstep.stream) - OnStream(o.out, lockstep.stream)
  }

  /** One pass with its own anchor, rate and tally, over the objects every pass shares. */
  method RunOnce(config: Config, source: Source.DbSource, clock: Clock, audit: Audit, sink: Sink,
                 lockstep: Lockstep?, tf: TfFilter?, recorder: SelfPublished?)
      returns (r: Result<Tally>, ghost account: Account)
    requires Wired(config, clock, sink, lockstep, tf, recorder)
    requires Shared(config, clock, audit, lockstep, tf, recorder)
    requires source.Valid() && |source.tables| == |config.streams|
    requires forall i :: 0 <= i < |source.tables| ==> Source.Ordered(source.Queues()[i])
    modifies clock, audit, audit.ahead, audit.backwards, audit.doubled, audit.split, sink, source
    modifies if lockstep != null then {lockstep as object} else {}
    modifies if tf != null then {tf as object} else {}
    modifies if recorder != null then {recorder as object} else {}
    ensures Shared(config, clock, audit, lockstep, tf, recorder) && source.Valid()
    ensures config.Vouches(old(Marks(sink, audit, lockstep, tf, recorder)), account, old(source.Left()), source.blob)
    ensures account.start == State(Unset(config.args), old(OutstandingOf(lockstep)))
    ensures old(clock.tick) == account.began && Until(account) <= clock.tick
    ensures OutstandingOf(lockstep) == Final(account).outstanding
    ensures Marks(sink, audit, lockstep, tf, recorder)
         == config.After(old(Marks(sink, audit, lockstep, tf, recorder)), account.turns)
    ensures r.Ok? ==> Complete(account.turns, old(source.Left())) && r.value == config.TallyOf(account.turns)
    ensures r.Err? ==> Stopped(account.turns, old(source.Left()), source.blob)
    ensures Answered(clock, sink, lockstep, old(Marks(sink, audit, lockstep, tf, recorder)))
  {
    hide Pacer.Valid, Audit.Valid, Lockstep.Valid, SelfPublished.Valid, TfFilter.Valid, LcmCodec.Lawful,
      NotesOf, OnStream, Complete, Stopped, Config.Vouches, Source.DbSource.Valid, Source.DbSource.Left,
      Source.DbSource.Queues, Source.Ordered, Config.Tells;
    var pacer := new Pacer(config.args, clock);
    var pass := new Pass(config, pacer, audit, sink, lockstep, tf, recorder);
    var run := pass.Run(source);
    account := pass.account;
    r := if run.Err? then Err else Ok(pass.tally);
  }

  /** Where passes that left these accounts, and began with `o` and `outstanding`, have brought the shared objects. */
  ghost predicate Looped(config: Config, clock: Clock, audit: Audit, sink: Sink, lockstep: Lockstep?, tf: TfFilter?,
                         recorder: SelfPublished?, began: nat, o: Observed, outstanding: Option<Outstanding>,
                         accounts: seq<Account>, all: seq<Source.Item>, blob: (nat, int) -> Option<seq<byte>>)
    reads clock, sink, audit, audit.ahead, audit.backwards, audit.doubled, audit.split
    reads if lockstep != null then {lockstep as object} else {}
    reads if tf != null then {tf as object} else {}
    reads if recorder != null then {recorder as object} else {}
  {
    && Shared(config, clock, audit, lockstep, tf, recorder)
    && AllVouch(config, began, o, outstanding, accounts, all, blob)
    && Marks(sink, audit, lockstep, tf, recorder) == AllAfter(config, o, accounts)
    && OutstandingOf(lockstep) == Carried(outstanding, accounts)
    && clock.tick >= (if accounts == [] then began else Until(accounts[|accounts| - 1]))
  }

  /** One pass more. */
  method Again(config: Config, source: Source.DbSource, clock: Clock, audit: Audit, sink: Sink,
               lockstep: Lockstep?, tf: TfFilter?, recorder: SelfPublished?, ghost began: nat, ghost o: Observed,
               ghost outstanding: Option<Outstanding>, ghost accounts: seq<Account>, ghost all: seq<Source.Item>)
      returns (r: Result<Tally>, ghost account: Account)
    requires Wired(config, clock, sink, lockstep, tf, recorder)
    requires Looped(config, clock, audit, sink, lockstep, tf, recorder, began, o, outstanding, accounts, all,
                    source.blob)
    requires source.Opened() && |source.tables| == |config.streams| && source.Left() == all
    modifies clock, audit, audit.ahead, audit.backwards, audit.doubled, audit.split, sink, source
    modifies if lockstep != null then {lockstep as object} else {}
    modifies if tf != null then {tf as object} else {}
    modifies if recorder != null then {recorder as object} else {}
    ensures source.Valid() && Fitting(config, accounts) && Fitting(config, accounts + [account])
    ensures Looped(config, clock, audit, sink, lockstep, tf, recorder, began, o, outstanding, accounts + [account], all,
                   source.blob)
    ensures r.Ok? ==> Complete(account.turns, all)
    ensures r.Ok? ==> Total(config, accounts + [account]) == Plus(Total(config, accounts), r.value)
    ensures r.Err? ==> Stopped(account.turns, all, source.blob)
  {
    hide AllAfter, Total, Complete, Stopped, Marks, Shared, Wired, OnStream, Config.Vouches, LcmCodec.Lawful,
      Source.DbSource.Valid, Source.DbSource.Left, Source.DbSource.Queues, Source.DbSource.Opened, Source.Ordered,
      AllVouch, Answered, Fitting, Until, Unset;
    LoopedFits(config, began, o, outstanding, accounts, all, source.blob);
    source.FreshlyOpened();
    r, account := RunOnce(config, source, clock, audit, sink, lockstep, tf, recorder);
    OneAccountMore(config, began, o, outstanding, accounts, all, source.blob, account);
  }

  /**
    `--loop`: pass after pass over the same source, rewound in between, each with its own anchor
    and rate, all of them with the same gate, filter, audit, recorder and sink. Stops after
    `passes` of them, or at the first error, whose pass is not counted in the total.
   */
  method ReplayAll(config: Config, source: Source.DbSource, passes: nat, clock: Clock, audit: Audit, sink: Sink,
                   lockstep: Lockstep?, tf: TfFilter?, recorder: SelfPublished?)
      returns (ok: bool, total: Tally, ghost accounts: seq<Account>)
    requires Wired(config, clock, sink, lockstep, tf, recorder)
    requires Shared(config, clock, audit, lockstep, tf, recorder)
    requires source.Opened() && |source.tables| == |config.streams|
    modifies clock, audit, audit.ahead, audit.backwards, audit.doubled, audit.split, sink, source
    modifies if lockstep != null then {lockstep as object} else {}
    modifies if tf != null then {tf as object} else {}
    modifies if recorder != null then {recorder as object} else {}
    ensures Looped(config, clock, audit, sink, lockstep, tf, recorder, old(clock.tick),
                   old(Marks(sink, audit, lockstep, tf, recorder)), old(OutstandingOf(lockstep)), accounts,
                   old(source.Left()), source.blob)
    ensures ok ==> |accounts| == passes && total == Total(config, accounts)
    ensures !ok ==> 0 < |accounts| <= passes && total == Total(config, accounts[..|accounts| - 1])
                    && Stopped(accounts[|accounts| - 1].turns, old(source.Left()), source.blob)
    ensures forall k :: 0 <= k < (if ok then |accounts| else |accounts| - 1) ==>
              Complete(accounts[k].turns, old(source.Left()))
    ensures Answered(clock, sink, lockstep, old(Marks(sink, audit, lockstep, tf, recorder)))
  {
    hide AllAfter, Total, Complete, Stopped, Marks, Shared, Wired, OnStream, LcmCodec.Lawful, Fitting, Looped, Answered,
      Source.DbSource.Valid, Source.DbSource.Left, Source.DbSource.Queues, Source.DbSource.Opened, Source.Ordered;
    source.FreshlyOpened();
    ghost var all, began := source.Left(), clock.tick;
    ghost var o, out := Marks(sink, audit, lockstep, tf, recorder), OutstandingOf(lockstep);
    total := Tally(0, 0, 0);
    accounts := [];
    NothingReplayed(config, clock, audit, sink, lockstep, tf, recorder, all, source.blob);
    for n := 0 to passes
      invariant source.Valid() && (n < passes ==> source.Opened())
      invariant |accounts| == n && Fitting(config, accounts) && total == Total(config, accounts)
      invariant Looped(config, clock, audit, sink, lockstep, tf, recorder, began, o, out, accounts, all, source.blob)
      invariant forall k :: 0 <= k < n ==> Complete(accounts[k].turns, all)
    {
      source.FreshlyOpened();
      var pass, account := Again(config, source, clock, audit, sink, lockstep, tf, recorder, began, o, out,
                                 accounts, all);
      assert (accounts + [account])[..n] == accounts;
      accounts := accounts + [account];
      if pass.Err? {
        LoopedIsAnswered(config, clock, audit, sink, lockstep, tf, recorder, began, o, out, accounts, all, source.blob);
        return false, total, accounts;
      }
      total := Plus(total, pass.value);
      if n + 1 < passes { source.Rewind(); }
    }
    LoopedIsAnswered(config, clock, audit, sink, lockstep, tf, recorder, began, o, out, accounts, all, source.blob);
    return true, total, accounts;
  }

  lemma NothingReplayed(config: Config, clock: Clock, audit: Audit, sink: Sink, lockstep: Lockstep?, tf: TfFilter?,
                        recorder: SelfPublished?, all: seq<Source.Item>, blob: (nat, int) -> Option<seq<byte>>)
    requires Wired(config, clock, sink, lockstep, tf, recorder)
    requires Shared(config, clock, audit, lockstep, tf, recorder)
    ensures Looped(config, clock, audit, sink, lockstep, tf, recorder, clock.tick,
                   Marks(sink, audit, lockstep, tf, recorder), OutstandingOf(lockstep), [], all, blob)
    ensures Fitting(config, []) && Total(config, []) == Tally(0, 0, 0)
  {
    hide Audit.Valid, SelfPublished.Valid, TfFilter.Valid, LcmCodec.Lawful, NotesOf;
  }

  lemma LoopedIsAnswered(config: Config, clock: Clock, audit: Audit, sink: Sink, lockstep: Lockstep?, tf: TfFilter?,
                         recorder: SelfPublished?, began: nat, o: Observed, outstanding: Option<Outstanding>,
                         accounts: seq<Account>, all: seq<Source.Item>, blob: (nat, int) -> Option<seq<byte>>)
    requires Wired(config, clock, sink, lockstep, tf, recorder)
    requires Looped(config, clock, audit, sink, lockstep, tf, recorder, began, o, outstanding, accounts, all, blob)
    ensures Answered(clock, sink, lockstep, o)
  {
    hide Audit.Valid, Lockstep.Valid, SelfPublished.Valid, TfFilter.Valid, NotesOf, AllVouch, AllAfter, Fitting,
      OnStream;
    LoopedFits(config, began, o, outstanding, accounts, all, blob);
    if lockstep != null {
      lockstep.GatesAreAnswered(clock.tick);
      AllGatesAreMessages(config, o, accounts);
    }
  }

  predicate NotedNext(before: seq<Event>, after: seq<Event>, key: Key) {
    |after| == |before| + 1 && before <= after && after[|before|].Noted? && after[|before|].key == key
  }

  lemma NextNote(before: seq<Event>, after: seq<Event>, key: Key)
    requires NotedNext(before, after, key)
    ensures NotesOf(after) == NotesOf(before) + [key]
  {
    assert after == before + [after[|before|]];
    OneNoteMore(before, after[|before|]);
  }
}
