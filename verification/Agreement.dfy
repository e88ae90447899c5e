/**
  Replaying and recording at once: what the replay notes when it publishes is what the
  recorder asks about when the transport hands the message back.
 */
module Agreement {
  import opened Prelude
  import opened Clocks
  import opened Stamps
  import opened Naming
  import Accounts
  import Auditing
  import Cdr
  import Layouts
  import Lockstepping
  import Loopback
  import Messages
  import Pacing
  import Recording
  import Replay
  import TfFiltering
  import TypeNames

  /** How the program names a replayed stream and where it looks for its stamp. */
  predicate NamedAs(info: Accounts.StreamInfo, prefix: string, published: string, separator: char) {
    && info.channel == Name(prefix, published, info.msgName, separator)
    && info.support == SupportFor(info.msgName) && separator in {'#', '/'}
  }

  /** A payload shows the same stamp under the type read off its channel as under its own. */
  predicate ShowsOneStamp(lcm: Cdr.LcmCodec, info: Accounts.StreamInfo, published: string, separator: char,
                          data: seq<byte>)
  {
    KeyStamp(lcm, DeliveredType(published, info.msgName, separator), data) == KeyStamp(lcm, info.msgName, data)
  }

  /** The key a replayed stream notes is the one the recorder computes from the same bytes, exactly in that case. */
  lemma OwnKeyIsDeliveredIff(config: Accounts.Config, stream: nat, prefix: string, published: string,
                             separator: char, data: seq<byte>)
    requires stream < |config.streams| && NamedAs(config.streams[stream], prefix, published, separator)
    ensures KeyWhenDelivered(config.lcm, prefix, config.streams[stream].channel, separator, data)
            == config.KeyOf(stream, data)
       <==> ShowsOneStamp(config.lcm, config.streams[stream], published, separator, data)
  {
    hide SupportFor, StampOf, SplitChannel, MistakenType;
    KeysAgreeIff(config.lcm, prefix, published, config.streams[stream].msgName, separator, data);
  }

  /** What a replay notes of a message of one of the twelve types: its channel, and the time its bytes show, or 0. */
  lemma NotedAsShown(config: Accounts.Config, stream: nat, t: Messages.MsgType, data: seq<byte>)
    requires stream < |config.streams| && config.streams[stream].support == SupportFor(TypeNames.TypeName(t))
    ensures var shown := Layouts.TimeShown(config.lcm, t, data);
            config.KeyOf(stream, data) == (config.streams[stream].channel, if shown.Some? then shown.value else 0)
  {
    hide SupportFor, StampOf, TypeNames.TypeName, Layouts.TimeShown;
    Layouts.StampIsShown(config.lcm, t, data);
  }

  /** What else passes through the recorder: other notes, and other deliveries it asks about. */
  datatype Traffic = OtherNote(key: Loopback.Key) | OtherDelivery(key: Loopback.Key)

  method Meanwhile(ours: Loopback.SelfPublished, clock: Clock, traffic: seq<Traffic>)
    requires clock.Valid() && ours.Valid(clock.Latest())
    modifies ours, clock
    ensures clock.Valid() && ours.Valid(clock.Latest()) && old(ours.history) <= ours.history
  {
    hide Loopback.SelfPublished.Valid;
    for i := 0 to |traffic|
      invariant clock.Valid() && ours.Valid(clock.Latest()) && old(ours.history) <= ours.history
    {
      match traffic[i] {
        case OtherNote(key) => ours.Note(clock, key);
        case OtherDelivery(key) => var _ := ours.Claims(clock, key);
      }
    }
  }

  /** What is heard of a channel is asked about under its key if it is wanted, and captured unless claimed. */
  predicate HeardAs(wanted: bool, history: seq<Loopback.Event>, note: nat, now: real, key: Loopback.Key,
                    dropped: bool)
  {
    if !wanted then dropped
    else
      && note + 1 < |history| && history[|history| - 1] == Loopback.Delivered(now, key)
      && (dropped <==> Loopback.Dropped(history, |history| - 1))
  }

  /** Less than ten seconds after a note that repeated no older live one, its message is dropped. */
  predicate NotCapturedWithin(history: seq<Loopback.Event>, note: nat, now: real, dropped: bool)
    requires note < |history| && history[note].Noted?
  {
    !Loopback.Repeats(history, note) && Loopback.Fresh(history[note].at, now) ==> dropped
  }

  /** What comes back within the window of a note of its key that is on record is not captured. */
  method HearOwn(lcm: Cdr.LcmCodec, ours: Loopback.SelfPublished, clock: Clock, traffic: seq<Traffic>,
                 wants: string -> bool, prefix: string, separator: char, channel: string, data: seq<byte>,
                 ghost note: nat)
      returns (captured: Option<Recording.Captured>)
    requires clock.Valid() && ours.Valid(clock.Latest())
    requires note < |ours.history| && ours.history[note].Noted?
    modifies ours, clock
    ensures old(ours.history) <= ours.history && ours.Valid(clock.Latest()) && clock.Valid()
    ensures HeardAs(wants(SplitChannel(channel, prefix, separator).0), ours.history, note, clock.Latest(),
                    KeyWhenDelivered(lcm, prefix, channel, separator, data), captured.None?)
    ensures ours.history[note].key == KeyWhenDelivered(lcm, prefix, channel, separator, data) ==>
              NotCapturedWithin(ours.history, note, clock.Latest(), captured.None?)
  {
    hide Loopback.SelfPublished.Valid, SplitChannel, KeyWhenDelivered, Loopback.AcceptedAfter,
      Loopback.Repeats, Loopback.Dropped, StampOf, SupportFor, Loopback.InOrder;
    ghost var noted := ours.history;
    Meanwhile(ours, clock, traffic);
    captured := Recording.Hear(lcm, ours, clock, wants, prefix, separator, channel, data);
    ghost var history := ours.history;
    assert history[note] == noted[note];
    InOrderNow(ours, clock);
    if captured.Some? && !Loopback.Repeats(history, note) && Loopback.Fresh(history[note].at, clock.Latest())
       && history[note].key == KeyWhenDelivered(lcm, prefix, channel, separator, data) {
      Loopback.OwnMessagesAreDropped(history, note, |history| - 1);
    }
  }

  /**
    A message is noted under its key, published, and handed back over the same channel. Whatever
    notes, expiries and deliveries come in between, a wanted one is captured exactly when its key
    as delivered is not claimed by then; and it is not captured less than ten seconds after the
    note, unless that note repeated an older live one or the payload shows two different stamps.
   */
  method OwnMessageIsNotCaptured(pass: Replay.Pass, record: Accounts.Record, data: seq<byte>,
                                 prefix: string, published: string, separator: char,
                                 traffic: seq<Traffic>, wants: string -> bool)
      returns (captured: Option<Recording.Captured>, ghost note: nat)
    requires pass.Valid() && pass.recorder != null && record.stream < |pass.config.streams|
    requires Accounts.Settled(pass.pacer.Set()) && pass.clock.tick >= 2 && pass.pacer.frontier == record.ts
    requires pass.pacer.args.rate > 0.0 ==> pass.pacer.Due(record.ts)
    requires pass.config.Gated(record) ==> Replay.OutstandingOf(pass.lockstep).None?
    requires NamedAs(pass.config.streams[record.stream], prefix, published, separator)
    modifies pass`tally, pass.pacer, pass.clock, pass.sink, pass.recorder
    modifies if pass.lockstep != null then {pass.lockstep as object} else {}
    ensures note == |old(pass.recorder.history)| < |pass.recorder.history|
    ensures pass.recorder.history[note].Noted?
    ensures pass.recorder.history[note].key == pass.config.KeyOf(record.stream, data)
    ensures var channel := pass.config.streams[record.stream].channel;
            HeardAs(wants(SplitChannel(channel, prefix, separator).0), pass.recorder.history, note, pass.clock.Latest(),
                    KeyWhenDelivered(pass.config.lcm, prefix, channel, separator, data), captured.None?)
    ensures ShowsOneStamp(pass.config.lcm, pass.config.streams[record.stream], published, separator, data) ==>
              NotCapturedWithin(pass.recorder.history, note, pass.clock.Latest(), captured.None?)
  {
    hide Loopback.SelfPublished.Valid, SplitChannel, KeyWhenDelivered, NamedAs, HeardAs, NotCapturedWithin,
      StampOf, SupportFor, Pacing.Pacer.Valid, Auditing.Audit.Valid, TfFiltering.TfFilter.Valid,
      Lockstepping.Lockstep.Valid, Cdr.LcmCodec.Lawful, Replay.NotesOf, Accounts.Config.KeyOf, ShowsOneStamp;
    var channel := pass.config.streams[record.stream].channel;
    note := |pass.recorder.history|;
    OwnKeyIsDeliveredIff(pass.config, record.stream, prefix, published, separator, data);
    var _ := pass.Send(record, data);
    captured := HearOwn(pass.config.lcm, pass.recorder, pass.clock, traffic, wants, prefix, separator, channel, data,
                        note);
  }

  lemma InOrderNow(ours: Loopback.SelfPublished, clock: Clock)
    requires ours.Valid(clock.Latest())
    ensures Loopback.InOrder(ours.history)
  {
  }
}
