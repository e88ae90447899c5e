/**
  What `--stamps` does to the messages of a pass (`replay_once` in src/main.rs), told from the
  records pulled and the looks at the clock alone: where the clocks were pinned, and what time
  every stamp that went out shows.
 */
module Restamping {
  import opened Prelude
  import opened Messages
  import opened Cdr
  import opened Stamps
  import opened Lockstepping
  import opened Pacing
  import opened Accounts
  import opened AccountLaws
  import opened TfFiltering

  // ------------------------------------------------------------ where the clocks were pinned

  /**
    A recording time pinned to two looks at the clock, the one that paces and the one that stamps
    are measured from, and the rate from there on.
   */
  datatype Pin = Pin(recorded: real, wallLook: nat, seenLook: nat, rate: real)

  /** The first record with a wire form pins `--start` after itself to the two looks it begins with. */
  ghost function FirstPinOf(config: Config, turns: seq<Turn>): Option<Pin>
    requires config.AllFit(turns)
  {
    if turns == [] then None
    else
      var first, t := FirstPinOf(config, turns[..|turns| - 1]), turns[|turns| - 1];
      assert config.Fits(t);
      if first.Some? || config.streams[t.record.stream].unsupported then first
      else Some(Pin(t.record.ts + config.args.start, t.from + 1, t.from,
                    if config.args.rate == 0.0 then 1.0 else config.args.rate))
  }

  /** Every gate released since pins itself to two looks after its wait, at the rate that left. */
  ghost function PinOf(config: Config, turns: seq<Turn>): Option<Pin>
    requires config.AllFit(turns)
  {
    if turns == [] then None
    else
      var t := turns[|turns| - 1];
      assert config.Fits(t);
      if WasReleased(t) && config.gate.Some? && config.gate.value.stream == t.record.stream then
        var look := t.after.setting.anchor.value.look;
        Some(Pin(t.record.ts, look, look + 1, t.after.setting.rate))
      else
        var before := PinOf(config, turns[..|turns| - 1]);
        if before.Some? then before else FirstPinOf(config, turns)
  }

  /** A setting is what these pins make of it. */
  ghost predicate SetBy(config: Config, s: Setting, first: Option<Pin>, pin: Option<Pin>) {
    && (s.anchor.Some? <==> pin.Some?) && (s.base.Some? <==> first.Some?) && (first.Some? <==> pin.Some?)
    && if first.None? then s.rate == if config.args.rate == 0.0 then 1.0 else config.args.rate
       else
         && s.base.value == first.value.recorded
         && s.firstWallNs == SecondsToNanos(config.at(first.value.seenLook))
         && s.anchor.value.recorded == pin.value.recorded && s.rate == pin.value.rate
         && s.anchor.value.wall == config.at(pin.value.wallLook)
         && s.anchor.value.seen == config.at(pin.value.seenLook)
         && s.anchor.value.wallNs == SecondsToNanos(config.at(pin.value.seenLook))
  }

  /** The pins one turn leaves. */
  lemma TurnPins(config: Config, s: State, out: nat, front: seq<Turn>, t: Turn)
    requires config.lcm.Lawful() && config.Turned(s, out, t) && config.AllFit(front) && config.AllFit(front + [t])
    requires SetBy(config, s.setting, FirstPinOf(config, front), PinOf(config, front))
    ensures SetBy(config, t.after.setting, FirstPinOf(config, front + [t]), PinOf(config, front + [t]))
    ensures WasReleased(t) ==> config.Fits(t) && PinOf(config, front + [t]).Some?
                               && config.InTime(t.after.setting, t.record, t.fate, t.to)
    ensures WasReleased(t) && config.Gated(t.record) ==>
              t.from <= PinOf(config, front + [t]).value.wallLook
              && PinOf(config, front + [t]).value.seenLook < t.to
  {
    hide Config.FateOf, SecondsToNanos, WaitedAs, MappingOf, Config.InTime, Config.HandedOn;
    assert (front + [t])[..|front|] == front;
    config.TurnFits(s, out, t);
  }

  /** The turns up to and with turn `i`. */
  function UpTo(turns: seq<Turn>, i: nat): (r: seq<Turn>)
    requires i < |turns|
    ensures r != [] && r[|r| - 1] == turns[i]
  {
    turns[..i + 1]
  }

  /** Every turn of a pass leaves the setting its pins make, and is released no earlier than that allows. */
  lemma {:induction false} SettingsArePins(config: Config, o: Observed, a: Account)
    requires config.lcm.Lawful() && |config.streams| == |o.samples| && config.Tells(o, a)
    requires a.start.setting == Unset(config.args)
    ensures SetBy(config, Final(a).setting, FirstPinOf(config, a.turns), PinOf(config, a.turns))
    ensures forall i :: 0 <= i < |a.turns| ==> PinnedAsTold(config, UpTo(a.turns, i))
    decreases |a.turns|
  {
    hide Config.Turned, Config.Applied, SetBy, PinnedAsTold;
    if a.turns == [] {
      assert SetBy(config, Final(a).setting, None, None) by { UnsetHasNoPins(config); }
    } else {
      var front, t := a.(turns := a.turns[..|a.turns| - 1]), a.turns[|a.turns| - 1];
      SettingsArePins(config, o, front);
      assert a.turns == front.turns + [t];
      TurnPins(config, Final(front), |config.After(o, front.turns).out|, front.turns, t);
      forall i | 0 <= i < |a.turns|
        ensures PinnedAsTold(config, UpTo(a.turns, i))
      {
        if i < |front.turns| {
          assert UpTo(a.turns, i) == UpTo(front.turns, i);
        } else {
          assert UpTo(a.turns, i) == a.turns;
          LastIsPinned(config, a.turns);
        }
      }
    }
  }

  lemma UnsetHasNoPins(config: Config)
    ensures SetBy(config, Unset(config.args), None, None)
  {
  }

  /** The last of these turns left the setting that the pins make, and was released in time by it. */
  ghost predicate PinnedAsTold(config: Config, turns: seq<Turn>) {
    && turns != [] && config.AllFit(turns)
    && var t := turns[|turns| - 1];
       && SetBy(config, t.after.setting, FirstPinOf(config, turns), PinOf(config, turns))
       && (WasReleased(t) ==> PinOf(config, turns).Some?
                              && config.Fits(t) && config.InTime(t.after.setting, t.record, t.fate, t.to))
       && (WasReleased(t) && config.Gated(t.record) ==>
             t.from <= PinOf(config, turns).value.wallLook && PinOf(config, turns).value.seenLook < t.to)
  }

  lemma LastIsPinned(config: Config, turns: seq<Turn>)
    requires turns != [] && config.AllFit(turns)
    requires var t := turns[|turns| - 1];
             && SetBy(config, t.after.setting, FirstPinOf(config, turns), PinOf(config, turns))
             && (WasReleased(t) ==> PinOf(config, turns).Some?
                                    && config.Fits(t) && config.InTime(t.after.setting, t.record, t.fate, t.to))
             && (WasReleased(t) && config.Gated(t.record) ==>
                   t.from <= PinOf(config, turns).value.wallLook && PinOf(config, turns).value.seenLook < t.to)
    ensures PinnedAsTold(config, turns)
  {
  }

  // ------------------------------------------------------------ the rates a pass goes at

  /** The gate that is out: the last one that was published, unless a later one was not. */
  ghost function OutOf(config: Config, start: Option<Outstanding>, turns: seq<Turn>): Option<Outstanding>
    requires config.AllFit(turns)
  {
    if turns == [] then start
    else
      var t := turns[|turns| - 1];
      assert config.Fits(t);
      if !WasReleased(t) || config.gate.None? || config.gate.value.stream != t.record.stream then
        OutOf(config, start, turns[..|turns| - 1])
      else if t.fate == Ok(Published) then
        Some(Outstanding(config.gate.value.count(t.to), config.at(t.to - 1), t.record.ts))
      else None
  }

  ghost function RateOf(config: Config, turns: seq<Turn>): real
    requires config.AllFit(turns)
  {
    var pin := PinOf(config, turns);
    if pin.Some? then pin.value.rate else if config.args.rate == 0.0 then 1.0 else config.args.rate
  }

  /**
    After the last of these turns the rate is as before, eased towards the pace of the reply if it is an
    answered gate.
   */
  ghost predicate RateFollows(config: Config, start: Option<Outstanding>, turns: seq<Turn>) {
    && turns != [] && config.AllFit(turns) && config.AllFit(turns[..|turns| - 1])
    && var front, t := turns[..|turns| - 1], turns[|turns| - 1];
       var gate := OutOf(config, start, front);
       if WasReleased(t) && config.gate.Some? && config.gate.value.stream == t.record.stream && gate.Some?
          && !t.timedOut
       then
         && PinOf(config, turns).Some?
         && Eased(RateOf(config, front), t.record.ts - gate.value.recordedTs, gate.value.publishedAt,
                  config.gate.value.latest(PinOf(config, turns).value.wallLook), RateOf(config, turns))
       else RateOf(config, turns) == RateOf(config, front)
  }

  lemma TurnRates(config: Config, s: State, out: nat, start: Option<Outstanding>, front: seq<Turn>, t: Turn)
    requires config.lcm.Lawful() && config.Turned(s, out, t) && config.AllFit(front) && config.AllFit(front + [t])
    requires SetBy(config, s.setting, FirstPinOf(config, front), PinOf(config, front))
    requires s.outstanding == OutOf(config, start, front)
    ensures t.after.outstanding == OutOf(config, start, front + [t])
    ensures RateFollows(config, start, front + [t])
  {
    hide Config.FateOf, SecondsToNanos, MappingOf, Config.InTime, WaitedAs, Eased;
    assert (front + [t])[..|front|] == front;
    config.TurnFits(s, out, t);
    if WasReleased(t) && config.Gated(t.record) {
      var gate := config.gate.value;
      var setting, begun := config.Begun(s.setting, t.record, t.from), config.BegunBy(s.setting, t.record, t.from);
      WaitEases(config.at, gate.count, gate.latest, gate.timeout, s.outstanding, t.timedOut, begun,
                t.after.setting.anchor.value.look, t.record.ts, setting.rate, t.after.setting.rate);
    }
  }

  /** At every turn of a pass the rate follows the replies, also to a gate that a pass before left out. */
  lemma {:induction false} RatesFollowReplies(config: Config, o: Observed, a: Account)
    requires config.lcm.Lawful() && |config.streams| == |o.samples| && config.Tells(o, a)
    requires a.start.setting == Unset(config.args)
    ensures Final(a).outstanding == OutOf(config, a.start.outstanding, a.turns)
    ensures forall i :: 0 <= i < |a.turns| ==> RateFollows(config, a.start.outstanding, UpTo(a.turns, i))
    decreases |a.turns|
  {
    hide Config.Turned, Config.Applied, SetBy, PinnedAsTold, RateFollows, FirstPinOf, PinOf, Config.Fits;
    if a.turns != [] {
      var front, t := a.(turns := a.turns[..|a.turns| - 1]), a.turns[|a.turns| - 1];
      RatesFollowReplies(config, o, front);
      SettingsArePins(config, o, front);
      assert a.turns == front.turns + [t];
      TurnRates(config, Final(front), |config.After(o, front.turns).out|, a.start.outstanding, front.turns, t);
      forall i | 0 <= i < |a.turns|
        ensures RateFollows(config, a.start.outstanding, UpTo(a.turns, i))
      {
        if i < |front.turns| {
          assert UpTo(a.turns, i) == UpTo(front.turns, i);
        } else {
          assert UpTo(a.turns, i) == a.turns;
        }
      }
    }
  }

  // ------------------------------------------------------------ what the stamps show

  /** The time `ns` that a recording time `own` is shown as. */
  ghost predicate Lands(config: Config, first: Pin, pin: Pin, own: int, ns: int) {
    match config.args.stamps
    case OriginalStamps => ns == own
    case ShiftedStamps =>
      ns == own + SecondsToNanos(config.at(first.seenLook)) - SecondsToNanos(first.recorded)
    case ScaledStamps =>
      && pin.rate > 0.0
      && var wall := SecondsToNanos(config.at(pin.seenLook));
         -0.5 <= (ns - wall) as real - (own - SecondsToNanos(pin.recorded)) as real / pin.rate <= 0.5
  }

  /** These parts spell `ns`: nothing at all from zero down, and past 2^31 s the last second there is. */
  predicate Spells(sec: i32, nsec: i32, ns: int) {
    if ns <= 0 then sec == 0 && nsec == 0
    else
      && 0 <= nsec < 1_000_000_000
      && if ns < 0x8000_0000 * 1_000_000_000 then sec * 1_000_000_000 + nsec == ns
         else sec == 0x7FFF_FFFF && (ns - nsec) % 1_000_000_000 == 0
  }

  /** These parts spell where a recording time lands. */
  ghost predicate PartsLand(config: Config, first: Pin, pin: Pin, own: int, sec: i32, nsec: i32) {
    exists ns :: Lands(config, first, pin, own, ns) && Spells(sec, nsec, ns)
  }

  /** A payload with one stamp: nothing else changes, and the stamp lands where its own time or reception does. */
  ghost predicate FixedLands(config: Config, first: Pin, pin: Pin, offset: nat, wire: seq<byte>, sent: seq<byte>,
                             receivedNs: int)
  {
    && offset + 8 <= |wire| == |sent|
    && sent[..offset] == wire[..offset] && sent[offset + 8..] == wire[offset + 8..]
    && PartsLand(config, first, pin, TimeAt(wire, offset, receivedNs),
                 ReadI32(sent[offset..offset + 4]), ReadI32(sent[offset + 4..offset + 8]))
  }

  /** One transform: nothing else changes, and its stamp lands where its own time or reception does. */
  ghost predicate TransformLands(config: Config, first: Pin, pin: Pin, before: TransformStamped,
                                 after: TransformStamped, receivedNs: int)
  {
    && after.childFrameId == before.childFrameId && after.transform == before.transform
    && after.header.seqNo == before.header.seqNo && after.header.frameId == before.header.frameId
    && var stamp := before.header.stamp;
       PartsLand(config, first, pin, OwnTime(stamp.sec, stamp.nsec, receivedNs),
                 after.header.stamp.sec, after.header.stamp.nsec)
  }

  ghost predicate TfLands(config: Config, first: Pin, pin: Pin, wire: seq<byte>, sent: seq<byte>, receivedNs: int) {
    var before, after := config.lcm.decode(Tf2TFMessage, wire), config.lcm.decode(Tf2TFMessage, sent);
    && before.Some? && before.value.MTFMessage? && after.Some? && after.value.MTFMessage?
    && |after.value.tfMessage.transforms| == |before.value.tfMessage.transforms|
    && forall i :: 0 <= i < |before.value.tfMessage.transforms| ==>
         TransformLands(config, first, pin, before.value.tfMessage.transforms[i],
                        after.value.tfMessage.transforms[i], receivedNs)
  }

  /** What goes out of a payload: itself where nothing is restamped, and otherwise it with its stamps moved. */
  ghost predicate PayloadLands(config: Config, first: Pin, pin: Pin, support: Support, wire: seq<byte>,
                               sent: seq<byte>, receivedNs: int)
  {
    if config.args.stamps.OriginalStamps? then sent == wire
    else
      match support
      case Unstamped => sent == wire
      case Fixed(offset) => FixedLands(config, first, pin, offset, wire, sent, receivedNs)
      case TfStamps => TfLands(config, first, pin, wire, sent, receivedNs)
  }

  /** The mapping a setting makes, as these pins have it. */
  lemma MappedByPins(config: Config, s: Setting, first: Pin, pin: Pin, own: int)
    requires SetBy(config, s, Some(first), Some(pin)) && s.rate > 0.0
    ensures MappingOf(config.args, s).Valid()
    ensures MappingOf(config.args, s).Original? <==> config.args.stamps.OriginalStamps?
    ensures Lands(config, first, pin, own, MappingOf(config.args, s).Map(own))
  {
    hide SecondsToNanos, Round;
    RoundIsNear((own - SecondsToNanos(s.anchor.value.recorded)) as real / s.rate);
  }

  lemma PartsAreSpelt(ns: int)
    ensures Spells(NanosToParts(ns).0, NanosToParts(ns).1, ns)
  {
  }

  lemma OneStampLands(config: Config, s: Setting, first: Pin, pin: Pin, own: int)
    requires SetBy(config, s, Some(first), Some(pin)) && s.rate > 0.0
    ensures var r := MappingOf(config.args, s);
            r.Valid() && PartsLand(config, first, pin, own, NanosToParts(r.Map(own)).0, NanosToParts(r.Map(own)).1)
  {
    hide NanosToParts, Spells, Lands, SetBy, Retimer.Map, MappingOf;
    assert s.anchor.Some? && s.base.Some? by { SetIsSettled(config, s, first, pin); }
    MappedByPins(config, s, first, pin, own);
    PartsAreSpelt(MappingOf(config.args, s).Map(own));
  }

  lemma SetIsSettled(config: Config, s: Setting, first: Pin, pin: Pin)
    requires SetBy(config, s, Some(first), Some(pin))
    ensures s.anchor.Some? && s.base.Some?
  {
  }

  lemma FixedIsMoved(config: Config, s: Setting, first: Pin, pin: Pin, offset: nat, wire: seq<byte>, receivedNs: int)
    requires SetBy(config, s, Some(first), Some(pin)) && s.rate > 0.0 && offset + 8 <= |wire|
    ensures var r := MappingOf(config.args, s);
            r.Valid() && FixedLands(config, first, pin, offset, wire,
                                    Stamped(wire, offset, r.Map(TimeAt(wire, offset, receivedNs))), receivedNs)
  {
    hide NanosToParts, PartsLand, SetBy, Retimer.Map, MappingOf, TimeAt, ReadI32, BigI32;
    SetIsSettled(config, s, first, pin);
    var own := TimeAt(wire, offset, receivedNs);
    OneStampLands(config, s, first, pin, own);
    var sent := Stamped(wire, offset, MappingOf(config.args, s).Map(own));
    StampedParts(wire, offset, MappingOf(config.args, s).Map(own));
    assert sent[..offset] == wire[..offset];
    assert sent[offset + 8..] == wire[offset + 8..];
  }

  lemma TransformIsMoved(config: Config, s: Setting, first: Pin, pin: Pin, t: TransformStamped, receivedNs: int)
    requires SetBy(config, s, Some(first), Some(pin)) && s.rate > 0.0
    ensures var r := MappingOf(config.args, s);
            r.Valid() && TransformLands(config, first, pin, t, Restamped(r, t, receivedNs), receivedNs)
  {
    hide NanosToParts, PartsLand, SetBy, Retimer.Map, MappingOf;
    SetIsSettled(config, s, first, pin);
    OneStampLands(config, s, first, pin, OwnTime(t.header.stamp.sec, t.header.stamp.nsec, receivedNs));
  }

  lemma TfIsMoved(config: Config, s: Setting, first: Pin, pin: Pin, wire: seq<byte>, receivedNs: int,
                  sent: seq<byte>, substituted: bool)
    requires config.lcm.Lawful() && SetBy(config, s, Some(first), Some(pin)) && s.rate > 0.0
    requires !config.args.stamps.OriginalStamps? && s.anchor.Some? && s.base.Some?
    requires MappingOf(config.args, s).Valid()
    requires Retimed(MappingOf(config.args, s), config.lcm, TfStamps, wire, receivedNs) == Ok((sent, substituted))
    ensures TfLands(config, first, pin, wire, sent, receivedNs)
  {
    hide SetBy, Restamped, TransformLands, Substituted, Retimer.Map;
    var r := MappingOf(config.args, s);
    var before := config.lcm.decode(Tf2TFMessage, wire);
    var m := MTFMessage(TFMessage(Each(t => Restamped(r, t, receivedNs), before.value.tfMessage.transforms)));
    assert config.lcm.decode(TypeOf(m), config.lcm.encode(m)) == Some(m);
    assert sent == config.lcm.encode(m);
    forall i | 0 <= i < |before.value.tfMessage.transforms|
      ensures TransformLands(config, first, pin, before.value.tfMessage.transforms[i], m.tfMessage.transforms[i],
                             receivedNs)
    {
      TransformIsMoved(config, s, first, pin, before.value.tfMessage.transforms[i], receivedNs);
    }
  }

  lemma PayloadIsMoved(config: Config, s: Setting, first: Pin, pin: Pin, support: Support, wire: seq<byte>,
                       receivedNs: int, sent: seq<byte>, substituted: bool)
    requires config.lcm.Lawful() && SetBy(config, s, Some(first), Some(pin)) && s.rate > 0.0
    requires s.anchor.Some? && s.base.Some? && MappingOf(config.args, s).Valid()
    requires Retimed(MappingOf(config.args, s), config.lcm, support, wire, receivedNs) == Ok((sent, substituted))
    ensures PayloadLands(config, first, pin, support, wire, sent, receivedNs)
  {
    hide SetBy, FixedLands, TfLands, Retimer.Map, Stamped, ReadI32;
    if config.args.stamps.OriginalStamps? {
    } else if support.Fixed? {
      FixedIsMoved(config, s, first, pin, support.offset, wire, receivedNs);
    } else if support.TfStamps? {
      TfIsMoved(config, s, first, pin, wire, receivedNs, sent, substituted);
    }
  }

  // ------------------------------------------------------------ what the rules leave of a payload

  /** `kept` stands at the places `at` of `ts`, in order, and those are the places no rule matches. */
  ghost predicate Picks(rules: seq<Rule>, ts: seq<TransformStamped>, kept: seq<TransformStamped>, at: seq<nat>) {
    && |at| == |kept|
    && (forall k :: 0 <= k < |at| ==> at[k] < |ts| && kept[k] == ts[at[k]])
    && (forall j, k :: 0 <= j < k < |at| ==> at[j] < at[k])
    && forall i :: 0 <= i < |ts| ==> (i in at <==> !Ruled(rules, ts[i]))
  }

  /** The transforms a payload carries, if it is a TFMessage. */
  ghost function TransformsIn(lcm: LcmCodec, wire: seq<byte>): Option<seq<TransformStamped>> {
    var m := lcm.decode(Tf2TFMessage, wire);
    if m.Some? && m.value.MTFMessage? then Some(m.value.tfMessage.transforms) else None
  }

  /** Of these transforms a payload is left with the ones no rule matches, or there is no payload left. */
  ghost predicate LeftOf(lcm: LcmCodec, rules: seq<Rule>, ts: seq<TransformStamped>, left: Option<seq<byte>>) {
    match left
    case None => forall i :: 0 <= i < |ts| ==> Ruled(rules, ts[i])
    case Some(bytes) =>
      var kept := TransformsIn(lcm, bytes);
      kept.Some? && kept.value != [] && exists at :: Picks(rules, ts, kept.value, at)
  }

  lemma KeptIsLeft(lcm: LcmCodec, rules: seq<Rule>, ts: seq<TransformStamped>)
    requires lcm.Lawful()
    ensures var kept := Kept(rules, ts);
            LeftOf(lcm, rules, ts, if kept == [] then None else Some(lcm.encode(MTFMessage(TFMessage(kept)))))
  {
    hide Kept, KeptAt, Ruled;
    var kept, at := Kept(rules, ts), KeptAt(rules, ts);
    var m := MTFMessage(TFMessage(kept));
    assert lcm.decode(TypeOf(m), lcm.encode(m)) == Some(m);
    KeptInOrder(rules, ts);
    forall i | 0 <= i < |ts|
      ensures i in at <==> !Ruled(rules, ts[i])
    {
      KeptExactly(rules, ts, i);
    }
    assert Picks(rules, ts, kept, at);
  }

  /**
    What a record shows, and sends: its wire form, but of a `tf2_msgs.TFMessage` under rules only the
    transforms that none of them matches. It fails exactly without a wire form, or when such a one
    cannot be decoded.
   */
  lemma ShownAsRuled(config: Config, record: Record)
    requires record.stream < |config.streams| && config.lcm.Lawful()
    ensures var stored := config.toWire(record.stream, record.data);
            var ruled := config.rules.Some? && config.streams[record.stream].msgName == "tf2_msgs.TFMessage";
            var shown := config.Shown(record);
            && (shown.Err? <==> stored.None? || (ruled && TransformsIn(config.lcm, stored.value).None?))
            && (shown.Ok? && !ruled ==> shown.value == stored)
            && (shown.Ok? && ruled ==>
                  LeftOf(config.lcm, config.rules.value, TransformsIn(config.lcm, stored.value).value, shown.value))
  {
    hide LeftOf, Kept;
    var stored := config.toWire(record.stream, record.data);
    if stored.Some? && config.rules.Some? && TransformsIn(config.lcm, stored.value).Some? {
      KeptIsLeft(config.lcm, config.rules.value, TransformsIn(config.lcm, stored.value).value);
    }
  }

  // ------------------------------------------------------------ the messages of a pass

  /** The message of the last of these turns: on its own stream, filtered, and stamped as the pins say. */
  ghost predicate GoesOutStamped(config: Config, turns: seq<Turn>, m: Message) {
    && turns != [] && config.AllFit(turns) && config.lcm.Lawful()
    && var t := turns[|turns| - 1];
       var first, pin := FirstPinOf(config, turns), PinOf(config, turns);
       && config.Fits(t) && m.0 == t.record.stream && first.Some? && pin.Some?
       && config.Shown(t.record).Ok? && config.Shown(t.record).value.Some?
       && PayloadLands(config, first.value, pin.value, config.streams[t.record.stream].support,
                       config.Shown(t.record).value.value, m.1, SecondsToNanos(t.record.ts))
  }

  lemma OneGoesOutStamped(config: Config, turns: seq<Turn>, m: Message)
    requires PinnedAsTold(config, turns) && GoesOutAs(config, turns[|turns| - 1], m)
    ensures GoesOutStamped(config, turns, m)
  {
    hide PayloadLands, Retimed, Config.Shown, MappingOf, FirstPinOf, PinOf, SecondsToNanos, Config.InTime;
    var t := turns[|turns| - 1];
    var first, pin := FirstPinOf(config, turns), PinOf(config, turns);
    var mapping := config.Mapping(t);
    var sent := config.Outgoing(t.record, mapping).value.value;
    PayloadIsMoved(config, t.after.setting, first.value, pin.value, config.streams[t.record.stream].support,
                   config.Shown(t.record).value.value, SecondsToNanos(t.record.ts), sent.0, sent.1);
  }

  /**
    Every message of a pass, in order: under original stamps its bytes are those of its record,
    filtered; under shifted stamps every stamp shows the time it was recorded at, its own or its
    reception, moved by the distance from where the replay starts in the recording to the look at
    the clock that the first record with a wire form began with; under scaled stamps by the rate
    from the latest pin, to half a nanosecond.
   */
  lemma StampsAreAsAsked(config: Config, o: Observed, a: Account)
    requires config.lcm.Lawful() && |config.streams| == |o.samples| && config.Tells(o, a)
    requires a.start.setting == Unset(config.args)
    ensures var out, at := config.After(o, a.turns).out, PublishedAt(a.turns);
            && |out| == |o.out| + |at| && out[..|o.out|] == o.out
            && forall k :: 0 <= k < |at| ==>
                 at[k] < |a.turns| && GoesOutStamped(config, UpTo(a.turns, at[k]), out[|o.out| + k])
  {
    hide Config.Turned, Config.After, GoesOutAs, GoesOutStamped, PinnedAsTold, SetBy, UpTo, Unset;
    MessagesArePublished(config, o, a);
    SettingsArePins(config, o, a);
    var out, at := config.After(o, a.turns).out, PublishedAt(a.turns);
    forall k | 0 <= k < |at|
      ensures at[k] < |a.turns| && GoesOutStamped(config, UpTo(a.turns, at[k]), out[|o.out| + k])
    {
      OneGoesOutStamped(config, UpTo(a.turns, at[k]), out[|o.out| + k]);
    }
  }

  // ------------------------------------------------------------ what follows for the three modes

  /** Once the clocks are pinned for the first time, that pin stays. */
  lemma {:induction false} FirstPinStays(config: Config, turns: seq<Turn>, i: nat)
    requires i < |turns| && config.AllFit(turns) && config.AllFit(UpTo(turns, i))
    requires FirstPinOf(config, UpTo(turns, i)).Some?
    ensures FirstPinOf(config, turns) == FirstPinOf(config, UpTo(turns, i))
    decreases |turns|
  {
    if i == |turns| - 1 {
      assert UpTo(turns, i) == turns;
    } else {
      var front := turns[..|turns| - 1];
      assert UpTo(front, i) == UpTo(turns, i);
      FirstPinStays(config, front, i);
    }
  }

  /** The stamp a published record with one fixed stamp arrived with: its own time or its reception. */
  ghost predicate Carries(config: Config, t: Turn, offset: nat, own: int) {
    && config.Fits(t) && config.lcm.Lawful() && config.streams[t.record.stream].support == Fixed(offset)
    && config.Shown(t.record).Ok? && config.Shown(t.record).value.Some?
    && var wire := config.Shown(t.record).value.value;
       offset + 8 <= |wire| && own == TimeAt(wire, offset, SecondsToNanos(t.record.ts))
  }

  /** A time that a stamp can hold and be read back from. */
  predicate Holdable(ns: int) { 1_000_000_000 <= ns < 0x8000_0000 * 1_000_000_000 }

  lemma ShownWhereItLands(config: Config, turns: seq<Turn>, m: Message, offset: nat, own: int, delta: int)
    requires GoesOutStamped(config, turns, m) && config.args.stamps.ShiftedStamps?
    requires Carries(config, turns[|turns| - 1], offset, own)
    requires var first := FirstPinOf(config, turns).value;
             delta == SecondsToNanos(config.at(first.seenLook)) - SecondsToNanos(first.recorded)
    ensures Holdable(own + delta) ==> ShowsAt(m.1, offset, own + delta)
  {
    hide SecondsToNanos, ReadI32, FirstPinOf, PinOf, Config.Shown;
  }

  /**
    A whole pass under shifted stamps: every stamp that can be held is moved by one and the same
    distance, from `--start` past the first record with a wire form to the look at the clock that
    record began with; so any two of them are as far apart as their recording times are.
   */
  lemma ShiftedPassMovesAllAlike(config: Config, o: Observed, a: Account)
    requires config.lcm.Lawful() && |config.streams| == |o.samples| && config.Tells(o, a)
    requires a.start.setting == Unset(config.args) && config.args.stamps.ShiftedStamps?
    requires PublishedAt(a.turns) != []
    ensures FirstPinOf(config, a.turns).Some?
    ensures var out, at, first := config.After(o, a.turns).out, PublishedAt(a.turns), FirstPinOf(config, a.turns).value;
            var delta := SecondsToNanos(config.at(first.seenLook)) - SecondsToNanos(first.recorded);
            && |out| == |o.out| + |at|
            && forall k, offset, own ::
                 (0 <= k < |at| && at[k] < |a.turns| && Carries(config, a.turns[at[k]], offset, own)
                  && Holdable(own + delta)) ==> ShowsAt(out[|o.out| + k].1, offset, own + delta)
  {
    hide Config.Turned, Config.After, GoesOutStamped, UpTo, Unset, SecondsToNanos, Carries, Holdable, ShowsAt,
      FirstPinOf, PublishedAt;
    StampsAreAsAsked(config, o, a);
    var out, at := config.After(o, a.turns).out, PublishedAt(a.turns);
    forall k | 0 <= k < |at|
      ensures at[k] < |a.turns| && config.AllFit(UpTo(a.turns, at[k]))
      ensures FirstPinOf(config, UpTo(a.turns, at[k])).Some?
      ensures FirstPinOf(config, a.turns) == FirstPinOf(config, UpTo(a.turns, at[k]))
    {
      IsPinned(config, UpTo(a.turns, at[k]), out[|o.out| + k]);
      FirstPinStays(config, a.turns, at[k]);
    }
    assert FirstPinOf(config, UpTo(a.turns, at[0])).Some?;
    var first := FirstPinOf(config, a.turns).value;
    var delta := SecondsToNanos(config.at(first.seenLook)) - SecondsToNanos(first.recorded);
    forall k, offset, own | 0 <= k < |at| && Carries(config, a.turns[at[k]], offset, own) && Holdable(own + delta)
      ensures ShowsAt(out[|o.out| + k].1, offset, own + delta)
    {
      ShownWhereItLands(config, UpTo(a.turns, at[k]), out[|o.out| + k], offset, own, delta);
    }
  }

  lemma IsPinned(config: Config, turns: seq<Turn>, m: Message)
    requires GoesOutStamped(config, turns, m)
    ensures config.AllFit(turns) && FirstPinOf(config, turns).Some?
  {
  }

  /** Under original stamps the messages are the filtered wire forms of the published records, byte for byte. */
  lemma OriginalPassChangesNothing(config: Config, o: Observed, a: Account)
    requires config.lcm.Lawful() && |config.streams| == |o.samples| && config.Tells(o, a)
    requires a.start.setting == Unset(config.args) && config.args.stamps.OriginalStamps?
    ensures var out, at := config.After(o, a.turns).out, PublishedAt(a.turns);
            && |out| == |o.out| + |at|
            && forall k :: 0 <= k < |at| ==>
                 && at[k] < |a.turns| && a.turns[at[k]].record.stream < |config.streams|
                 && var t := a.turns[at[k]];
                    out[|o.out| + k].0 == t.record.stream && config.Shown(t.record) == Ok(Some(out[|o.out| + k].1))
  {
    hide Config.Turned, Config.After, GoesOutStamped, UpTo, Unset, Config.Shown, PublishedAt;
    StampsAreAsAsked(config, o, a);
    var out, at := config.After(o, a.turns).out, PublishedAt(a.turns);
    forall k | 0 <= k < |at|
      ensures at[k] < |a.turns| && a.turns[at[k]].record.stream < |config.streams|
      ensures var t := a.turns[at[k]];
              out[|o.out| + k].0 == t.record.stream && config.Shown(t.record) == Ok(Some(out[|o.out| + k].1))
    {
      GoesOutUnchanged(config, UpTo(a.turns, at[k]), out[|o.out| + k]);
    }
  }

  lemma GoesOutUnchanged(config: Config, turns: seq<Turn>, m: Message)
    requires GoesOutStamped(config, turns, m) && config.args.stamps.OriginalStamps?
    ensures var t := turns[|turns| - 1];
            && t.record.stream < |config.streams| && m.0 == t.record.stream && config.Shown(t.record) == Ok(Some(m.1))
  {
    hide Config.Shown, FirstPinOf, PinOf;
  }

  /** When a pin schedules a recording time for, in nanoseconds, and how late its two looks make a stamp. */
  ghost function DueNs(config: Config, pin: Pin, ts: real): real
    requires pin.rate > 0.0
  {
    (config.at(pin.wallLook) + (ts - pin.recorded) / pin.rate) * 1_000_000_000.0
  }

  ghost function SkewNs(config: Config, pin: Pin): real {
    (config.at(pin.seenLook) - config.at(pin.wallLook)) * 1_000_000_000.0
  }

  /**
    Under scaled stamps a message stamped at the recording time it is paced by is shown as of the
    instant it was due, but for the time between its pin's two looks: to one nanosecond either way,
    and one more, scaled, for rounding the two recording times.
   */
  lemma ScaledStampIsDueTime(config: Config, first: Pin, pin: Pin, ts: real, ns: int)
    requires config.args.stamps.ScaledStamps? && pin.rate > 0.0
    requires ts >= 0.0 && pin.recorded >= 0.0 && config.at(pin.seenLook) >= 0.0
    requires Lands(config, first, pin, SecondsToNanos(ts), ns)
    ensures -1.0 - 1.0 / pin.rate <= ns as real - (DueNs(config, pin, ts) + SkewNs(config, pin)) <= 1.0 + 1.0 / pin.rate
  {
    hide SecondsToNanos, Grain;
    var grain, wall := Grain(ts, pin.recorded), SecondsToNanos(config.at(pin.seenLook));
    var spread, passed := grain / pin.rate, (ts - pin.recorded) / pin.rate * NANOS;
    QuotientIs(ts, pin.recorded, pin.rate);
    GrainIsSmall(ts, pin.recorded);
    SpreadIsSmall(grain, pin.rate);
    SecondsToNanosIsNear(config.at(pin.seenLook));
    assert DueNs(config, pin, ts) + SkewNs(config, pin) == config.at(pin.seenLook) * NANOS + passed;
    assert -0.5 <= (ns - wall) as real - (passed + spread) <= 0.5;
  }

  lemma SpreadIsSmall(grain: real, rate: real)
    requires rate > 0.0 && -1.0 <= grain <= 1.0
    ensures -(1.0 / rate) <= grain / rate <= 1.0 / rate
  {
    DivideKeepsOrder(grain, 1.0, rate);
    DivideKeepsOrder(-grain, 1.0, rate);
    DivideScaled(grain, -1.0, rate);
  }

  /** No record is released, and no message goes out, before the pin at hand has it due. */
  lemma NothingGoesOutEarly(config: Config, o: Observed, a: Account, i: nat)
    requires config.lcm.Lawful() && |config.streams| == |o.samples| && config.Tells(o, a)
    requires a.start.setting == Unset(config.args) && config.args.rate > 0.0
    requires i < |a.turns| && WasReleased(a.turns[i])
    ensures config.AllFit(UpTo(a.turns, i)) && PinOf(config, UpTo(a.turns, i)).Some? && a.turns[i].to >= 2
    ensures var t, pin := a.turns[i], PinOf(config, UpTo(a.turns, i)).value;
            var look := if config.Gated(t.record) && t.fate == Ok(Published) then t.to - 2 else t.to - 1;
            pin.rate > 0.0 && config.at(look) * 1_000_000_000.0 >= DueNs(config, pin, t.record.ts)
  {
    hide Config.Turned, Config.After, PinnedAsTold, UpTo, Unset;
    SettingsArePins(config, o, a);
    ReleasedInTime(config, UpTo(a.turns, i));
  }

  lemma ReleasedInTime(config: Config, turns: seq<Turn>)
    requires PinnedAsTold(config, turns) && WasReleased(turns[|turns| - 1]) && config.args.rate > 0.0
    ensures config.AllFit(turns) && PinOf(config, turns).Some? && turns[|turns| - 1].to >= 2
    ensures var t, pin := turns[|turns| - 1], PinOf(config, turns).value;
            var look := if config.Gated(t.record) && t.fate == Ok(Published) then t.to - 2 else t.to - 1;
            pin.rate > 0.0 && config.at(look) * 1_000_000_000.0 >= DueNs(config, pin, t.record.ts)
  {
    hide FirstPinOf, PinOf, SecondsToNanos;
    var t, pin := turns[|turns| - 1], PinOf(config, turns).value;
    var due := config.at(pin.wallLook) + (t.record.ts - pin.recorded) / pin.rate;
    assert due == DueAt(t.after.setting, t.record.ts);
    assert DueNs(config, pin, t.record.ts) == due * 1_000_000_000.0;
  }

  // ------------------------------------------------------------ how many were restamped

  /** A stamp of this payload is unusable: unset, or an hour and more away from its reception. */
  ghost predicate SomeUnusable(lcm: LcmCodec, support: Support, wire: seq<byte>, receivedNs: int) {
    match support
    case Unstamped => false
    case Fixed(offset) =>
      offset + 8 <= |wire|
      && !Usable(ReadI32(wire[offset..offset + 4]), ReadI32(wire[offset + 4..offset + 8]), receivedNs)
    case TfStamps =>
      var m := lcm.decode(Tf2TFMessage, wire);
      m.Some? && m.value.MTFMessage?
      && exists i :: 0 <= i < |m.value.tfMessage.transforms|
           && var stamp := m.value.tfMessage.transforms[i].header.stamp;
              !Usable(stamp.sec, stamp.nsec, receivedNs)
  }

  /** Reception stands in for a stamp of this record: it got as far as being restamped, with an unusable one. */
  ghost predicate ReceptionStandsIn(config: Config, t: Turn) {
    && config.Fits(t) && config.lcm.Lawful() && WasReleased(t) && !config.args.stamps.OriginalStamps?
    && config.Shown(t.record).Ok? && config.Shown(t.record).value.Some?
    && SomeUnusable(config.lcm, config.streams[t.record.stream].support, config.Shown(t.record).value.value,
                    SecondsToNanos(t.record.ts))
  }

  ghost function StandIns(config: Config, turns: seq<Turn>): nat {
    if turns == [] then 0
    else StandIns(config, turns[..|turns| - 1]) + if ReceptionStandsIn(config, turns[|turns| - 1]) then 1 else 0
  }

  lemma SubstitutedIff(r: Retimer, lcm: LcmCodec, support: Support, wire: seq<byte>, receivedNs: int)
    requires r.Valid() && lcm.Lawful()
    ensures var res := Retimed(r, lcm, support, wire, receivedNs);
            res.Ok? && res.value.1 <==> !r.Original? && SomeUnusable(lcm, support, wire, receivedNs)
  {
    hide Restamped, Substituted, Usable, Retimer.Map, Stamped, ReadI32;
    if !r.Original? && support.Fixed? && support.offset + 8 <= |wire| {
      RetimedFixedPayload(r, lcm, support.offset, wire, receivedNs);
    } else if !r.Original? && support.TfStamps? && lcm.decode(Tf2TFMessage, wire).Some? {
      RetimedTfPayload(r, lcm, wire, receivedNs);
    }
  }

  lemma TurnCountsStandIn(config: Config, tally: Tally, t: Turn)
    requires config.Fits(t) && config.lcm.Lawful()
    ensures config.Tallied(tally, t).restamped == tally.restamped + if ReceptionStandsIn(config, t) then 1 else 0
  {
    hide Retimed, Config.Shown, SomeUnusable, SecondsToNanos;
    if WasReleased(t) && config.Shown(t.record).Ok? && config.Shown(t.record).value.Some? {
      SubstitutedIff(config.Mapping(t), config.lcm, config.streams[t.record.stream].support,
                     config.Shown(t.record).value.value, SecondsToNanos(t.record.ts));
    }
  }

  /** The messages reported as carrying a stamp from another clock are exactly those. */
  lemma {:induction false} StandInsAreCounted(config: Config, turns: seq<Turn>)
    requires config.AllFit(turns) && config.lcm.Lawful()
    ensures config.TallyOf(turns).restamped == StandIns(config, turns)
    decreases |turns|
  {
    hide Config.Tallied, ReceptionStandsIn, Config.Fits;
    if turns != [] {
      var front := turns[..|turns| - 1];
      StandInsAreCounted(config, front);
      TurnCountsStandIn(config, config.TallyOf(front), turns[|turns| - 1]);
    }
  }
}
