/**
  How what a pass sends reads (`replay_once` in src/main.rs): without a gate in time and in order
  from one pinning of the clocks, and with gates in order whenever nothing reads as later than it
  was due.
 */
module ArrivalLaws {
  import opened Prelude
  import opened Stamps
  import opened Lockstepping
  import opened Pacing
  import opened Accounts
  import opened AccountLaws

  /** What every look at the clock sees comes after the looks before it, and after the epoch. */
  ghost predicate ClockRuns(config: Config) {
    (forall i: nat, j: nat :: i <= j ==> config.at(i) <= config.at(j)) && config.at(0) >= 0.0
  }

  /** The arrival a message's stamps are mapped around. */
  ghost function ReadsAs(config: Config, t: Turn): int
    requires config.Fits(t) && WasReleased(t)
  {
    config.Mapping(t).Map(SecondsToNanos(t.record.ts))
  }

  ghost function ArrivalIn(config: Config, t: Turn): (s: Sent)
    requires config.Fits(t) && WasReleased(t)
    ensures s.arrivalNs == ReadsAs(config, t)
  {
    ArrivalOf(config.args, t.after.setting, t.record.ts, config.at(config.OutLook(t.record, t.fate, t.to)))
  }

  /** In scaled mode the log holds the arrivals of the published records, in order. */
  lemma {:induction false} LogIsPublished(config: Config, turns: seq<Turn>)
    requires config.AllFit(turns) && config.args.stamps.ScaledStamps?
    ensures var log, at := config.LogOf(turns), PublishedAt(turns);
            && |log| == |at|
            && forall k :: 0 <= k < |at| ==>
                 && at[k] < |turns| && turns[at[k]].fate == Ok(Published) && config.Fits(turns[at[k]])
                 && log[k] == ArrivalIn(config, turns[at[k]])
    decreases |turns|
  {
    hide ArrivalOf, Config.Fits, Config.Mapping;
    if turns != [] {
      var front, t := turns[..|turns| - 1], turns[|turns| - 1];
      LogIsPublished(config, front);
      var log, at := config.LogOf(turns), PublishedAt(turns);
      assert config.Fits(t);
      if t.fate == Ok(Published) { assert log == config.LogOf(front) + [ArrivalIn(config, t)]; }
      forall k | 0 <= k < |PublishedAt(front)|
        ensures at[k] < |turns| && turns[at[k]].fate == Ok(Published) && config.Fits(turns[at[k]])
        ensures log[k] == ArrivalIn(config, turns[at[k]])
      {
        assert front[at[k]] == turns[at[k]];
      }
    }
  }

  // ------------------------------------------------------------ without a gate

  /** The setting the first record makes: the system clock first, and then the one that paces. */
  ghost predicate PinnedOnce(config: Config, s: Setting) {
    && Settled(s) && s.pins == 1 && s.rate == StartRate(config.args)
    && s.anchor.value.recorded == s.base.value && s.anchor.value.wallNs == SecondsToNanos(s.anchor.value.seen)
    && 0.0 <= s.anchor.value.seen <= s.anchor.value.wall
  }

  /** A released record was not before the start, and met its fate no earlier than this setting scheduled it. */
  ghost predicate OnSchedule(config: Config, s: Setting, t: Turn) {
    && config.Fits(t) && t.after.setting == s && Settled(s) && t.to >= 2 && t.record.ts >= s.base.value
    && config.InTime(s, t.record, t.fate, t.to)
  }

  lemma UngatedTurn(config: Config, s: State, out: nat, t: Turn)
    requires config.lcm.Lawful() && config.gate.None? && config.args.rate >= 0.0 && ClockRuns(config)
    requires config.Turned(s, out, t)
    requires s.setting == Unset(config.args) || PinnedOnce(config, s.setting)
    ensures if s.setting == Unset(config.args)
            then t.after.setting == s.setting || PinnedOnce(config, t.after.setting)
            else t.after.setting == s.setting
    ensures WasReleased(t) ==> OnSchedule(config, t.after.setting, t) && PinnedOnce(config, t.after.setting)
  {
    hide Config.FateOf, SecondsToNanos, WaitedAs, Config.InTime, MappingOf;
    config.TurnFits(s, out, t);
    assert config.at(0) <= config.at(t.from) <= config.at(t.from + 1);
  }

  /** Without a gate the clocks are pinned once, and all is scheduled by that. */
  lemma {:induction false} OneSettingWithoutGate(config: Config, o: Observed, a: Account)
    requires config.lcm.Lawful() && |config.streams| == |o.samples| && config.Tells(o, a)
    requires config.gate.None? && config.args.rate >= 0.0 && ClockRuns(config)
    requires a.start.setting == Unset(config.args)
    ensures Final(a).setting == Unset(config.args) || PinnedOnce(config, Final(a).setting)
    ensures forall i :: 0 <= i < |a.turns| && WasReleased(a.turns[i]) ==>
              PinnedOnce(config, Final(a).setting) && OnSchedule(config, Final(a).setting, a.turns[i])
    decreases |a.turns|
  {
    hide Config.Turned, Config.After, PinnedOnce, OnSchedule, ClockRuns;
    if a.turns != [] {
      var front, t := a.(turns := a.turns[..|a.turns| - 1]), a.turns[|a.turns| - 1];
      OneSettingWithoutGate(config, o, front);
      UngatedTurn(config, Final(front), |config.After(o, front.turns).out|, t);
      assert forall i :: 0 <= i < |front.turns| ==> front.turns[i] == a.turns[i];
      assert !PinnedOnce(config, Unset(config.args)) by { NotPinnedYet(config); }
    }
  }

  lemma NotPinnedYet(config: Config)
    ensures !PinnedOnce(config, Unset(config.args))
  {
  }

  /** What was sent by this setting reads at most 1 ns and 1 ns / rate later than it went out. */
  ghost predicate WithinANanoAndAScaledOne(config: Config, arrival: Sent)
    requires config.args.rate > 0.0
  {
    && arrival.pin == 1 && arrival.rate == config.args.rate && arrival.skew <= 0.0
    && arrival.arrivalNs as real <= arrival.at * NANOS + 1.0 + 1.0 / config.args.rate
    && (arrival.grain <= 0.0 ==> arrival.arrivalNs as real <= arrival.at * NANOS + 1.0)
  }

  lemma ScheduledIsInTime(config: Config, t: Turn)
    requires config.args.stamps.ScaledStamps? && config.args.rate > 0.0
    requires WasReleased(t) && OnSchedule(config, t.after.setting, t) && PinnedOnce(config, t.after.setting)
    requires t.after.setting.base.value >= 0.0
    ensures WithinANanoAndAScaledOne(config, ArrivalIn(config, t))
  {
    hide SecondsToNanos, Round, Grain, Config.OutLook;
    var s, at := t.after.setting, config.at(config.OutLook(t.record, t.fate, t.to));
    var grain := Grain(t.record.ts, s.anchor.value.recorded);
    GrainIsSmall(t.record.ts, s.anchor.value.recorded);
    HeldBackIsOnTime(s.anchor.value, s.rate, t.record.ts, at);
    DivideKeepsOrder(grain, 1.0, s.rate);
    if grain <= 0.0 { DivideKeepsOrder(grain, 0.0, s.rate); }
  }

  /**
    A paced pass without a gate and with scaled stamps: whatever the order of its records, nothing
    reads as arriving later than a nanosecond and a scaled one after it went out, and a nanosecond
    does when rounding did not spread its time and the start; and records in order arrive in order.
   */
  lemma UngatedPassIsOnTime(config: Config, o: Observed, a: Account)
    requires config.lcm.Lawful() && |config.streams| == |o.samples| && config.Tells(o, a)
    requires config.gate.None? && config.args.rate > 0.0 && ClockRuns(config) && config.args.stamps.ScaledStamps?
    requires a.start.setting == Unset(config.args)
    requires Final(a).setting.base.Some? ==> Final(a).setting.base.value >= 0.0
    ensures var log := config.LogOf(a.turns);
            && |log| == |PublishedAt(a.turns)|
            && (forall k :: 0 <= k < |log| ==> WithinANanoAndAScaledOne(config, log[k]))
            && (Chronological(a.turns) ==>
                  forall j, k :: 0 <= j < k < |log| ==> log[j].arrivalNs <= log[k].arrivalNs)
  {
    hide Config.Turned, Config.After, PinnedOnce, OnSchedule, WithinANanoAndAScaledOne, ArrivalOf, SecondsToNanos,
      ClockRuns, Retimer.Map;
    OneSettingWithoutGate(config, o, a);
    LogIsPublished(config, a.turns);
    PublishedAtExactly(a.turns);
    var log, at := config.LogOf(a.turns), PublishedAt(a.turns);
    forall k | 0 <= k < |log|
      ensures WithinANanoAndAScaledOne(config, log[k])
    {
      var t := a.turns[at[k]];
      assert t.after.setting == Final(a).setting by { ScheduledBy(config, Final(a).setting, t); }
      ScheduledIsInTime(config, t);
    }
    forall j, k | 0 <= j < k < |log| && Chronological(a.turns)
      ensures log[j].arrivalNs <= log[k].arrivalNs
    {
      ScheduledBy(config, Final(a).setting, a.turns[at[j]]);
      ScheduledBy(config, Final(a).setting, a.turns[at[k]]);
      LaterReadsLater(config, a.turns[at[j]], a.turns[at[k]]);
    }
  }

  lemma ScheduledBy(config: Config, s: Setting, t: Turn)
    requires OnSchedule(config, s, t)
    ensures config.Fits(t) && t.after.setting == s && Settled(s)
  {
  }

  /** Under one setting a later record reads as arriving later. */
  lemma LaterReadsLater(config: Config, t: Turn, later: Turn)
    requires config.Fits(t) && config.Fits(later) && WasReleased(t) && WasReleased(later)
    requires config.args.stamps.ScaledStamps?
    requires t.after.setting == later.after.setting && t.record.ts <= later.record.ts
    ensures ReadsAs(config, t) <= ReadsAs(config, later)
  {
    hide SecondsToNanos, Retimer.Map;
    SecondsToNanosIsMonotone(t.record.ts, later.record.ts);
    ScaledIsMonotone(config.Mapping(t), SecondsToNanos(t.record.ts), SecondsToNanos(later.record.ts));
  }

  // ------------------------------------------------------------ with gates

  /** A message reads no later than the setting it was sent under scheduled it. */
  ghost predicate ReadsWhenDue(config: Config, t: Turn)
    requires config.Fits(t) && WasReleased(t)
  {
    ReadsAs(config, t) <= SecondsToNanos(DueAt(t.after.setting, t.record.ts))
  }

  /** The latest time seen before look `tick`. */
  ghost function SeenBy(config: Config, tick: nat): real { config.at(if tick == 0 then 0 else tick - 1) }

  /** What a message at `ts` would read as now. */
  ghost function WouldRead(config: Config, s: Setting, ts: real): int
    requires Settled(s)
  {
    MappingOf(config.args, s).Map(SecondsToNanos(ts))
  }

  /** `arrival` is over by look `tick`, and nothing from recording time `ts` on reads as earlier under this setting. */
  ghost predicate Past(config: Config, s: Setting, ts: real, tick: nat, arrival: int) {
    Settled(s) && arrival <= SecondsToNanos(SeenBy(config, tick)) && arrival <= WouldRead(config, s, ts)
  }

  lemma StaysPastUnderOneSetting(config: Config, s: Setting, ts: real, later: real, tick: nat,
                                 laterTick: nat, arrival: int)
    requires Past(config, s, ts, tick, arrival) && ts <= later && tick <= laterTick && ClockRuns(config)
    requires config.args.stamps.ScaledStamps?
    ensures Past(config, s, later, laterTick, arrival)
  {
    hide SecondsToNanos, Retimer.Map;
    SecondsToNanosIsMonotone(ts, later);
    ScaledIsMonotone(MappingOf(config.args, s), SecondsToNanos(ts), SecondsToNanos(later));
    SecondsToNanosIsMonotone(SeenBy(config, tick), SeenBy(config, laterTick));
  }

  /** A gate is pinned at a look after everything that is past, so it reads no earlier. */
  lemma StaysPastAcrossAGate(config: Config, s: Setting, next: Setting, ts: real, gate: real, tick: nat,
                             laterTick: nat, arrival: int)
    requires Past(config, s, ts, tick, arrival) && Settled(next)
    requires ClockRuns(config) && config.args.stamps.ScaledStamps?
    requires var look := next.anchor.value.look;
             tick <= look && look + 2 <= laterTick && next == Repinned(s, gate, look, next.rate, config.at)
    ensures Past(config, next, gate, laterTick, arrival)
  {
    hide SecondsToNanos, FollowsOnAt, ClockRuns;
    var earlier, seen := SeenBy(config, tick), next.anchor.value.seen;
    InTurn(config, tick, next.anchor.value.look, laterTick);
    SecondsToNanosIsMonotone(earlier, seen);
    SecondsToNanosIsMonotone(seen, SeenBy(config, laterTick));
    PinnedArrival(arrival, gate, seen, next.rate);
    assert FollowsOnAt(arrival, gate, seen, gate, next.rate);
    FollowingMeans(arrival, gate, seen, next.rate);
  }

  lemma InTurn(config: Config, tick: nat, look: nat, laterTick: nat)
    requires ClockRuns(config) && tick <= look && look + 2 <= laterTick
    ensures SeenBy(config, tick) <= config.at(look + 1) <= SeenBy(config, laterTick)
  {
  }

  lemma FollowingMeans(arrival: int, gate: real, seen: real, rate: real)
    requires rate > 0.0 && FollowsOnAt(arrival, gate, seen, gate, rate)
    ensures arrival <= Scaled(SecondsToNanos(gate), SecondsToNanos(seen), rate).Map(SecondsToNanos(gate))
  {
    hide SecondsToNanos, Retimer.Map;
  }

  /** Whatever one turn does to the clocks, what was past before it stays past. */
  lemma TurnLeavesPast(config: Config, s: State, out: nat, t: Turn, ts: real, tick: nat, arrival: int)
    requires config.lcm.Lawful() && ClockRuns(config) && config.args.stamps.ScaledStamps? && config.Turned(s, out, t)
    requires Past(config, s.setting, ts, tick, arrival) && ts <= t.record.ts && tick <= t.from
    ensures Past(config, t.after.setting, t.record.ts, t.to, arrival)
  {
    hide Config.FateOf, SecondsToNanos, WaitedAs, Config.InTime, MappingOf, Past, ClockRuns, Repinned;
    config.TurnFits(s, out, t);
    assert Settled(s.setting) by { PastIsSettled(config, s.setting, ts, tick, arrival); }
    if WasReleased(t) && config.Gated(t.record) {
      StaysPastAcrossAGate(config, s.setting, t.after.setting, ts, t.record.ts, tick, t.to, arrival);
    } else {
      StaysPastUnderOneSetting(config, s.setting, ts, t.record.ts, tick, t.to, arrival);
    }
  }

  lemma PastIsSettled(config: Config, s: Setting, ts: real, tick: nat, arrival: int)
    requires Past(config, s, ts, tick, arrival)
    ensures Settled(s)
  {
  }

  /** A message that reads when due is past as soon as it has gone out. */
  lemma PublishedIsPast(config: Config, s: State, out: nat, t: Turn)
    requires config.lcm.Lawful() && ClockRuns(config) && config.Turned(s, out, t) && config.args.rate > 0.0
    requires t.fate == Ok(Published) && config.Fits(t) && ReadsWhenDue(config, t)
    ensures Past(config, t.after.setting, t.record.ts, t.to, ReadsAs(config, t))
  {
    hide Config.FateOf, SecondsToNanos, WaitedAs, MappingOf, Retimer.Map, Repinned;
    var due, at := DueAt(t.after.setting, t.record.ts), config.at(config.OutLook(t.record, t.fate, t.to));
    assert due <= at <= SeenBy(config, t.to);
    SecondsToNanosIsMonotone(due, SeenBy(config, t.to));
  }

  /** All that was published so far is past. */
  ghost predicate AllPast(config: Config, a: Account) {
    && config.AllFit(a.turns)
    && forall i :: 0 <= i < |a.turns| && a.turns[i].fate == Ok(Published) ==>
         Past(config, Final(a).setting, a.turns[|a.turns| - 1].record.ts, Until(a), ReadsAs(config, a.turns[i]))
  }

  ghost predicate ArrivesInOrder(config: Config, turns: seq<Turn>)
    requires config.AllFit(turns)
  {
    forall i, j :: 0 <= i < j < |turns| && turns[i].fate == Ok(Published) && turns[j].fate == Ok(Published) ==>
      ReadsAs(config, turns[i]) <= ReadsAs(config, turns[j])
  }

  /** Everything it published reads no later than it was due. */
  ghost predicate AllReadWhenDue(config: Config, turns: seq<Turn>)
    requires config.AllFit(turns)
  {
    forall i :: 0 <= i < |turns| && turns[i].fate == Ok(Published) ==> ReadsWhenDue(config, turns[i])
  }

  lemma {:induction false} PastAndInOrder(config: Config, o: Observed, a: Account)
    requires config.lcm.Lawful() && |config.streams| == |o.samples| && config.Tells(o, a)
    requires config.args.rate > 0.0 && ClockRuns(config) && config.args.stamps.ScaledStamps?
    requires Chronological(a.turns) && AllReadWhenDue(config, a.turns)
    ensures AllPast(config, a) && ArrivesInOrder(config, a.turns)
    decreases |a.turns|
  {
    hide Config.Turned, Config.After, Past, ReadsWhenDue, ReadsAs, ClockRuns, Chronological, Config.Fits;
    if a.turns != [] {
      hide AllPast, ArrivesInOrder;
      var front, t := a.(turns := a.turns[..|a.turns| - 1]), a.turns[|a.turns| - 1];
      assert a.turns == front.turns + [t];
      PrefixIsChronological(front.turns, t);
      PastAndInOrder(config, o, front);
      OnePastMore(config, |config.After(o, front.turns).out|, front, a, t);
    }
  }

  /**
    A paced pass with scaled stamps over records in order, gates and blended rates included: if
    every message it published reads no later than it was due, arrivals never go back.
   */
  lemma PassThatReadsWhenDueArrivesInOrder(config: Config, o: Observed, a: Account)
    requires config.lcm.Lawful() && |config.streams| == |o.samples| && config.Tells(o, a)
    requires config.args.rate > 0.0 && ClockRuns(config) && config.args.stamps.ScaledStamps?
    requires Chronological(a.turns) && AllReadWhenDue(config, a.turns)
    ensures ArrivesInOrder(config, a.turns)
  {
    hide Config.Tells, ArrivesInOrder, Chronological, AllReadWhenDue, ClockRuns;
    PastAndInOrder(config, o, a);
  }

  lemma OnePastMore(config: Config, out: nat, front: Account, a: Account, t: Turn)
    requires config.lcm.Lawful() && ClockRuns(config) && config.args.rate > 0.0 && config.args.stamps.ScaledStamps?
    requires a == front.(turns := front.turns + [t]) && config.AllFit(a.turns) && Chronological(a.turns)
    requires config.Turned(Final(front), out, t) && Until(front) <= t.from
    requires t.fate == Ok(Published) ==> config.Fits(t) && ReadsWhenDue(config, t)
    requires AllPast(config, front) && ArrivesInOrder(config, front.turns)
    ensures AllPast(config, a) && ArrivesInOrder(config, a.turns)
  {
    hide Config.Turned, Past, ReadsWhenDue, ReadsAs, ClockRuns, Config.Fits;
    var turns := a.turns;
    assert forall i :: 0 <= i < |front.turns| ==> front.turns[i] == turns[i];
    assert turns[|front.turns|] == t;
    forall i | 0 <= i < |turns| && turns[i].fate == Ok(Published)
      ensures Past(config, t.after.setting, t.record.ts, t.to, ReadsAs(config, turns[i]))
      ensures t.fate == Ok(Published) ==> ReadsAs(config, turns[i]) <= ReadsAs(config, t)
    {
      if i < |front.turns| {
        TurnLeavesPast(config, Final(front), out, t, front.turns[|front.turns| - 1].record.ts, Until(front),
                       ReadsAs(config, turns[i]));
      } else {
        PublishedIsPast(config, Final(front), out, t);
      }
      if t.fate == Ok(Published) { PastReadsEarlier(config, t, ReadsAs(config, turns[i])); }
    }
  }

  lemma PastReadsEarlier(config: Config, t: Turn, arrival: int)
    requires config.Fits(t) && WasReleased(t)
    requires Past(config, t.after.setting, t.record.ts, t.to, arrival)
    ensures arrival <= ReadsAs(config, t)
  {
    hide SecondsToNanos, Retimer.Map;
  }
}
