/**
  The pacing half of `replay_once` (src/main.rs): the anchor that pins the recording clock to
  the wall clock, the rate, and the retimer that must agree with both at every publish.
 */
module Pacing {
  import opened Prelude
  import opened Clocks
  import opened Stamps
  import opened Lockstepping

  datatype StampMode = ScaledStamps | ShiftedStamps | OriginalStamps

  datatype Args = Args(rate: real, stamps: StampMode, start: real, duration: Option<real>)

  /**
    Where the recording clock was last pinned. `seen` is what the clock showed when `wallNs` was
    taken from it, and `look` the first of the two looks that made the anchor.
   */
  datatype Anchor = Anchor(recorded: real, wall: real, wallNs: int, ghost seen: real, ghost look: nat)

  /** All that decides when a message is due and what its stamps are mapped to. */
  datatype Setting = Setting(base: Option<real>, anchor: Option<Anchor>, rate: real, pins: nat, firstWallNs: int)

  function StartRate(args: Args): real { if args.rate == 0.0 then 1.0 else args.rate }

  /** Before the first message. */
  ghost function Unset(args: Args): Setting { Setting(None, None, StartRate(args), 0, 0) }

  /** The first message pins both clocks: the system clock first, then the one that paces. */
  ghost function FirstPin(args: Args, s: Setting, ts: real, look: nat, at: nat -> real): Setting {
    var base, seen := ts + args.start, at(look);
    Setting(Some(base), Some(Anchor(base, at(look + 1), SecondsToNanos(seen), seen, look)), s.rate, s.pins + 1,
            SecondsToNanos(seen))
  }

  /** A gate pins them anew: the clock that paces first, then the system clock. */
  ghost function Repinned(s: Setting, ts: real, look: nat, rate: real, at: nat -> real): Setting {
    var seen := at(look + 1);
    s.(anchor := Some(Anchor(ts, at(look), SecondsToNanos(seen), seen, look)), rate := rate, pins := s.pins + 1)
  }

  /** What each stamp mode maps stamps by: the anchor and the rate, the first anchor, or nothing. */
  ghost function MappingOf(args: Args, s: Setting): Retimer
    requires s.anchor.Some? && s.base.Some?
  {
    match args.stamps
    case ScaledStamps => Scaled(SecondsToNanos(s.anchor.value.recorded), s.anchor.value.wallNs, s.rate)
    case ShiftedStamps => Shifted(s.firstWallNs - SecondsToNanos(s.base.value))
    case OriginalStamps => Original
  }

  /** When the setting schedules a recording time for. */
  ghost function DueAt(s: Setting, ts: real): real
    requires s.anchor.Some? && s.rate > 0.0
  {
    s.anchor.value.wall + (ts - s.anchor.value.recorded) / s.rate
  }

  /** How a message sent at `at` reads: everything about it comes from the setting it was sent under. */
  ghost function ArrivalOf(args: Args, s: Setting, ts: real, at: real): Sent
    requires s.anchor.Some? && s.base.Some? && s.rate > 0.0
  {
    var anchor := s.anchor.value;
    Sent(s.pins, MappingOf(args, s).Map(SecondsToNanos(ts)), at, s.rate, anchor.seen - anchor.wall,
         Grain(ts, anchor.recorded))
  }

  /** The last millisecond before a deadline is spent yielding. */
  const SPIN := 0.001

  const NANOS := 1_000_000_000.0

  /**
    A published message: the arrival time its stamps are mapped around, when it went out, and
    which pinning of the anchor it went out under.
   */
  datatype Sent = Sent(pin: nat, arrivalNs: int, at: real, rate: real, skew: real, grain: real)

  /**
    How late a mapped arrival may read, in nanoseconds: one for rounding the anchor and the
    quotient, what rounding both recording times to whole nanoseconds grows to at this rate,
    and the time between the two looks at the clock that made the anchor.
   */
  function Slack(s: Sent): real
    requires s.rate > 0.0
  {
    1.0 + s.grain / s.rate + s.skew * NANOS
  }

  /** How far back a later arrival may read: half a nanosecond more, and never less than nothing. */
  function Lateness(s: Sent): real
    requires s.rate > 0.0
  {
    if Slack(s) + 0.5 > 0.0 then Slack(s) + 0.5 else 0.0
  }

  /** How far apart rounding moves a recording time and its anchor, in nanoseconds. */
  function Grain(ts: real, recorded: real): real {
    (SecondsToNanos(ts) as real - ts * NANOS) - (SecondsToNanos(recorded) as real - recorded * NANOS)
  }

  /** It is at most one nanosecond, and none at all when both are whole nanoseconds. */
  lemma GrainIsSmall(ts: real, recorded: real)
    requires ts >= 0.0 && recorded >= 0.0
    ensures -1.0 <= Grain(ts, recorded) <= 1.0
    ensures ts * NANOS == (ts * NANOS).Floor as real && recorded * NANOS == (recorded * NANOS).Floor as real
            ==> Grain(ts, recorded) == 0.0
  {
    hide SecondsToNanos;
    SecondsToNanosIsNear(ts);
    SecondsToNanosIsNear(recorded);
    if ts * NANOS == (ts * NANOS).Floor as real && recorded * NANOS == (recorded * NANOS).Floor as real {
      WholeNanosAreExact(ts, (ts * NANOS).Floor);
      WholeNanosAreExact(recorded, (recorded * NANOS).Floor);
    }
  }

  lemma WholeNanosAreExact(s: real, n: int)
    requires s >= 0.0 && s * NANOS == n as real
    ensures SecondsToNanos(s) == n
  {
    RoundIsNear(n as real);
  }

  /** So a mapped arrival is late by a nanosecond, the anchor's skew, and one more at the slowed-down scale. */
  lemma SlackIsBounded(s: Sent)
    requires s.rate > 0.0 && s.grain <= 1.0
    ensures Slack(s) <= 1.0 + 1.0 / s.rate + s.skew * NANOS
    ensures s.grain == 0.0 ==> Slack(s) == 1.0 + s.skew * NANOS
  {
    DivideKeepsOrder(s.grain, 1.0, s.rate);
  }

  /**
    A single nanosecond would not do: at the slowest rate a recording time 0.6 ns past its
    anchor, rounded up to 1 ns, is mapped 400 ns after the moment it is due.
   */
  lemma SlowRatesMagnifyRounding(wall: real)
    requires wall >= 0.0 && wall * NANOS == (wall * NANOS).Floor as real
    ensures var anchor := Anchor(0.0, wall, SecondsToNanos(wall), wall, 0);
            var ts := 0.000_000_000_6;
            var due := anchor.wall + (ts - anchor.recorded) / SLOWEST;
            var arrival := Scaled(SecondsToNanos(0.0), anchor.wallNs, SLOWEST).Map(SecondsToNanos(ts));
            arrival as real == due * NANOS + 400.0
  {
    var n := (wall * NANOS).Floor;
    WholeNanosAreExact(wall, n);
    WholeNanosAreExact(0.0, 0);
    assert SecondsToNanos(0.000_000_000_6) == 1 by {
      assert 0.000_000_000_6 * NANOS == 0.6;
    }
    assert (1 - 0) as real / SLOWEST == 1000.0;
    assert Round(1000.0) == 1000;
    assert 0.000_000_000_6 / SLOWEST * NANOS == 600.0;
  }

  /** A message held back until its recording time is due is never stamped later than it goes out. */
  lemma HeldBackIsOnTime(anchor: Anchor, rate: real, ts: real, at: real)
    requires rate > 0.0 && 0.0 <= anchor.recorded <= ts && anchor.seen >= 0.0
    requires anchor.wallNs == SecondsToNanos(anchor.seen)
    requires at >= anchor.wall + (ts - anchor.recorded) / rate
    ensures var arrival := anchor.wallNs + Round((SecondsToNanos(ts) - SecondsToNanos(anchor.recorded)) as real / rate);
            arrival as real <= at * NANOS + 1.0 + Grain(ts, anchor.recorded) / rate
                + (anchor.seen - anchor.wall) * NANOS
  {
    hide SecondsToNanos, Round, Grain;
    var elapsed := (SecondsToNanos(ts) - SecondsToNanos(anchor.recorded)) as real;
    var due, grain := (ts - anchor.recorded) / rate, Grain(ts, anchor.recorded);
    QuotientIs(ts, anchor.recorded, rate);
    RoundIsNear(elapsed / rate);
    SecondsToNanosIsNear(anchor.seen);
    assert due * NANOS <= (at - anchor.wall) * NANOS;
  }

  lemma ElapsedIs(ts: real, recorded: real)
    ensures (SecondsToNanos(ts) - SecondsToNanos(recorded)) as real == (ts - recorded) * NANOS + Grain(ts, recorded)
  {
  }

  lemma DivideSum(x: real, y: real, r: real)
    requires r > 0.0
    ensures (x + y) / r == x / r + y / r
  {
  }

  lemma DivideScaled(x: real, k: real, r: real)
    requires r > 0.0
    ensures (x * k) / r == (x / r) * k
  {
  }

  /** A message due under this anchor, mapped and sent on time, reads at most 1 ns and the skew late. */
  predicate WithinANano(ts: real, recorded: real, rate: real, wall: real, seen: real)
    requires rate > 0.0
  {
    (SecondsToNanos(seen) + Round((SecondsToNanos(ts) - SecondsToNanos(recorded)) as real / rate)) as real
    <= (wall + (ts - recorded) / rate) * NANOS + 1.0 + (seen - wall) * NANOS
  }

  /**
    One nanosecond and the skew do, at every rate and on every clock, exactly when rounding did not spread
    the times.
   */
  lemma OneNanoSufficesIff(ts: real, recorded: real)
    requires 0.0 <= recorded <= ts
    ensures (forall rate: real, wall: real, seen: real ::
               rate > 0.0 && seen >= 0.0 ==> WithinANano(ts, recorded, rate, wall, seen))
       <==> Grain(ts, recorded) <= 0.0
  {
    hide SecondsToNanos, Round, Grain, WithinANano;
    var grain := Grain(ts, recorded);
    if grain <= 0.0 {
      forall rate: real, wall: real, seen: real | rate > 0.0 && seen >= 0.0
        ensures WithinANano(ts, recorded, rate, wall, seen)
      {
        NoGrainIsWithin(ts, recorded, rate, wall, seen);
      }
    } else {
      GrainShows(ts, recorded);
      assert !WithinANano(ts, recorded, grain / 3.0, 0.0, 0.0);
    }
  }

  lemma QuotientIs(ts: real, recorded: real, rate: real)
    requires rate > 0.0
    ensures (SecondsToNanos(ts) - SecondsToNanos(recorded)) as real / rate
         == (ts - recorded) / rate * NANOS + Grain(ts, recorded) / rate
  {
    hide SecondsToNanos, Grain;
    ElapsedIs(ts, recorded);
    DivideSum((ts - recorded) * NANOS, Grain(ts, recorded), rate);
    DivideScaled(ts - recorded, NANOS, rate);
  }

  lemma NoGrainIsWithin(ts: real, recorded: real, rate: real, wall: real, seen: real)
    requires rate > 0.0 && seen >= 0.0 && Grain(ts, recorded) <= 0.0
    ensures WithinANano(ts, recorded, rate, wall, seen)
  {
    hide SecondsToNanos, Round, Grain;
    QuotientIs(ts, recorded, rate);
    DivideKeepsOrder(Grain(ts, recorded), 0.0, rate);
    RoundIsNear((SecondsToNanos(ts) - SecondsToNanos(recorded)) as real / rate);
    SecondsToNanosIsNear(seen);
  }

  /** Slowed down far enough, any grain shows. */
  lemma GrainShows(ts: real, recorded: real)
    requires Grain(ts, recorded) > 0.0
    ensures Grain(ts, recorded) / 3.0 > 0.0
    ensures !WithinANano(ts, recorded, Grain(ts, recorded) / 3.0, 0.0, 0.0)
  {
    hide SecondsToNanos, Round, Grain;
    var rate := Grain(ts, recorded) / 3.0;
    QuotientIs(ts, recorded, rate);
    ThirdOf(Grain(ts, recorded));
    RoundIsNear((SecondsToNanos(ts) - SecondsToNanos(recorded)) as real / rate);
    SecondsToNanosIsNear(0.0);
  }

  lemma ThirdOf(x: real)
    requires x > 0.0
    ensures x / (x / 3.0) == 3.0
  {
    var third := x / 3.0;
    DivideScaled(third, 3.0, third);
  }

  // ------------------------------------------------------------ across a new anchor

  function ArrivalUnder(anchor: Anchor, rate: real, ts: real): int
    requires rate > 0.0
  {
    Scaled(SecondsToNanos(anchor.recorded), anchor.wallNs, rate).Map(SecondsToNanos(ts))
  }

  function DueUnder(anchor: Anchor, rate: real, ts: real): real
    requires rate > 0.0
  {
    anchor.wall + (ts - anchor.recorded) / rate
  }

  /** A gate pinned at `seen`, and what follows it, reads no earlier than a message of the old anchor. */
  predicate FollowsOnAt(arrival: int, gate: real, seen: real, next: real, rate: real)
    requires rate > 0.0
  {
    arrival <= Scaled(SecondsToNanos(gate), SecondsToNanos(seen), rate).Map(SecondsToNanos(next))
  }

  /**
    Whenever the next gate is pinned after a message was due, at whatever new rate, nothing from
    then on reads as earlier than that message, exactly when the old anchor and rate map it no
    later than the instant they schedule it for.
   */
  lemma NewAnchorKeepsOrderIff(anchor: Anchor, rate: real, ts: real)
    requires rate > 0.0
    ensures var arrival, due := ArrivalUnder(anchor, rate, ts), DueUnder(anchor, rate, ts);
            (forall gate: real, seen: real, next: real, newRate: real ::
               newRate > 0.0 && due <= seen && gate <= next ==> FollowsOnAt(arrival, gate, seen, next, newRate))
            <==> arrival <= SecondsToNanos(due)
  {
    hide SecondsToNanos, Round, FollowsOnAt;
    var arrival, due := ArrivalUnder(anchor, rate, ts), DueUnder(anchor, rate, ts);
    PinnedArrival(arrival, ts, due, 1.0);
    if arrival <= SecondsToNanos(due) {
      forall gate: real, seen: real, next: real, newRate: real | newRate > 0.0 && due <= seen && gate <= next
        ensures FollowsOnAt(arrival, gate, seen, next, newRate)
      {
        LaterArrival(arrival, due, gate, seen, next, newRate);
      }
    } else {
      assert !FollowsOnAt(arrival, ts, due, ts, 1.0);
    }
  }

  lemma PinnedArrival(arrival: int, gate: real, seen: real, rate: real)
    requires rate > 0.0
    ensures FollowsOnAt(arrival, gate, seen, gate, rate) <==> arrival <= SecondsToNanos(seen)
  {
    hide SecondsToNanos;
    assert (SecondsToNanos(gate) - SecondsToNanos(gate)) as real / rate == 0.0;
    assert Round(0.0) == 0;
  }

  lemma LaterArrival(arrival: int, due: real, gate: real, seen: real, next: real, rate: real)
    requires rate > 0.0 && due <= seen && gate <= next && arrival <= SecondsToNanos(due)
    ensures FollowsOnAt(arrival, gate, seen, next, rate)
  {
    hide SecondsToNanos, Round, FollowsOnAt;
    SecondsToNanosIsMonotone(due, seen);
    SecondsToNanosIsMonotone(gate, next);
    PinnedArrival(arrival, gate, seen, rate);
    var r := Scaled(SecondsToNanos(gate), SecondsToNanos(seen), rate);
    ScaledIsMonotone(r, SecondsToNanos(gate), SecondsToNanos(next));
    assert FollowsOnAt(arrival, gate, seen, next, rate) by { LaterIsNoEarlier(arrival, gate, seen, next, rate); }
  }

  lemma LaterIsNoEarlier(arrival: int, gate: real, seen: real, next: real, rate: real)
    requires rate > 0.0 && FollowsOnAt(arrival, gate, seen, gate, rate)
    requires var r := Scaled(SecondsToNanos(gate), SecondsToNanos(seen), rate);
             r.Map(SecondsToNanos(gate)) <= r.Map(SecondsToNanos(next))
    ensures FollowsOnAt(arrival, gate, seen, next, rate)
  {
    hide SecondsToNanos, Round;
  }

  /**
    A gate whose second look at the clock came a microsecond after the first, a frame sent on
    time a second later, and a prompt second gate: the second gate reads as a microsecond
    earlier than the frame before it.
   */
  lemma NewAnchorCanGoBack()
    ensures var anchor := Anchor(0.0, 10.0, SecondsToNanos(10.000_001), 10.000_001, 0);
            var frame := ArrivalUnder(anchor, 1.0, 1.0);
            var gate := Scaled(SecondsToNanos(1.5), SecondsToNanos(11.0), 1.0).Map(SecondsToNanos(1.5));
            DueUnder(anchor, 1.0, 1.0) == 11.0 && gate == frame - 1000
  {
    WholeNanosAreExact(10.000_001, 10_000_001_000);
    WholeNanosAreExact(11.0, 11_000_000_000);
    WholeNanosAreExact(1.0, 1_000_000_000);
    WholeNanosAreExact(0.0, 0);
    assert Round(1_000_000_000.0) == 1_000_000_000 && Round(0.0) == 0;
  }

  // ------------------------------------------------------------ what was published

  ghost predicate RatesReach(r0: real, log: seq<Sent>) {
    forall k :: 0 <= k < |log| ==> log[k].rate > 0.0 && WithinReach(r0, log[k].rate)
  }

  /**
    Nothing published reads as arriving after it went out, or after anything published later,
    beyond the slack; and under one pinning of the anchor arrivals never go back at all.
   */
  ghost predicate OnTime(r0: real, log: seq<Sent>)
    requires RatesReach(r0, log)
  {
    && (forall k :: 0 <= k < |log| ==> log[k].arrivalNs as real <= log[k].at * NANOS + Slack(log[k]))
    && (forall k :: 0 <= k < |log| ==> -1.0 <= log[k].grain <= 1.0)
    && (forall i, j :: 0 <= i < j < |log| ==>
          log[i].arrivalNs as real <= log[j].arrivalNs as real + Lateness(log[i]))
    && (forall i, j :: 0 <= i < j < |log| ==>
          log[i].pin <= log[j].pin && (log[i].pin == log[j].pin ==> log[i].arrivalNs <= log[j].arrivalNs))
  }

  ghost predicate OutBy(log: seq<Sent>, now: real) {
    forall k :: 0 <= k < |log| ==> log[k].at <= now
  }

  /** Every arrival so far reads as no later than `floor`, which no later arrival will undercut. */
  ghost predicate Below(r0: real, log: seq<Sent>, pin: nat, floor: int)
    requires RatesReach(r0, log)
  {
    forall k :: 0 <= k < |log| ==>
      && log[k].arrivalNs as real <= floor as real + Lateness(log[k])
      && log[k].pin <= pin && (log[k].pin == pin ==> log[k].arrivalNs <= floor)
  }

  lemma NothingOut(r0: real, now: real, pin: nat, floor: int)
    ensures RatesReach(r0, []) && OnTime(r0, []) && OutBy([], now) && Below(r0, [], pin, floor)
  {
  }

  lemma BelowIsMonotone(r0: real, log: seq<Sent>, pin: nat, floor: int, higher: int)
    requires RatesReach(r0, log) && Below(r0, log, pin, floor) && floor <= higher
    ensures Below(r0, log, pin, higher)
  {
  }

  /** A fresh anchor is not before anything already published. */
  lemma PinnedNow(r0: real, log: seq<Sent>, pin: nat, r: Retimer, ts: real, seen: real)
    requires RatesReach(r0, log) && OnTime(r0, log) && OutBy(log, seen) && seen >= 0.0
    requires forall k :: 0 <= k < |log| ==> log[k].pin < pin
    requires r.Scaled? && r.Valid() && r.firstNs == SecondsToNanos(ts) && r.startWallNs == SecondsToNanos(seen)
    ensures Below(r0, log, pin, r.Map(SecondsToNanos(ts)))
  {
    hide SecondsToNanos, Slack;
    SecondsToNanosIsNear(seen);
    assert Round(0.0) == 0;
  }

  lemma OneMoreOut(r0: real, log: seq<Sent>, s: Sent)
    requires RatesReach(r0, log) && OnTime(r0, log)
    requires s.rate > 0.0 && WithinReach(r0, s.rate) && -1.0 <= s.grain <= 1.0
    requires s.arrivalNs as real <= s.at * NANOS + Slack(s)
    requires Below(r0, log, s.pin, s.arrivalNs)
    ensures RatesReach(r0, log + [s]) && OnTime(r0, log + [s])
    ensures Below(r0, log + [s], s.pin, s.arrivalNs)
  {
    hide Slack, WithinReach;
  }

  class Pacer {
    const args: Args
    const clock: Clock
    var base: Option<real>
    var anchor: Option<Anchor>
    var rate: real
    var retimer: Retimer
    ghost var log: seq<Sent>
    /** How often the anchor was pinned. */
    ghost var pins: nat
    /** The wall clock the first message was pinned to, which shifted stamps are measured from. */
    ghost var firstWallNs: int
    /** The latest recording time released so far. */
    ghost var frontier: real
    ghost var lastTs: Option<real>
    /** The records pulled so far came in order, at times after the epoch. */
    ghost var ordered: bool

    ghost function InitialRate(): real { StartRate(args) }

    ghost function Set(): Setting
      reads this`base, this`anchor, this`rate, this`pins, this`firstWallNs
    {
      Setting(base, anchor, rate, pins, firstWallNs)
    }

    /** Messages are paced, and stamps track their emission. */
    ghost predicate Paces()
      reads this`base
    {
      args.stamps.ScaledStamps? && args.rate > 0.0 && (base.Some? ==> base.value >= 0.0)
    }

    ghost predicate AnchorValid()
      reads this, clock
    {
      && (anchor.Some? <==> base.Some?)
      && (anchor.Some? ==>
            && anchor.value.look + 2 <= clock.tick && AnchorLooks(anchor.value)
            && anchor.value.wallNs == SecondsToNanos(anchor.value.seen))
      && (anchor.None? <==> pins == 0)
    }

    /** An anchor is two looks in a row: the first one saw the system clock first, the others last. */
    ghost predicate AnchorLooks(a: Anchor)
      reads this`pins
    {
      if pins == 1 then a.seen == clock.at(a.look) && a.wall == clock.at(a.look + 1)
      else a.wall == clock.at(a.look) && a.seen == clock.at(a.look + 1)
    }

    /** The retimer is the setting's, whatever else happened. */
    ghost predicate RetimerValid()
      reads this
    {
      retimer.Valid() && (anchor.Some? ==> base.Some? && retimer == MappingOf(args, Set()))
    }

    ghost predicate Valid()
      reads this, clock
    {
      && clock.Valid() && args.rate >= 0.0
      && rate > 0.0 && WithinReach(InitialRate(), rate)
      && AnchorValid() && RetimerValid()
      && RatesReach(InitialRate(), log)
      && (anchor.None? ==> log == [] && lastTs.None? && Set() == Unset(args))
      && (lastTs.Some? ==> base.Some?)
      && (Paces() && ordered && anchor.Some? ==> InStep())
    }

    ghost predicate InStep()
      reads this, clock
      requires anchor.Some? && base.Some? && retimer.Valid() && RatesReach(InitialRate(), log)
    {
      && 0.0 <= anchor.value.recorded <= frontier
      && (frontier <= base.value || (lastTs.Some? && frontier <= lastTs.value))
      && OnTime(InitialRate(), log)
      && OutBy(log, clock.Latest())
      && Below(InitialRate(), log, pins, retimer.Map(SecondsToNanos(frontier)))
    }

    constructor (args: Args, clock: Clock)
      requires args.rate >= 0.0 && clock.Valid()
      ensures Valid() && this.args == args && this.clock == clock
      ensures log == [] && ordered && Set() == Unset(args)
    {
      this.args := args;
      this.clock := clock;
      base := None;
      anchor := None;
      rate := if args.rate == 0.0 then 1.0 else args.rate;
      retimer := Original;
      log := [];
      pins := 0;
      firstWallNs := 0;
      frontier := 0.0;
      lastTs := None;
      ordered := true;
    }

    lemma PacedLogIsOnTime()
      requires Valid()
      ensures RatesReach(InitialRate(), log)
      ensures Paces() && ordered ==> OnTime(InitialRate(), log)
    {
    }

    lemma RetimerFits()
      requires Valid()
      ensures clock.Valid() && rate > 0.0 && WithinReach(InitialRate(), rate) && InitialRate() > 0.0
      ensures retimer.Valid() && (anchor.Some? <==> base.Some?)
      ensures anchor.Some? ==> clock.tick >= 2 && retimer == MappingOf(args, Set())
    {
    }

    /** Time passing disturbs nothing. */
    twostate lemma StillValid(ts: real)
      requires old(Valid()) && unchanged(this) && clock.Valid() && old(clock.tick) <= clock.tick
      ensures Valid() && (old(Due(ts)) ==> Due(ts))
    {
      hide RatesReach, OnTime, Below, Round, SecondsToNanos, WithinReach;
      clock.TimePassed();
      assert OutBy(log, old(clock.Latest())) ==> OutBy(log, clock.Latest());
    }

    /** The first message that survives filtering anchors both clocks. */
    method Pin(ts: real)
      requires Valid()
      modifies this`base, this`anchor, this`retimer, this`firstWallNs, this`pins, this`frontier, this`lastTs,
        this`ordered, clock
      ensures Valid() && clock.tick == old(clock.tick) + if old(anchor).None? then 2 else 0
      ensures anchor.Some? && lastTs == Some(ts)
      ensures Set() == if old(anchor).Some? then old(Set())
                       else FirstPin(args, old(Set()), ts, old(clock.tick), clock.at)
      ensures ordered <==> old(ordered) && ts >= 0.0 && (old(lastTs).Some? ==> old(lastTs).value <= ts)
    {
      hide RatesReach, OnTime, Below, Round, SecondsToNanos, WithinReach;
      if anchor.None? { PinFirst(ts); }
      ordered := ordered && ts >= 0.0 && (lastTs.Some? ==> lastTs.value <= ts);
      lastTs := Some(ts);
    }

    method PinFirst(ts: real)
      requires Valid() && anchor.None?
      modifies this`base, this`anchor, this`retimer, this`firstWallNs, this`pins, this`frontier, clock
      ensures clock.tick == old(clock.tick) + 2
      ensures Set() == FirstPin(args, old(Set()), ts, old(clock.tick), clock.at)
      ensures clock.Valid() && AnchorValid() && RetimerValid()
      ensures Paces() && ts >= 0.0 ==> InStep()
    {
      hide Valid, AnchorValid, RetimerValid, InStep, SecondsToNanos, Clock.Valid;
      NothingYet();
      base := Some(ts + args.start);
      ghost var look := clock.tick;
      var unixNow := clock.Now();
      var wallNs := SecondsToNanos(unixNow);
      var baseNs := SecondsToNanos(base.value);
      retimer := match args.stamps
        case OriginalStamps => Original
        case ShiftedStamps => Shifted(wallNs - baseNs)
        case ScaledStamps => Scaled(baseNs, wallNs, rate);
      var wall := clock.Now();
      anchor := Some(Anchor(base.value, wall, wallNs, unixNow, look));
      firstWallNs := wallNs;
      pins := pins + 1;
      frontier := base.value;
      IsPinnedFirst(ts, look);
    }

    lemma NothingYet()
      requires Valid() && anchor.None?
      ensures Set() == Unset(args) && log == [] && rate > 0.0 && clock.Valid()
    {
    }

    /** Pinned at two looks, with nothing out yet, anchor and retimer agree. */
    lemma IsPinnedFirst(ts: real, look: nat)
      requires clock.Valid() && clock.tick == look + 2 && rate > 0.0 && log == []
      requires Set() == FirstPin(args, Unset(args), ts, look, clock.at) && frontier == base.value
      requires retimer == MappingOf(args, Set())
      ensures AnchorValid() && RetimerValid() && (Paces() && ts >= 0.0 ==> InStep())
    {
      hide RatesReach, OnTime, Below, Round, SecondsToNanos, WithinReach;
      NothingOut(InitialRate(), clock.Latest(), pins, retimer.Map(SecondsToNanos(frontier)));
    }

    /** Waiting for the answer to the gate before leaves the anchor alone and yields a rate within reach. */
    method AwaitReply(ts: real, lockstep: Lockstep) returns (newRate: real)
      requires Valid() && lockstep.Valid(clock.tick)
      modifies clock, lockstep`timeouts, lockstep`outstanding, lockstep`answers
      ensures Valid() && clock.tick >= old(clock.tick) && newRate > 0.0 && WithinReach(InitialRate(), newRate)
      ensures lockstep.Valid(clock.tick) && lockstep.outstanding == None
      ensures lockstep.Waited(old(lockstep.outstanding), old(lockstep.timeouts), old(clock.tick), clock.tick,
                              ts, rate, newRate, clock)
    {
      hide Blend, WithinReach, Lockstep.Valid, Valid, WaitedAs, Clock.Valid;
      RetimerFits();
      newRate := lockstep.Wait(clock, ts, rate);
      StillValid(ts);
      WaitKeepsReach(InitialRate(), clock.at, lockstep.arrivals.count, lockstep.arrivals.latest, lockstep.timeout,
                     old(lockstep.outstanding), lockstep.timeouts > old(lockstep.timeouts), old(clock.tick), clock.tick,
                     ts, rate, newRate);
    }

    /** A gate message is released by the downstream node, and pins the clocks anew. */
    method Gate(ts: real, lockstep: Lockstep)
      requires Valid() && anchor.Some? && lastTs == Some(ts) && base.value <= ts
      requires lockstep.Valid(clock.tick)
      modifies this`anchor, this`rate, this`retimer, this`pins, this`frontier, clock,
        lockstep`timeouts, lockstep`outstanding, lockstep`answers
      ensures Valid() && frontier == ts && Due(ts)
      ensures clock.tick >= old(clock.tick) + 2 && Set() == Repinned(old(Set()), ts, clock.tick - 2, rate, clock.at)
      ensures lockstep.Valid(clock.tick) && lockstep.outstanding == None
      ensures lockstep.Waited(old(lockstep.outstanding), old(lockstep.timeouts), old(clock.tick), clock.tick - 2,
                              ts, old(rate), rate, clock)
    {
      hide WithinReach, Lockstep.Valid, Lockstep.Waited, Valid, SecondsToNanos, Due, Clock.Valid;
      var newRate := AwaitReply(ts, lockstep);
      Repin(ts, newRate);
      lockstep.StillValid(clock.tick - 2, clock.tick);
    }

    method Repin(ts: real, newRate: real)
      requires Valid() && anchor.Some? && lastTs == Some(ts) && base.value <= ts
      requires newRate > 0.0 && WithinReach(InitialRate(), newRate)
      modifies this`anchor, this`rate, this`retimer, this`pins, this`frontier, clock
      ensures Valid() && clock.tick == old(clock.tick) + 2 && frontier == ts
      ensures Set() == Repinned(old(Set()), ts, old(clock.tick), newRate, clock.at)
      ensures Due(ts)
    {
      hide Valid, RetimerValid, InStep, Due, SecondsToNanos, WithinReach, RatesReach, OnTime, Below, OutBy, MappingOf,
        Clock.Valid;
      RetimerFits();
      PinsAreBehind();
      ghost var look, before := clock.tick, Set();
      rate := newRate;
      var wall := clock.Now();
      var unixNow := clock.Now();
      var wallNs := SecondsToNanos(unixNow);
      anchor := Some(Anchor(ts, wall, wallNs, unixNow, look));
      if retimer.Scaled? {
        retimer := Scaled(SecondsToNanos(ts), wallNs, rate);
      }
      frontier := ts;
      pins := pins + 1;
      RetimerFollows(before, ts, look);
      IsPinned(ts, old(clock.Latest()));
    }

    /** What is out went out under the pins so far, by now. */
    lemma PinsAreBehind()
      requires Valid() && anchor.Some?
      ensures pins > 0 && RatesReach(InitialRate(), log)
      ensures Paces() && ordered ==>
                && OnTime(InitialRate(), log) && OutBy(log, clock.Latest())
                && forall k :: 0 <= k < |log| ==> log[k].pin <= pins
    {
      hide OnTime, SecondsToNanos;
    }

    /** Only a scaled mapping moves with the anchor. */
    lemma RetimerFollows(s: Setting, ts: real, look: nat)
      requires s.anchor.Some? && s.base.Some? && s.rate > 0.0 && rate > 0.0
      requires Set() == Repinned(s, ts, look, rate, clock.at)
      requires retimer == if MappingOf(args, s).Scaled? then Scaled(SecondsToNanos(ts), anchor.value.wallNs, rate)
                          else MappingOf(args, s)
      ensures RetimerValid()
    {
      hide SecondsToNanos;
    }

    /** Pinned at a look after everything that is out, the pacer is valid. */
    lemma IsPinned(ts: real, earlier: real)
      requires clock.Valid() && AnchorValid() && RetimerValid() && args.rate >= 0.0
      requires rate > 0.0 && WithinReach(InitialRate(), rate) && RatesReach(InitialRate(), log)
      requires anchor.Some? && anchor.value.recorded == ts == frontier && lastTs == Some(ts) && base.value <= ts
      requires pins > 1 && clock.tick == anchor.value.look + 2 && earlier <= anchor.value.wall
      requires Paces() && ordered ==>
                 && OnTime(InitialRate(), log) && OutBy(log, earlier)
                 && forall k :: 0 <= k < |log| ==> log[k].pin < pins
      ensures Valid() && Due(ts)
    {
      hide SecondsToNanos, WithinReach, RatesReach, OnTime, Below, Round;
      assert (ts - ts) / rate == 0.0;
      if Paces() && ordered {
        var seen := anchor.value.seen;
        assert seen == clock.Latest() && earlier <= seen;
        assert OutBy(log, seen);
        PinnedNow(InitialRate(), log, pins, retimer, ts, seen);
      }
    }

    /** When a message at `ts` is waited for; one from before the anchor is not waited for at all. */
    static function Target(a: Anchor, rate: real, ts: real): real
      requires rate > 0.0
    {
      a.wall + (if ts < a.recorded then 0.0 else ts - a.recorded) / rate
    }

    /** Everything between two gates is spread over the clock by the anchor and the rate. */
    method SleepUntilDue(ts: real)
      requires Valid() && anchor.Some? && lastTs == Some(ts) && base.value <= ts
      modifies this`frontier, clock
      ensures Valid() && clock.tick >= old(clock.tick) && frontier == ts
      ensures args.rate > 0.0 ==> Due(ts)
      ensures if args.rate > 0.0
              then rate > 0.0 && SleptUntil(Target(anchor.value, rate, ts), old(clock.tick), clock.tick)
              else clock.tick == old(clock.tick)
    {
      hide RatesReach, OnTime, Below, Round, SecondsToNanos, WithinReach;
      if args.rate > 0.0 {
        var ahead := if ts - anchor.value.recorded < 0.0 then 0.0 else ts - anchor.value.recorded;
        DivideKeepsOrder(ts - anchor.value.recorded, ahead, rate);
        SleepUntil(anchor.value.wall + ahead / rate);
      }
      Advance(ts);
    }

    /** The moment the anchor and the rate schedule `ts` for has come. */
    ghost predicate Due(ts: real)
      reads this, clock
    {
      anchor.Some? && rate > 0.0 && clock.Latest() >= DueAt(Set(), ts)
    }

    ghost method Advance(ts: real)
      requires Valid() && anchor.Some? && lastTs == Some(ts) && base.value <= ts
      modifies this`frontier
      ensures Valid() && frontier == ts
    {
      hide RatesReach, OnTime, Below, Round, SecondsToNanos, WithinReach;
      if Paces() && ordered {
        SecondsToNanosIsMonotone(frontier, ts);
        ScaledIsMonotone(retimer, SecondsToNanos(frontier), SecondsToNanos(ts));
        BelowIsMonotone(InitialRate(), log, pins, retimer.Map(SecondsToNanos(frontier)),
            retimer.Map(SecondsToNanos(ts)));
      }
      frontier := ts;
    }

    /** The look that follows the sleep, or the first look if `target` is at most a millisecond off. */
    function Woken(target: real, from: nat): nat {
      if target - clock.at(from) > 0.001 then clock.Awake(from + 1) else from + 1
    }

    /** From look `from`, no sleep but that one, and no look after the first that shows `target` has come. */
    ghost predicate SleptUntil(target: real, from: nat, tick: nat) {
      && Woken(target, from) < tick && target <= clock.at(tick - 1)
      && (forall k :: Woken(target, from) <= k < tick - 1 ==> clock.at(k) < target)
      && (target <= clock.at(from) ==> tick == from + 2)
    }

    /** Sleeps to just short of `target`, then yields until it arrives. */
    method SleepUntil(target: real)
      requires clock.Valid()
      modifies clock
      ensures clock.Valid() && clock.tick >= old(clock.tick) && clock.Latest() >= old(clock.Latest())
      ensures clock.Latest() >= target && SleptUntil(target, old(clock.tick), clock.tick)
    {
      var now := clock.Now();
      if target - now > SPIN {
        clock.Sleep();
      }
      ghost var look := clock.tick;
      now := clock.Now();
      while now < target
        invariant clock.Valid() && clock.tick > old(clock.tick)
        invariant look < clock.tick && look == Woken(target, old(clock.tick))
        invariant forall k :: look <= k < clock.tick - 1 ==> clock.at(k) < target
        invariant now == clock.Latest() >= old(clock.Latest())
        decreases clock.reach(target) + 1 - clock.tick
      {
        now := clock.Now();
      }
    }

    /** The message released last has gone out by now: what its stamps were mapped around is on record. */
    ghost method Published(ts: real)
      requires Valid() && anchor.Some? && frontier == ts
      requires args.rate > 0.0 ==> Due(ts)
      modifies this`log
      ensures Valid()
      ensures args.stamps.ScaledStamps? ==>
                base.Some? && rate > 0.0 && log == old(log) + [ArrivalOf(args, Set(), ts, clock.Latest())]
      ensures !args.stamps.ScaledStamps? ==> log == old(log)
    {
      hide RatesReach, OnTime, Below, Round, SecondsToNanos, WithinReach, Grain;
      if args.stamps.ScaledStamps? {
        var s := ArrivalOf(args, Set(), ts, clock.Latest());
        if Paces() && ordered {
          GrainIsSmall(ts, anchor.value.recorded);
          HeldBackIsOnTime(anchor.value, rate, ts, clock.Latest());
          OneMoreOut(InitialRate(), log, s);
        }
        OneMoreRate(InitialRate(), log, s);
        log := log + [s];
      }
    }
  }

  lemma OneMoreRate(r0: real, log: seq<Sent>, s: Sent)
    requires RatesReach(r0, log) && s.rate > 0.0 && WithinReach(r0, s.rate)
    ensures RatesReach(r0, log + [s])
  {
  }
}
