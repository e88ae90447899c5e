/** Letting a downstream node set the pace (src/lockstep.rs). */
module Lockstepping {
  import opened Prelude
  import opened Clocks

  // ------------------------------------------------------------ the running rate

  const SMOOTHING := 0.3
  const SLOWEST := 0.001
  const FASTEST := 1000.0

  function Clamp(x: real): real {
    if x < SLOWEST then SLOWEST else if x > FASTEST then FASTEST else x
  }

  /** `recorded` seconds of the recording were answered in `wall` seconds of real time. */
  function Blend(rate: real, recorded: real, wall: real): real {
    if wall <= 0.0 || recorded <= 0.0 then rate
    else rate + SMOOTHING * (Clamp(recorded / wall) - rate)
  }

  /** Where the rate can be after any number of cycles, having started at `r0`. */
  predicate WithinReach(r0: real, rate: real) {
    && (rate >= r0 || rate >= SLOWEST)
    && (rate <= r0 || rate <= FASTEST)
  }

  /** Blending moves the rate towards a bounded measurement, so it never leaves its reach. */
  lemma BlendStaysWithinReach(r0: real, rate: real, recorded: real, wall: real)
    requires r0 > 0.0 && rate > 0.0 && WithinReach(r0, rate)
    ensures WithinReach(r0, Blend(rate, recorded, wall)) && Blend(rate, recorded, wall) > 0.0
  {
  }

  function BlendMany(rate: real, recorded: real, wall: real, n: nat): real {
    if n == 0 then rate else Blend(BlendMany(rate, recorded, wall, n - 1), recorded, wall)
  }

  function Decay(n: nat): real { if n == 0 then 1.0 else 0.7 * Decay(n - 1) }

  /**
    Equal measurements leave the rate alone when no time passed on either clock, and otherwise
    close the gap to the measured pace, held between a thousandth and a thousand, by the same
    factor each cycle.
   */
  lemma {:induction false} BlendConverges(rate: real, recorded: real, wall: real, n: nat)
    ensures recorded <= 0.0 || wall <= 0.0 ==> BlendMany(rate, recorded, wall, n) == rate
    ensures recorded > 0.0 && wall > 0.0 ==>
              var pace := recorded / wall;
              var limit := if pace < 0.001 then 0.001 else if pace > 1000.0 then 1000.0 else pace;
              BlendMany(rate, recorded, wall, n) - limit == Decay(n) * (rate - limit)
  {
    if n > 0 {
      BlendConverges(rate, recorded, wall, n - 1);
      if recorded > 0.0 && wall > 0.0 {
        var before, o := BlendMany(rate, recorded, wall, n - 1), Clamp(recorded / wall);
        assert Blend(before, recorded, wall) - o == 0.7 * (before - o);
        assert 0.7 * (Decay(n - 1) * (rate - o)) == (0.7 * Decay(n - 1)) * (rate - o);
      }
    }
  }

  /**
    One answered cycle: three tenths of the way to the pace at which `recorded` seconds were
    answered between the publish and the reply, held between a thousandth and a thousand; no
    step at all if the reply was no later than the publish or the recording did not advance.
   */
  predicate Eased(rate: real, recorded: real, publishedAt: real, answeredAt: real, newRate: real) {
    if recorded <= 0.0 || answeredAt <= publishedAt then newRate == rate
    else
      var pace := recorded / (answeredAt - publishedAt);
      newRate == 0.7 * rate + 0.3 * (if pace < 0.001 then 0.001 else if pace > 1000.0 then 1000.0 else pace)
  }

  lemma BlendIsEased(rate: real, recorded: real, publishedAt: real, answeredAt: real)
    ensures Eased(rate, recorded, publishedAt, answeredAt, Blend(rate, recorded, Since(publishedAt, answeredAt)))
  {
  }

  // ------------------------------------------------------------ replies

  /**
    The watched topic as the receiver sees it: what a read made between the looks k - 1 and k
    finds, how many replies there have been and when the latest of them came. A reply between
    that read and look k is left to the next read.
   */
  class Arrivals {
    const count: nat -> nat
    const latest: nat -> real

    ghost predicate Valid() {
      forall i: nat, j: nat :: i <= j ==> count(i) <= count(j)
    }

    constructor (count: nat -> nat, latest: nat -> real)
      requires forall i: nat, j: nat :: i <= j ==> count(i) <= count(j)
      ensures Valid() && this.count == count && this.latest == latest
    {
      this.count := count;
      this.latest := latest;
    }

    /**
      Waits for the count to move on from `seen`, until `deadline`. Whenever it is woken it looks
      for a change before it looks at the timer, so only a timer that has run out over an unmoved
      count is reported as elapsed. A closed channel wakes it like a change does.
     */
    method Changed(clock: Clock, deadline: real, seen: nat) returns (elapsed: bool)
      requires clock.Valid()
      modifies clock
      ensures clock.Valid() && clock.tick > old(clock.tick) && clock.Latest() >= old(clock.Latest())
      ensures elapsed <==> count(clock.tick - 1) == seen && clock.Latest() >= deadline
    {
      clock.Sleep();
      var unmoved := count(clock.tick) == seen;
      var now := clock.Now();
      elapsed := unmoved && now >= deadline;
    }
  }

  /** A gate message that has gone out and is waiting to be answered. */
  datatype Outstanding = Outstanding(repliesBefore: nat, publishedAt: real, recordedTs: real)

  /** `saturating_duration_since`. */
  function Since(from: real, to: real): real { if to < from then 0.0 else to - from }

  predicate Increasing(counts: seq<nat>) {
    && (forall i :: 0 <= i < |counts| ==> counts[i] > 0)
    && (forall i, j :: 0 <= i < j < |counts| ==> counts[i] < counts[j])
  }

  lemma {:induction false} IncreasingIsShort(counts: seq<nat>)
    requires Increasing(counts) && counts != []
    ensures |counts| <= counts[|counts| - 1]
    decreases |counts|
  {
    if |counts| > 1 { IncreasingIsShort(counts[..|counts| - 1]); }
  }

  lemma IncreasingMore(counts: seq<nat>, next: nat)
    requires Increasing(counts) && next > 0
    requires counts != [] ==> counts[|counts| - 1] < next
    ensures Increasing(counts + [next])
  {
  }

  ghost predicate WaitedAs(at: nat -> real, count: nat -> nat, latest: nat -> real, timeout: real,
                           o: Option<Outstanding>, timedOut: bool, from: nat, tick: nat, recordedTs: real,
                           rate: real, newRate: real)
  {
    if o.None? then !timedOut && newRate == rate && tick == from
    else if timedOut then
      newRate == rate && tick > from && count(tick - 1) <= o.value.repliesBefore && at(tick - 1) >= at(from) + timeout
    else
      && count(tick) > o.value.repliesBefore
      && newRate == Blend(rate, recordedTs - o.value.recordedTs, Since(o.value.publishedAt, latest(tick)))
  }

  /** An answered wait eases the rate towards the measured pace, and any other leaves it alone. */
  lemma WaitEases(at: nat -> real, count: nat -> nat, latest: nat -> real, timeout: real,
                  o: Option<Outstanding>, timedOut: bool, from: nat, tick: nat, recordedTs: real,
                  rate: real, newRate: real)
    requires WaitedAs(at, count, latest, timeout, o, timedOut, from, tick, recordedTs, rate, newRate)
    ensures o.None? || timedOut ==> newRate == rate
    ensures o.Some? && !timedOut ==>
              Eased(rate, recordedTs - o.value.recordedTs, o.value.publishedAt, latest(tick), newRate)
  {
    hide Blend, Eased;
    if o.Some? && !timedOut {
      BlendIsEased(rate, recordedTs - o.value.recordedTs, o.value.publishedAt, latest(tick));
    }
  }

  /** However a wait comes out, the rate stays where blending can take it. */
  lemma WaitKeepsReach(r0: real, at: nat -> real, count: nat -> nat, latest: nat -> real, timeout: real,
                       o: Option<Outstanding>, timedOut: bool, from: nat, tick: nat, recordedTs: real,
                       rate: real, newRate: real)
    requires r0 > 0.0 && rate > 0.0 && WithinReach(r0, rate)
    requires WaitedAs(at, count, latest, timeout, o, timedOut, from, tick, recordedTs, rate, newRate)
    ensures newRate > 0.0 && WithinReach(r0, newRate)
  {
    if o.Some? && !timedOut {
      BlendStaysWithinReach(r0, rate, recordedTs - o.value.recordedTs, Since(o.value.publishedAt, latest(tick)));
    }
  }

  class Lockstep {
    const stream: nat
    const timeout: real
    const arrivals: Arrivals
    var timeouts: nat
    var outstanding: Option<Outstanding>
    /** Gate messages published so far, over every pass. */
    ghost var gates: nat
    /** The reply count each answered wait was satisfied by. */
    ghost var answers: seq<nat>

    /**
      Every gate published was answered, timed out, or is outstanding; no reply count answered
      twice; and whatever is outstanding is only answered by replies later than all of those.
     */
    ghost predicate Valid(tick: nat)
      reads this
    {
      && arrivals.Valid() && timeout >= 0.0
      && gates == |answers| + timeouts + (if outstanding.Some? then 1 else 0)
      && Increasing(answers)
      && (answers != [] ==> answers[|answers| - 1] <= arrivals.count(tick))
      && (outstanding.Some? ==> outstanding.value.repliesBefore <= arrivals.count(tick))
      && (outstanding.Some? && answers != [] ==> answers[|answers| - 1] <= outstanding.value.repliesBefore)
    }

    constructor (stream: nat, timeout: real, arrivals: Arrivals)
      requires arrivals.Valid() && timeout >= 0.0
      ensures forall tick: nat :: Valid(tick)
      ensures this.stream == stream && this.timeout == timeout && this.arrivals == arrivals
      ensures gates == 0 && timeouts == 0 && outstanding == None && answers == []
    {
      this.stream := stream;
      this.timeout := timeout;
      this.arrivals := arrivals;
      timeouts := 0;
      outstanding := None;
      gates := 0;
      answers := [];
    }

    lemma StillValid(earlier: nat, tick: nat)
      requires earlier <= tick && Valid(earlier)
      ensures Valid(tick)
    {
      assert arrivals.count(earlier) <= arrivals.count(tick);
    }

    /** The pace is bounded by the answers: at most one publish is ever unaccounted for. */
    lemma GatesAreAnswered(tick: nat)
      requires Valid(tick)
      ensures gates <= 1 + arrivals.count(tick) + timeouts
      ensures outstanding.None? ==> gates <= arrivals.count(tick) + timeouts
    {
      if answers != [] { IncreasingIsShort(answers); }
    }

    /**
      How a wait that began at look `from` with `o` outstanding and `before` timeouts came out by
      look `tick`: without a gate nothing happened; otherwise it either timed out, when no reply
      was in at the read before the look that found the deadline past, or it was answered by a
      later count, which blends the time since the publish into the rate.
     */
    ghost predicate Waited(o: Option<Outstanding>, before: nat, from: nat, tick: nat, recordedTs: real,
                           rate: real, newRate: real, clock: Clock)
      reads this`timeouts
    {
      && from <= tick && (timeouts == before || timeouts == before + 1)
      && WaitedAs(clock.at, arrivals.count, arrivals.latest, timeout, o, timeouts > before, from, tick,
                  recordedTs, rate, newRate)
    }

    /**
      The arrival instant of the latest reply once more than `repliesBefore` have arrived, or
      None, and then only when the look that found the deadline past found no such reply. A
      closed channel is not told apart from a quiet one, so it too waits out the deadline.
     */
    method NextReply(clock: Clock, repliesBefore: nat) returns (r: Option<real>)
      requires clock.Valid() && arrivals.Valid() && timeout >= 0.0
      modifies clock
      ensures clock.Valid() && clock.tick > old(clock.tick) && clock.Latest() >= old(clock.Latest())
      ensures r.Some? ==> arrivals.count(clock.tick) > repliesBefore && r.value == arrivals.latest(clock.tick)
      ensures r.None? ==> arrivals.count(clock.tick - 1) <= repliesBefore
                          && clock.Latest() >= clock.at(old(clock.tick)) + timeout
      ensures (exists k: nat :: arrivals.count(k) > repliesBefore && clock.at(k) < clock.at(old(clock.tick)) + timeout)
              ==> r.Some?
    {
      var start := clock.Now();
      var deadline := start + timeout;
      while true
        invariant clock.Valid() && clock.tick > old(clock.tick) && clock.Latest() >= start
        invariant start == clock.at(old(clock.tick))
        decreases clock.reach(deadline) + 1 - clock.tick
      {
        var replies, arrived := arrivals.count(clock.tick), arrivals.latest(clock.tick);
        if replies > repliesBefore { return Some(arrived); }
        var now := clock.Now();
        if now >= deadline { return None; }
        var elapsed := arrivals.Changed(clock, deadline, replies);
        if elapsed { return None; }
      }
    }

    /** One more count is answered, and the time from the publish to the reply eases the rate. */
    method Fold(o: Outstanding, arrived: real, recordedTs: real, rate: real, ghost count: nat) returns (newRate: real)
      requires Increasing(answers) && count > 0 && (answers != [] ==> answers[|answers| - 1] < count)
      modifies this`answers
      ensures Increasing(answers) && answers == old(answers) + [count]
      ensures newRate == Blend(rate, recordedTs - o.recordedTs, Since(o.publishedAt, arrived))
      ensures Eased(rate, recordedTs - o.recordedTs, o.publishedAt, arrived, newRate)
    {
      hide Blend, Increasing, Eased;
      newRate := Blend(rate, recordedTs - o.recordedTs, Since(o.publishedAt, arrived));
      BlendIsEased(rate, recordedTs - o.recordedTs, o.publishedAt, arrived);
      IncreasingMore(answers, count);
      answers := answers + [count];
    }

    /** Consumes the outstanding gate: a reply folds into the rate, a timeout is counted. */
    method Wait(clock: Clock, recordedTs: real, rate: real) returns (newRate: real)
      requires clock.Valid() && Valid(clock.tick)
      modifies this`timeouts, this`outstanding, this`answers, clock
      ensures clock.Valid() && clock.tick >= old(clock.tick) && clock.Latest() >= old(clock.Latest())
      ensures Valid(clock.tick) && outstanding == None
      ensures Waited(old(outstanding), old(timeouts), old(clock.tick), clock.tick, recordedTs, rate, newRate, clock)
      ensures old(outstanding).None? ==> answers == old(answers) && clock.tick == old(clock.tick)
      ensures timeouts > old(timeouts) ==>
                && answers == old(answers) && old(outstanding).Some? && clock.tick > 0
                && arrivals.count(clock.tick - 1) <= old(outstanding).value.repliesBefore
                && clock.Latest() >= clock.at(old(clock.tick)) + timeout
      ensures old(outstanding).Some? && timeouts == old(timeouts) ==>
                && answers == old(answers) + [arrivals.count(clock.tick)]
                && Eased(rate, recordedTs - old(outstanding).value.recordedTs, old(outstanding).value.publishedAt,
                         arrivals.latest(clock.tick), newRate)
      ensures old(outstanding).None? || timeouts > old(timeouts) ==> newRate == rate
      ensures old(outstanding).Some?
              && (exists k: nat :: arrivals.count(k) > old(outstanding).value.repliesBefore
                                   && clock.at(k) < clock.at(old(clock.tick)) + timeout)
              ==> timeouts == old(timeouts)
    {
      hide Blend, Increasing, Clock.Valid, Eased;
      if outstanding.None? { return rate; }
      var o := outstanding.value;
      outstanding := None;
      var reply := NextReply(clock, o.repliesBefore);
      assert arrivals.count(old(clock.tick)) <= arrivals.count(clock.tick);
      match reply {
        case Some(arrived) =>
          newRate := Fold(o, arrived, recordedTs, rate, arrivals.count(clock.tick));
        case None =>
          timeouts := timeouts + 1;
          newRate := rate;
      }
    }

    /** Records that a gate message just went out; replies counted by now do not answer it. */
    method Sent(clock: Clock, recordedTs: real, publishedAt: real)
      requires clock.Valid() && Valid(clock.tick) && outstanding.None?
      modifies this`outstanding, this`gates
      ensures Valid(clock.tick) && gates == old(gates) + 1
      ensures outstanding == Some(Outstanding(arrivals.count(clock.tick), publishedAt, recordedTs))
    {
      var repliesBefore := arrivals.count(clock.tick);
      outstanding := Some(Outstanding(repliesBefore, publishedAt, recordedTs));
      gates := gates + 1;
    }
  }

  // ------------------------------------------------------------ the reply that came too early

  /**
    A gate whose replies were all counted by the time `sent` looks is never answered: the next
    wait is a timeout, although the reply did come after the publish.
   */
  method ReplyBeforeSentIsLost(clock: Clock, lockstep: Lockstep, publishedAt: real, ts: real, next: real, rate: real)
      returns (newRate: real)
    requires clock.Valid() && lockstep.Valid(clock.tick) && lockstep.outstanding.None?
    requires forall k: nat :: k >= clock.tick ==> lockstep.arrivals.count(k) == lockstep.arrivals.count(clock.tick)
    modifies clock, lockstep
    ensures lockstep.timeouts == old(lockstep.timeouts) + 1 && lockstep.answers == old(lockstep.answers)
    ensures newRate == rate
  {
    hide Blend;
    lockstep.Sent(clock, ts, publishedAt);
    newRate := lockstep.Wait(clock, next, rate);
  }

  /** The other way round: a reply counted after that look and before the deadline always answers. */
  method ReplyAfterSentAnswers(clock: Clock, lockstep: Lockstep, publishedAt: real, ts: real, next: real, rate: real,
                               ghost k: nat) returns (newRate: real)
    requires clock.Valid() && lockstep.Valid(clock.tick) && lockstep.outstanding.None?
    requires lockstep.arrivals.count(k) > lockstep.arrivals.count(clock.tick)
    requires clock.at(k) < clock.at(clock.tick) + lockstep.timeout
    modifies clock, lockstep
    ensures lockstep.timeouts == old(lockstep.timeouts) && |lockstep.answers| == |old(lockstep.answers)| + 1
  {
    hide Blend;
    lockstep.Sent(clock, ts, publishedAt);
    newRate := lockstep.Wait(clock, next, rate);
  }

  /** On a clock that is looked at once a second, the look by which `t` has come. */
  function SecondsReach(t: real): (k: nat)
    ensures k as real >= t
  {
    if t < 0.0 then 0 else t.Floor + 1
  }

  /** Such a run: published at 0 s, answered by 1 s, counted by `sent` at 1 s, and nothing after. */
  method LostReply() returns (lockstep: Lockstep)
    ensures fresh(lockstep) && lockstep.timeouts == 1 && lockstep.answers == []
    ensures lockstep.arrivals.count(0) == 0 && lockstep.arrivals.count(1) == 1
  {
    hide Blend;
    var clock := new Clock((k: nat) => k as real, SecondsReach, (k: nat) => k);
    var arrivals := new Arrivals((k: nat) => if k == 0 then 0 else 1, (k: nat) => 0.5);
    lockstep := new Lockstep(0, 10.0, arrivals);
    var publishedAt := clock.Now();
    lockstep.StillValid(0, clock.tick);
    var rate := ReplyBeforeSentIsLost(clock, lockstep, publishedAt, 0.0, 1.0, 1.0);
  }
}
