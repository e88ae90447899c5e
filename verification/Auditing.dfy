/** The recording audit (src/stamp.rs): what a recording claims that cannot be true. */
module Auditing {
  import opened Prelude
  import opened Messages
  import opened Cdr
  import opened Stamps
  import opened FrameGraph
  import opened Clocks

  // ------------------------------------------------------------ throttled warnings

  const WARN_EVERY := 5.0

  /** A warning that was printed, and how many it swallowed since the one before. */
  datatype Print = Print(at: real, swallowed: nat)

  function Swallowed(prints: seq<Print>): nat {
    if prints == [] then 0 else Swallowed(prints[..|prints| - 1]) + prints[|prints| - 1].swallowed
  }

  lemma SwallowedMore(prints: seq<Print>, p: Print)
    ensures Swallowed(prints + [p]) == Swallowed(prints) + p.swallowed
  {
    assert (prints + [p])[..|prints|] == prints;
  }

  class Throttle {
    var last: Option<real>
    var suppressed: nat
    ghost var calls: nat
    ghost var prints: seq<Print>

    /** Every call was printed, reported as swallowed, or is still pending; prints are apart. */
    ghost predicate Valid()
      reads this
    {
      && calls == |prints| + Swallowed(prints) + suppressed
      && (last == if prints == [] then None else Some(prints[|prints| - 1].at))
      && (forall i :: 0 < i < |prints| ==> prints[i].at >= prints[i - 1].at + WARN_EVERY)
    }

    constructor ()
      ensures Valid() && calls == 0
    {
      last := None;
      suppressed := 0;
      calls := 0;
      prints := [];
    }

    /**
      `Some(n)` means print now, having swallowed `n` since the previous print: on first sight,
      and then whenever the window since the last print has passed by the time of the call.
     */
    method Ready(clock: Clock) returns (r: Option<nat>)
      requires Valid() && clock.Valid()
      modifies this, clock
      ensures Valid() && clock.Valid() && clock.tick >= old(clock.tick)
      ensures calls == old(calls) + 1
      ensures r.Some? <==> old(last).None? || clock.at(old(clock.tick)) - old(last).value >= 5.0
      ensures r.None? ==> prints == old(prints) && suppressed == old(suppressed) + 1
      ensures r.Some? ==> r.value == old(suppressed) && suppressed == 0
                          && prints == old(prints) + [Print(clock.Latest(), r.value)]
    {
      hide Swallowed;
      calls := calls + 1;
      if last.Some? {
        var now := clock.Now();
        if now - last.value < WARN_EVERY {
          suppressed := suppressed + 1;
          return None;
        }
      }
      var now := clock.Now();
      last := Some(now);
      r := Some(suppressed);
      SwallowedMore(prints, Print(now, suppressed));
      prints := prints + [Print(now, suppressed)];
      suppressed := 0;
    }
  }

  // ------------------------------------------------------------ one stream's stamps

  const AHEAD_TOLERANCE_NS := 10_000_000

  /** A believable stamp and when the recorder took delivery of the message carrying it. */
  datatype Sample = Sample(stampNs: int, receivedNs: int)

  datatype StreamStamps = StreamStamps(
    previousNs: Option<int>, ahead: nat, worstAheadNs: int, backwards: nat, worstBackstepNs: int)

  function Observe(s: StreamStamps, x: Sample): StreamStamps {
    var aheadNs := x.stampNs - x.receivedNs;
    var early := aheadNs > AHEAD_TOLERANCE_NS;
    var back := s.previousNs.Some? && x.stampNs < s.previousNs.value;
    StreamStamps(
      Some(x.stampNs),
      if early then s.ahead + 1 else s.ahead,
      if early && aheadNs > s.worstAheadNs then aheadNs else s.worstAheadNs,
      if back then s.backwards + 1 else s.backwards,
      if back && s.previousNs.value - x.stampNs > s.worstBackstepNs then s.previousNs.value - x.stampNs
      else s.worstBackstepNs)
  }

  /** The running summary of everything a stream has shown. */
  function Summary(xs: seq<Sample>): (s: StreamStamps)
    ensures s.previousNs == if xs == [] then None else Some(xs[|xs| - 1].stampNs)
    ensures s.worstBackstepNs >= 0 && s.worstAheadNs >= 0
    ensures s.backwards == 0 <==> s.worstBackstepNs == 0
  {
    if xs == [] then StreamStamps(None, 0, 0, 0, 0)
    else Observe(Summary(xs[..|xs| - 1]), xs[|xs| - 1])
  }

  lemma SummarySnoc(xs: seq<Sample>, x: Sample)
    ensures Summary(xs + [x]) == Observe(Summary(xs), x)
  {
    assert (xs + [x])[..|xs|] == xs;
  }

  /** A stream is reported for its clock exactly when some stamp is earlier than one before it. */
  lemma {:induction false} BackwardsIffOutOfOrder(xs: seq<Sample>)
    ensures Summary(xs).backwards == 0 <==> forall i, j :: 0 <= i < j < |xs| ==> xs[i].stampNs <= xs[j].stampNs
    decreases |xs|
  {
    if xs != [] {
      var n := |xs| - 1;
      BackwardsIffOutOfOrder(xs[..n]);
      assert Summary(xs) == Observe(Summary(xs[..n]), xs[n]);
      assert forall i :: 0 <= i < n ==> xs[..n][i] == xs[i];
      if n > 0 {
        assert Summary(xs[..n]).previousNs == Some(xs[n - 1].stampNs);
        if Summary(xs).backwards == 0 {
          assert xs[n - 1].stampNs <= xs[n].stampNs;
        }
      }
    }
  }

  /** However far a stream's clock falls behind, it is within the steps counted times the worst one. */
  lemma {:induction false} FallIsBounded(xs: seq<Sample>, i: nat, j: nat)
    requires i < j < |xs|
    ensures xs[i].stampNs - xs[j].stampNs <= Summary(xs).backwards * Summary(xs).worstBackstepNs
    decreases |xs|
  {
    var n := |xs| - 1;
    var before, after := Summary(xs[..n]), Summary(xs);
    Grows(before.backwards, before.worstBackstepNs, after.backwards, after.worstBackstepNs);
    if j < n {
      FallIsBounded(xs[..n], i, j);
    } else {
      var step := xs[n - 1].stampNs - xs[n].stampNs;
      if i < n - 1 { FallIsBounded(xs[..n], i, n - 1); }
      if step > 0 {
        OneStepMore(before.backwards, before.worstBackstepNs, step, after.worstBackstepNs);
      }
    }
  }

  /** The steps back, each from the stamp before it. */
  function StepsBack(xs: seq<Sample>): (steps: seq<int>)
    ensures forall d :: d in steps ==> d > 0
  {
    if |xs| < 2 then []
    else
      var step := xs[|xs| - 2].stampNs - xs[|xs| - 1].stampNs;
      StepsBack(xs[..|xs| - 1]) + if step > 0 then [step] else []
  }

  /** `backwards` counts them, and `worstBackstepNs` is the largest of them. */
  lemma {:induction false} WorstStepIsExact(xs: seq<Sample>)
    ensures Summary(xs).backwards == |StepsBack(xs)|
    ensures forall d :: d in StepsBack(xs) ==> d <= Summary(xs).worstBackstepNs
    ensures Summary(xs).backwards > 0 ==> Summary(xs).worstBackstepNs in StepsBack(xs)
    decreases |xs|
  {
    if xs != [] {
      var front, last := xs[..|xs| - 1], xs[|xs| - 1];
      WorstStepIsExact(front);
      assert Summary(xs) == Observe(Summary(front), last);
    }
  }

  lemma Grows(a: nat, x: int, b: nat, y: int)
    requires a <= b && 0 <= x <= y
    ensures 0 <= a * x <= b * y
  {
    MulOrder(a, x, y);
    MulOrder(y, a, b);
    MulOrder(a, 0, x);
  }

  lemma MulOrder(k: nat, x: int, y: int)
    requires x <= y
    ensures k * x <= k * y
  {
  }

  lemma OneStepMore(k: nat, worst: int, step: int, newWorst: int)
    requires 0 <= worst <= newWorst && step <= newWorst
    ensures k * worst + step <= (k + 1) * newWorst
  {
    MulOrder(k, worst, newWorst);
  }

  /** `ahead` counts the stamps past the tolerance and `worstAheadNs` is the furthest of them. */
  lemma {:induction false} AheadIsExact(xs: seq<Sample>)
    ensures Summary(xs).ahead == |AheadOnes(xs)|
    ensures forall x :: x in xs && x.stampNs - x.receivedNs > 10_000_000
              ==> x.stampNs - x.receivedNs <= Summary(xs).worstAheadNs
    ensures Summary(xs).ahead > 0 ==>
              (exists x :: x in xs && x.stampNs - x.receivedNs == Summary(xs).worstAheadNs > 10_000_000)
    ensures Summary(xs).ahead == 0 ==> Summary(xs).worstAheadNs == 0
    decreases |xs|
  {
    if xs != [] {
      var front, last := xs[..|xs| - 1], xs[|xs| - 1];
      AheadIsExact(front);
      assert forall x :: x in xs <==> x in front || x == last;
    }
  }

  function AheadOnes(xs: seq<Sample>): seq<Sample> {
    if xs == [] then []
    else
      var last := xs[|xs| - 1];
      AheadOnes(xs[..|xs| - 1]) + if last.stampNs - last.receivedNs > 10_000_000 then [last] else []
  }

  // ------------------------------------------------------------ the audit

  function EdgeOf(t: TransformStamped): Edge { Edge(t.header.frameId, t.childFrameId) }

  function EdgesIn(ts: seq<TransformStamped>): (r: seq<Edge>)
    ensures |r| == |ts|
  {
    seq(|ts|, i requires 0 <= i < |ts| => EdgeOf(ts[i]))
  }

  lemma EdgesInSnoc(ts: seq<TransformStamped>, i: nat)
    requires i < |ts|
    ensures EdgesIn(ts)[..i + 1] == EdgesIn(ts)[..i] + [EdgeOf(ts[i])]
  {
  }

  /** The sample a fixed-offset payload contributes: set, known reception, same clock. */
  function SampleOf(support: Support, buf: seq<byte>, receivedNs: int): seq<Sample> {
    if !support.Fixed? || receivedNs == 0 || |buf| < support.offset + 8 then []
    else
      var stamp := ReadNanos(buf, support.offset);
      if stamp.Some? && SameClock(stamp.value, receivedNs) then [Sample(stamp.value, receivedNs)] else []
  }

  /** The edges a payload contributes: a payload the decoder rejects contributes none. */
  function EdgesFrom(lcm: LcmCodec, support: Support, buf: seq<byte>): seq<Edge> {
    if !support.TfStamps? then []
    else match lcm.decode(Tf2TFMessage, buf)
         case None => []
         case Some(m) => if m.MTFMessage? then EdgesIn(m.tfMessage.transforms) else []
  }

  /** In bytes: a stamp counts if it is set and known to be within an hour of its reception. */
  lemma SampleIs(support: Support, buf: seq<byte>, receivedNs: int)
    ensures SampleOf(support, buf, receivedNs)
         == if !support.Fixed? || receivedNs == 0 || |buf| < support.offset + 8 then []
            else
              var at := support.offset;
              var sec, nsec := ReadI32(buf[at..at + 4]), ReadI32(buf[at + 4..at + 8]);
              if Usable(sec, nsec, receivedNs) then [Sample(sec * 1_000_000_000 + nsec, receivedNs)] else []
  {
    hide ReadI32;
  }

  /** A tf payload contributes one edge for every transform, from the frame it hangs from to the one that hangs. */
  lemma EdgesAre(lcm: LcmCodec, support: Support, buf: seq<byte>)
    ensures var m, edges := lcm.decode(Tf2TFMessage, buf), EdgesFrom(lcm, support, buf);
            if support.TfStamps? && m.Some? && m.value.MTFMessage? then
              && |edges| == |m.value.tfMessage.transforms|
              && forall i :: 0 <= i < |edges| ==>
                   && edges[i].parent == m.value.tfMessage.transforms[i].header.frameId
                   && edges[i].child == m.value.tfMessage.transforms[i].childFrameId
            else edges == []
  {
  }

  class Audit {
    var streams: seq<StreamStamps>
    var parents: Parents
    var splitSince: Option<real>
    const ahead: Throttle
    const backwards: Throttle
    const doubled: Throttle
    const split: Throttle
    ghost var samples: seq<seq<Sample>>
    ghost var edges: seq<Edge>

    /** The online state is the summary of the whole history, stream by stream and edge by edge. */
    ghost predicate Valid()
      reads this, ahead, backwards, doubled, split
    {
      && ahead != backwards && ahead != doubled && ahead != split
      && backwards != doubled && backwards != split && doubled != split
      && ahead.Valid() && backwards.Valid() && doubled.Valid() && split.Valid()
      && |samples| == |streams|
      && (forall k :: 0 <= k < |streams| ==> streams[k] == Summary(samples[k]))
      && parents == LearnAll(map[], edges)
    }

    constructor (n: nat)
      ensures Valid() && |streams| == n && edges == []
      ensures forall k :: 0 <= k < n ==> samples[k] == []
      ensures fresh(ahead) && fresh(backwards) && fresh(doubled) && fresh(split)
    {
      streams := seq(n, _ => StreamStamps(None, 0, 0, 0, 0));
      samples := seq(n, _ => []);
      parents := map[];
      edges := [];
      splitSince := None;
      ahead := new Throttle();
      backwards := new Throttle();
      doubled := new Throttle();
      split := new Throttle();
    }

    method Inspect(clock: Clock, lcm: LcmCodec, stream: nat, support: Support, buf: seq<byte>, receivedNs: int)
      requires Valid() && clock.Valid() && stream < |streams|
      modifies this, ahead, backwards, doubled, split, clock
      ensures Valid() && clock.Valid() && clock.tick >= old(clock.tick)
      ensures samples == old(samples)[stream := old(samples)[stream] + SampleOf(support, buf, receivedNs)]
      ensures edges == old(edges) + EdgesFrom(lcm, support, buf)
      ensures |streams| == |old(streams)|
    {
      hide Summary, LearnAll, Throttle.Valid, ReadNanos, SameClock;
      match support {
        case Fixed(offset) => CheckStamp(clock, stream, offset, buf, receivedNs);
        case TfStamps => CheckTree(clock, lcm, buf);
        case Unstamped =>
      }
      if SampleOf(support, buf, receivedNs) == [] {
        assert old(samples)[stream] + [] == old(samples)[stream];
        assert old(samples)[stream := old(samples)[stream]] == old(samples);
      }
    }

    /** Each defect found is handed to its throttle once, so it is printed or counted. */
    method CheckStamp(clock: Clock, stream: nat, offset: nat, buf: seq<byte>, receivedNs: int)
      requires Valid() && clock.Valid() && stream < |streams|
      modifies this, ahead, backwards, clock
      ensures Valid() && clock.Valid() && clock.tick >= old(clock.tick)
      ensures samples == old(samples)[stream := old(samples)[stream] + SampleOf(Fixed(offset), buf, receivedNs)]
      ensures edges == old(edges)
      ensures ahead.calls - old(ahead.calls) == streams[stream].ahead - old(streams)[stream].ahead
      ensures backwards.calls - old(backwards.calls) == streams[stream].backwards - old(streams)[stream].backwards
    {
      hide Summary, LearnAll, Throttle.Valid, ReadNanos, SameClock;
      ghost var nothing: seq<Sample> := [];
      assert old(samples)[stream] + nothing == old(samples)[stream];
      assert old(samples)[stream := old(samples)[stream]] == old(samples);
      if receivedNs == 0 || |buf| < offset + 8 { return; }
      var stamp := ReadNanos(buf, offset);
      if stamp.None? { return; }
      var stampNs := stamp.value;
      if !SameClock(stampNs, receivedNs) { return; }

      ghost var x := Sample(stampNs, receivedNs);
      SummarySnoc(samples[stream], x);
      samples := samples[stream := samples[stream] + [x]];
      var aheadNs := stampNs - receivedNs;
      var backstepNs := Measure(stream, stampNs, aheadNs);

      if aheadNs > AHEAD_TOLERANCE_NS {
        var _ := ahead.Ready(clock);
      }
      if backstepNs > 0 {
        var _ := backwards.Ready(clock);
      }
    }

    /** Folds one sample into its stream's counters; returns how far the stamp went back. */
    method Measure(stream: nat, stampNs: int, aheadNs: int) returns (backstepNs: int)
      requires stream < |streams|
      modifies this`streams
      ensures streams == old(streams)[stream := Observe(old(streams)[stream], Sample(stampNs, stampNs - aheadNs))]
      ensures backstepNs > 0 <==> streams[stream].backwards == old(streams)[stream].backwards + 1
      ensures streams[stream].backwards != old(streams)[stream].backwards + 1
              ==> streams[stream].backwards == old(streams)[stream].backwards
    {
      var stamps := streams[stream];
      if aheadNs > AHEAD_TOLERANCE_NS {
        stamps := stamps.(
          ahead := stamps.ahead + 1,
          worstAheadNs := if aheadNs > stamps.worstAheadNs then aheadNs else stamps.worstAheadNs);
      }
      backstepNs := 0;
      var previous := stamps.previousNs;
      stamps := stamps.(previousNs := Some(stampNs));
      if previous.Some? && stampNs < previous.value {
        backstepNs := previous.value - stampNs;
        stamps := stamps.(
          backwards := stamps.backwards + 1,
          worstBackstepNs := if backstepNs > stamps.worstBackstepNs then backstepNs else stamps.worstBackstepNs);
      }
      streams := streams[stream := stamps];
    }

    method CheckTree(clock: Clock, lcm: LcmCodec, buf: seq<byte>)
      requires Valid() && clock.Valid()
      modifies this, doubled, split, clock
      ensures Valid() && clock.Valid() && clock.tick >= old(clock.tick)
      ensures samples == old(samples)
      ensures edges == old(edges) + EdgesFrom(lcm, TfStamps, buf)
      ensures var decoded := lcm.decode(Tf2TFMessage, buf);
              if decoded.Some? && decoded.value.MTFMessage?
              then exists tick :: SplitChecked(old(splitSince), tick, old(split.calls), clock)
              else splitSince == old(splitSince) && split.calls == old(split.calls)
    {
      hide Summary, LearnAll, Throttle.Valid, Roots;
      var decoded := lcm.decode(Tf2TFMessage, buf);
      if decoded.None? || !decoded.value.MTFMessage? {
        assert old(edges) + [] == old(edges);
        return;
      }
      var transforms := decoded.value.tfMessage.transforms;
      for i := 0 to |transforms|
        invariant Valid() && clock.Valid() && clock.tick >= old(clock.tick)
        invariant samples == old(samples)
        invariant splitSince == old(splitSince) && split.calls == old(split.calls)
        invariant edges == old(edges) + EdgesIn(transforms)[..i]
      {
        EdgesInSnoc(transforms, i);
        CheckEdge(clock, EdgeOf(transforms[i]));
      }
      assert EdgesIn(transforms)[..|transforms|] == EdgesIn(transforms);
      ghost var tick := clock.tick;
      CheckSplit(clock);
      assert SplitChecked(old(splitSince), tick, old(split.calls), clock);
    }

    /** A second parent is handed to its throttle the first time it is seen. */
    method CheckEdge(clock: Clock, e: Edge)
      requires Valid() && clock.Valid()
      modifies this, doubled, clock
      ensures Valid() && clock.Valid() && clock.tick >= old(clock.tick)
      ensures samples == old(samples) && streams == old(streams) && splitSince == old(splitSince)
      ensures edges == old(edges) + [e]
      ensures doubled.calls == old(doubled.calls)
                + if |parents[e.child]| > 1 && e.child in old(parents) && e.parent !in old(parents)[e.child]
                    then 1 else 0
    {
      hide Summary, LearnAll, Throttle.Valid;
      var known := if e.child in parents then parents[e.child] else {};
      var isDoubled := e.parent !in known && |known + {e.parent}| > 1;
      parents := parents[e.child := known + {e.parent}];
      LearnMore(map[], edges, e);
      edges := edges + [e];
      if isDoubled {
        var _ := doubled.Ready(clock);
      }
    }

    /**
      A split is timed from the look that found it, and warned about exactly when it has lasted a
      window by the look that judges it; a tree that has healed is forgotten.
     */
    ghost predicate SplitChecked(since: Option<real>, tick: nat, calls: nat, clock: Clock)
      reads this, split
    {
      if |Roots(parents)| <= 1 then splitSince == None && split.calls == calls
      else
        && splitSince == Some(if since.Some? then since.value else clock.at(tick))
        && split.calls == calls
             + if clock.at(if since.Some? then tick else tick + 1) - splitSince.value >= 5.0 then 1 else 0
    }

    /** Only a split that outlives a warning window is warned about. */
    method CheckSplit(clock: Clock)
      requires Valid() && clock.Valid()
      modifies this`splitSince, split, clock
      ensures Valid() && clock.Valid() && clock.tick >= old(clock.tick)
      ensures SplitChecked(old(splitSince), old(clock.tick), old(split.calls), clock)
    {
      hide Summary, LearnAll, Throttle.Valid;
      var roots := Roots(parents);
      if |roots| < 2 {
        splitSince := None;
        return;
      }
      if splitSince.None? {
        var since := clock.Now();
        splitSince := Some(since);
      }
      var now := clock.Now();
      if now - splitSince.value < WARN_EVERY { return; }
      var _ := split.Ready(clock);
    }

    /** The tree half of the final report. */
    method TreeFindings() returns (report: TreeReport)
      requires Valid()
      ensures report == ReportTree(LearnAll(map[], edges))
      ensures forall f :: f in report.doubled <==> HasTwoParents(edges, f)
      ensures forall f, p :: f in report.doubled ==> (p in report.doubled[f] <==> Edge(p, f) in edges)
      ensures HasTwoTops(edges) ==> forall f :: f in report.split <==> IsTop(edges, f)
      ensures !HasTwoTops(edges) ==> report.split == {}
    {
      hide HasTwoParents, IsTop, HasTwoTops, ReportTree;
      report := ReportTree(parents);
      ReportIs(edges);
    }
  }
}
