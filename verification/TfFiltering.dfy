/** `--drop-tf`: dropping named transforms from a replayed `tf` message (src/stamp.rs:30-78). */
module TfFiltering {
  import opened Prelude
  import opened Messages
  import opened Cdr
  import opened Stamps
  import opened FrameGraph
  import opened Auditing

  const ANY: Frame := [0x2A]

  /** A `PARENT:CHILD` rule; `*` matches any frame on either side. */
  datatype Rule = Rule(parent: Frame, child: Frame)

  predicate Matches(rules: seq<Rule>, e: Edge) {
    exists i :: 0 <= i < |rules|
      && (rules[i].parent == ANY || rules[i].parent == e.parent)
      && (rules[i].child == ANY || rules[i].child == e.child)
  }

  function Kept(rules: seq<Rule>, ts: seq<TransformStamped>): (kept: seq<TransformStamped>)
    ensures |kept| <= |ts|
    ensures forall t :: t in kept ==> t in ts && !Matches(rules, EdgeOf(t))
  {
    if ts == [] then []
    else
      var last := ts[|ts| - 1];
      Kept(rules, ts[..|ts| - 1]) + if Matches(rules, EdgeOf(last)) then [] else [last]
  }

  function Lost(rules: seq<Rule>, ts: seq<TransformStamped>): seq<Edge> {
    if ts == [] then []
    else
      var last := ts[|ts| - 1];
      Lost(rules, ts[..|ts| - 1]) + if Matches(rules, EdgeOf(last)) then [EdgeOf(last)] else []
  }

  lemma FilterSnoc(rules: seq<Rule>, ts: seq<TransformStamped>, t: TransformStamped)
    ensures Kept(rules, ts + [t]) == if Matches(rules, EdgeOf(t)) then Kept(rules, ts) else Kept(rules, ts) + [t]
    ensures Lost(rules, ts + [t])
         == if Matches(rules, EdgeOf(t)) then Lost(rules, ts) + [EdgeOf(t)] else Lost(rules, ts)
  {
    hide Matches;
    assert (ts + [t])[..|ts|] == ts;
  }

  /** A message that arrives without transforms is emptied although nothing was dropped from it. */
  lemma NothingToFilter(rules: seq<Rule>)
    ensures Kept(rules, []) == [] && Lost(rules, []) == [] && KeptAt(rules, []) == []
  {
  }

  lemma BagMore(es: seq<Edge>, e: Edge)
    ensures multiset(es + [e]) == multiset(es) + multiset{e}
  {
  }

  lemma EdgesSnoc(ts: seq<TransformStamped>, t: TransformStamped)
    ensures EdgesIn(ts + [t]) == EdgesIn(ts) + [EdgeOf(t)]
  {
  }

  /** Nothing is lost uncounted: a message is its survivors, in order, and the edges dropped. */
  lemma {:induction false} KeptAndLostMakeUpAll(rules: seq<Rule>, ts: seq<TransformStamped>)
    ensures multiset(EdgesIn(ts)) == multiset(EdgesIn(Kept(rules, ts))) + multiset(Lost(rules, ts))
    ensures |ts| == |Kept(rules, ts)| + |Lost(rules, ts)|
    decreases |ts|
  {
    if ts != [] {
      hide Matches, Kept, Lost, EdgesIn, EdgeOf;
      var front, last := ts[..|ts| - 1], ts[|ts| - 1];
      assert ts == front + [last];
      KeptAndLostMakeUpAll(rules, front);
      FilterSnoc(rules, front, last);
      EdgesSnoc(front, last);
      EdgesSnoc(Kept(rules, front), last);
      BagMore(EdgesIn(front), EdgeOf(last));
      BagMore(EdgesIn(Kept(rules, front)), EdgeOf(last));
      BagMore(Lost(rules, front), EdgeOf(last));
    }
  }

  /** Filtering what was kept changes nothing, and no rule means nothing is dropped. */
  lemma {:induction false} FilteringIsIdempotent(rules: seq<Rule>, ts: seq<TransformStamped>)
    ensures Kept(rules, Kept(rules, ts)) == Kept(rules, ts)
    ensures Lost(rules, Kept(rules, ts)) == []
    ensures rules == [] ==> Kept(rules, ts) == ts
    decreases |ts|
  {
    if ts == [] {
      NothingToFilter(rules);
    } else {
      hide Matches, EdgeOf, Kept, Lost;
      var front, last := ts[..|ts| - 1], ts[|ts| - 1];
      assert ts == front + [last];
      FilteringIsIdempotent(rules, front);
      FilterSnoc(rules, front, last);
      FilterSnoc(rules, Kept(rules, front), last);
    }
  }

  /** Where the survivors stood. */
  function KeptAt(rules: seq<Rule>, ts: seq<TransformStamped>): seq<nat> {
    if ts == [] then []
    else
      var last := |ts| - 1;
      KeptAt(rules, ts[..last]) + if Matches(rules, EdgeOf(ts[last])) then [] else [last]
  }

  lemma KeptAtSnoc(rules: seq<Rule>, ts: seq<TransformStamped>, t: TransformStamped)
    ensures KeptAt(rules, ts + [t]) == KeptAt(rules, ts) + if Matches(rules, EdgeOf(t)) then [] else [|ts|]
  {
    hide Matches, EdgeOf;
    assert (ts + [t])[..|ts|] == ts;
  }

  /** Some rule names the frame a transform hangs from, or any, and the frame that hangs there, or any. */
  predicate Ruled(rules: seq<Rule>, t: TransformStamped) {
    exists i :: 0 <= i < |rules|
      && (rules[i].parent == [0x2A] || rules[i].parent == t.header.frameId)
      && (rules[i].child == [0x2A] || rules[i].child == t.childFrameId)
  }

  lemma RuledMeans(rules: seq<Rule>, t: TransformStamped)
    ensures Ruled(rules, t) <==> Matches(rules, EdgeOf(t))
  {
  }

  /** The survivors are the transforms no rule matches, every one of them... */
  lemma {:induction false} KeptExactly(rules: seq<Rule>, ts: seq<TransformStamped>, i: nat)
    requires i < |ts|
    ensures i in KeptAt(rules, ts) <==> !Matches(rules, EdgeOf(ts[i]))
    ensures i in KeptAt(rules, ts) <==> !Ruled(rules, ts[i])
    ensures |ts| - 1 !in KeptAt(rules, ts[..|ts| - 1])
    decreases |ts|
  {
    RuledMeans(rules, ts[i]);
    hide Matches, EdgeOf, KeptAt, Ruled;
    var front, last := ts[..|ts| - 1], ts[|ts| - 1];
    assert ts == front + [last];
    KeptAtSnoc(rules, front, last);
    KeptInOrder(rules, front);
    if i < |front| { KeptExactly(rules, front, i); }
  }

  lemma {:induction false} AsManyStand(rules: seq<Rule>, ts: seq<TransformStamped>)
    ensures |KeptAt(rules, ts)| == |Kept(rules, ts)|
    decreases |ts|
  {
    hide Matches, EdgeOf;
    if ts != [] { AsManyStand(rules, ts[..|ts| - 1]); }
  }

  lemma {:induction false} StandsAt(rules: seq<Rule>, ts: seq<TransformStamped>, k: nat)
    requires k < |Kept(rules, ts)|
    ensures |KeptAt(rules, ts)| == |Kept(rules, ts)|
    ensures KeptAt(rules, ts)[k] < |ts| && Kept(rules, ts)[k] == ts[KeptAt(rules, ts)[k]]
    decreases |ts|
  {
    hide Matches, EdgeOf;
    var front := ts[..|ts| - 1];
    AsManyStand(rules, ts);
    AsManyStand(rules, front);
    if k < |Kept(rules, front)| { StandsAt(rules, front, k); }
  }

  lemma {:induction false} PlacesGrow(rules: seq<Rule>, ts: seq<TransformStamped>)
    ensures forall k :: 0 <= k < |KeptAt(rules, ts)| ==> KeptAt(rules, ts)[k] < |ts|
    ensures forall j, k :: 0 <= j < k < |KeptAt(rules, ts)| ==> KeptAt(rules, ts)[j] < KeptAt(rules, ts)[k]
    decreases |ts|
  {
    hide Matches, EdgeOf;
    if ts != [] { PlacesGrow(rules, ts[..|ts| - 1]); }
  }

  /** ... and each in its place among the others. */
  lemma KeptInOrder(rules: seq<Rule>, ts: seq<TransformStamped>)
    ensures |KeptAt(rules, ts)| == |Kept(rules, ts)|
    ensures forall k :: 0 <= k < |KeptAt(rules, ts)| ==>
              KeptAt(rules, ts)[k] < |ts| && Kept(rules, ts)[k] == ts[KeptAt(rules, ts)[k]]
    ensures forall j, k :: 0 <= j < k < |KeptAt(rules, ts)| ==> KeptAt(rules, ts)[j] < KeptAt(rules, ts)[k]
  {
    hide Kept, KeptAt;
    AsManyStand(rules, ts);
    PlacesGrow(rules, ts);
    forall k | 0 <= k < |KeptAt(rules, ts)|
      ensures Kept(rules, ts)[k] == ts[KeptAt(rules, ts)[k]]
    {
      StandsAt(rules, ts, k);
    }
  }

  /** The transforms a rule names between the two frames of `e`. */
  function RuledOff(rules: seq<Rule>, ts: seq<TransformStamped>, e: Edge): seq<TransformStamped> {
    if ts == [] then []
    else
      var t := ts[|ts| - 1];
      RuledOff(rules, ts[..|ts| - 1], e)
        + if Ruled(rules, t) && t.header.frameId == e.parent && t.childFrameId == e.child then [t] else []
  }

  lemma {:induction false} SiftedExactly(rules: seq<Rule>, ts: seq<TransformStamped>)
    ensures Kept(rules, ts) != [] <==> exists t :: t in ts && !Ruled(rules, t)
    ensures forall e :: multiset(Lost(rules, ts))[e] == |RuledOff(rules, ts, e)|
    decreases |ts|
  {
    if ts != [] {
      hide Matches, Ruled;
      var front, last := ts[..|ts| - 1], ts[|ts| - 1];
      SiftedExactly(rules, front);
      RuledMeans(rules, last);
      assert forall t :: t in ts <==> t in front || t == last;
    }
  }

  class TfFilter {
    const rules: seq<Rule>
    var dropped: map<Edge, nat>
    var emptied: nat
    /** Every edge dropped so far, as often as it was dropped. */
    ghost var lost: multiset<Edge>

    ghost predicate Valid()
      reads this
    {
      && (forall e :: e in dropped <==> e in lost)
      && (forall e :: e in dropped ==> dropped[e] == lost[e])
      && (forall e :: e in lost ==> Matches(rules, e))
    }

    constructor (rules: seq<Rule>)
      ensures Valid() && this.rules == rules && lost == multiset{} && emptied == 0
    {
      this.rules := rules;
      dropped := map[];
      emptied := 0;
      lost := multiset{};
    }

    method Drop(e: Edge)
      requires Valid() && Matches(rules, e)
      modifies this`dropped, this`lost
      ensures Valid() && lost == old(lost) + multiset{e}
    {
      hide Matches;
      dropped := dropped[e := (if e in dropped then dropped[e] else 0) + 1];
      lost := lost + multiset{e};
    }

    /** `false` means nothing survived and the message should not be published at all. */
    method Apply(lcm: LcmCodec, buf: Buffer) returns (res: Result<bool>)
      requires Valid() && lcm.Lawful()
      modifies this, buf
      ensures Valid()
      ensures res.Err? <==> lcm.decode(Tf2TFMessage, old(buf.bytes)).None?
      ensures res.Err? ==> lost == old(lost) && emptied == old(emptied) && buf.bytes == old(buf.bytes)
      ensures res.Ok? ==>
                var ts := lcm.decode(Tf2TFMessage, old(buf.bytes)).value.tfMessage.transforms;
                && lost == old(lost) + multiset(Lost(rules, ts))
                && (res.value <==> Kept(rules, ts) != [])
                && (res.value <==> exists t :: t in ts && !Ruled(rules, t))
                && (forall e :: lost[e] - old(lost)[e] == |RuledOff(rules, ts, e)|)
                && emptied == old(emptied) + (if res.value then 0 else 1)
                && buf.bytes == if res.value then lcm.encode(MTFMessage(TFMessage(Kept(rules, ts)))) else old(buf.bytes)
    {
      var decoded := lcm.decode(Tf2TFMessage, buf.bytes);
      if decoded.None? { return Err; }
      var kept := Sift(decoded.value.tfMessage.transforms);
      SiftedExactly(rules, decoded.value.tfMessage.transforms);
      if kept == [] {
        emptied := emptied + 1;
        return Ok(false);
      }
      buf.bytes := lcm.encode(MTFMessage(TFMessage(kept)));
      return Ok(true);
    }

    /** The survivors of one message; everything else is counted under its edge. */
    method Sift(transforms: seq<TransformStamped>) returns (kept: seq<TransformStamped>)
      requires Valid()
      modifies this`dropped, this`lost
      ensures Valid() && kept == Kept(rules, transforms)
      ensures lost == old(lost) + multiset(Lost(rules, transforms))
    {
      hide Matches, EdgeOf, Kept, Lost, TfFilter.Valid;
      kept := [];
      NothingToFilter(rules);
      for i := 0 to |transforms|
        invariant Valid()
        invariant kept == Kept(rules, transforms[..i])
        invariant lost == old(lost) + multiset(Lost(rules, transforms[..i]))
      {
        assert transforms[..i + 1] == transforms[..i] + [transforms[i]];
        FilterSnoc(rules, transforms[..i], transforms[i]);
        var e := EdgeOf(transforms[i]);
        if Matches(rules, e) {
          BagMore(Lost(rules, transforms[..i]), e);
          Drop(e);
        } else {
          kept := kept + [transforms[i]];
        }
      }
      assert transforms[..|transforms|] == transforms;
    }
  }

  /**
    What the audit learns from a filtered message is exactly the edges no rule matches; what
    it would have learned besides is counted as dropped.
   */
  lemma FilteredEdges(lcm: LcmCodec, rules: seq<Rule>, ts: seq<TransformStamped>)
    requires lcm.Lawful()
    ensures var filtered := lcm.encode(MTFMessage(TFMessage(Kept(rules, ts))));
            && EdgesFrom(lcm, TfStamps, filtered) == EdgesIn(Kept(rules, ts))
            && forall e :: e in EdgesFrom(lcm, TfStamps, filtered) ==> !Matches(rules, e)
  {
    var m := MTFMessage(TFMessage(Kept(rules, ts)));
    assert lcm.decode(TypeOf(m), lcm.encode(m)) == Some(m);
  }
}
