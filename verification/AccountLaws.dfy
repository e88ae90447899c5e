/**
  What holds of every pass (`replay_once` in src/main.rs), proved of every truthful account: what
  is counted adds up, what went out is what was published, noted and shown to the audit, and how
  it reads is in time and in order.
 */
module AccountLaws {
  import opened Prelude
  import opened Messages
  import opened Cdr
  import opened Stamps
  import opened FrameGraph
  import opened Auditing
  import opened TfFiltering
  import opened Loopback
  import opened Lockstepping
  import opened Pacing
  import opened Accounts

  // ------------------------------------------------------------ what is counted

  /** One turn counts its record once, or ends the pass. */
  lemma TurnCounts(config: Config, s: State, o: Observed, tally: Tally, t: Turn)
    requires config.lcm.Lawful() && |config.streams| == |o.samples| && config.Turned(s, |o.out|, t)
    ensures config.Fits(t)
    ensures config.Applied(o, t).emptied == o.emptied + if t.fate == Ok(Emptied) then 1 else 0
    ensures config.Tallied(tally, t).published == tally.published + if t.fate == Ok(Published) then 1 else 0
    ensures config.Tallied(tally, t).skipped == tally.skipped + if t.fate == Ok(Skipped) then 1 else 0
  {
    hide Retimed, Config.Sifted, Config.NotedAs, Config.Inspected, Config.SentAs, WaitedAs, MappingOf;
    config.TurnFits(s, |o.out|, t);
    if WasReleased(t) {
      var waited := config.WaitedFor(o, t.timedOut);
      EmptyingIsCounted(config, waited, t.record, config.Mapping(t));
    }
  }

  lemma EmptyingIsCounted(config: Config, o: Observed, record: Record, mapping: Retimer)
    requires record.stream < |config.streams| == |o.samples| && mapping.Valid() && config.lcm.Lawful()
    ensures config.EmittedAs(o, record, mapping).emptied
         == o.emptied + if config.FateOf(record, mapping, |o.out|) == Ok(Emptied) then 1 else 0
  {
    hide Retimed, Config.Sifted, Config.KeyOf, EdgesFrom, SampleOf;
  }

  /** Every record pulled was published, skipped or emptied, and counted as such, but the one that ended the pass. */
  lemma {:induction false} EveryRecordIsCounted(config: Config, o: Observed, a: Account)
    requires config.lcm.Lawful() && |config.streams| == |o.samples| && config.Tells(o, a)
    ensures var after, tally := config.After(o, a.turns), config.TallyOf(a.turns);
            |a.turns| == tally.published + tally.skipped + (after.emptied - o.emptied) + if Goes(a.turns) then 0 else 1
    decreases |a.turns|
  {
    hide Config.Turned, Config.Applied, Config.Tallied, Config.Fits;
    if a.turns != [] {
      var front, t := a.(turns := a.turns[..|a.turns| - 1]), a.turns[|a.turns| - 1];
      EveryRecordIsCounted(config, o, front);
      TurnCounts(config, Final(front), config.After(o, front.turns), config.TallyOf(front.turns), t);
      OneFate(t.fate);
    }
  }

  lemma OneFate(fate: Fate)
    ensures fate in {Ok(Published), Ok(Skipped), Ok(Emptied), Ok(Ended), Err}
  {
    match fate
    case Err =>
    case Ok(outcome) =>
      match outcome
      case Published => case Skipped => case Emptied => case Ended =>
  }

  // ------------------------------------------------------------ what went out

  /** Which of the records were published. */
  function PublishedAt(turns: seq<Turn>): seq<nat> {
    if turns == [] then []
    else
      var last := |turns| - 1;
      PublishedAt(turns[..last]) + if turns[last].fate == Ok(Published) then [last] else []
  }

  /** They are exactly the published ones, in order, each once. */
  lemma {:induction false} PublishedAtExactly(turns: seq<Turn>)
    ensures forall i: nat :: i in PublishedAt(turns) <==> i < |turns| && turns[i].fate == Ok(Published)
    ensures forall j, k :: 0 <= j < k < |PublishedAt(turns)| ==> PublishedAt(turns)[j] < PublishedAt(turns)[k]
    decreases |turns|
  {
    if turns != [] {
      var front, last := turns[..|turns| - 1], turns[|turns| - 1];
      PublishedAtExactly(front);
      assert forall i: nat :: i in PublishedAt(turns) <==>
               i in PublishedAt(front) || (last.fate == Ok(Published) && i == |front|);
      assert forall k :: 0 <= k < |PublishedAt(front)| ==> PublishedAt(front)[k] in PublishedAt(front);
    }
  }

  /** The message of a published record: it, filtered and restamped under the setting it left, on its own stream. */
  ghost predicate GoesOutAs(config: Config, t: Turn, m: Message) {
    && config.lcm.Lawful() && config.Fits(t) && WasReleased(t)
    && config.PreparedAs(t.record, config.Mapping(t)) == Ok(Some(m.1)) && m.0 == t.record.stream
  }

  /** One turn sends its record's message, noted just before, or nothing. */
  lemma TurnSends(config: Config, s: State, o: Observed, t: Turn)
    requires config.lcm.Lawful() && |config.streams| == |o.samples| && config.Turned(s, |o.out|, t)
    ensures config.Fits(t)
    ensures var next := config.Applied(o, t);
            if t.fate == Ok(Published) then
              && |next.out| == |o.out| + 1 && next.out[..|o.out|] == o.out && GoesOutAs(config, t, next.out[|o.out|])
              && (config.recording ==>
                    next.notes == o.notes + [config.KeyOf(t.record.stream, next.out[|o.out|].1)])
            else
              && next.out == o.out && (t.fate.Ok? ==> next.notes == o.notes)
              && o.notes <= next.notes && |next.notes| <= |o.notes| + 1
  {
    hide Config.PreparedAs, Config.NotedAs, Config.ShownAs, WaitedAs, MappingOf, Config.KeyOf;
    config.TurnFits(s, |o.out|, t);
    if WasReleased(t) {
      var waited, prepared := config.WaitedFor(o, t.timedOut), config.PreparedAs(t.record, config.Mapping(t));
      config.ShowingSendsNothing(waited, t.record);
      if prepared.Ok? && prepared.value.Some? {
        config.NotingSendsNothing(config.ShownAs(waited, t.record), t.record.stream, prepared.value.value);
      }
    }
  }

  /** The sink gained exactly the messages of the published records, in their order. */
  lemma {:induction false} MessagesArePublished(config: Config, o: Observed, a: Account)
    requires config.lcm.Lawful() && |config.streams| == |o.samples| && config.Tells(o, a)
    ensures var out, at := config.After(o, a.turns).out, PublishedAt(a.turns);
            && |out| == |o.out| + |at| && out[..|o.out|] == o.out
            && forall k :: 0 <= k < |at| ==>
                 at[k] < |a.turns| && GoesOutAs(config, a.turns[at[k]], out[|o.out| + k])
    decreases |a.turns|
  {
    hide Config.Turned, Config.Applied, Config.Fits, GoesOutAs;
    if a.turns != [] {
      var front, t := a.(turns := a.turns[..|a.turns| - 1]), a.turns[|a.turns| - 1];
      MessagesArePublished(config, o, front);
      var before := config.After(o, front.turns);
      TurnSends(config, Final(front), before, t);
      var out, at := config.After(o, a.turns).out, PublishedAt(a.turns);
      forall k | 0 <= k < |at|
        ensures at[k] < |a.turns| && GoesOutAs(config, a.turns[at[k]], out[|o.out| + k])
      {
        if k < |PublishedAt(front.turns)| {
          assert front.turns[at[k]] == a.turns[at[k]];
          assert out[|o.out| + k] == out[..|before.out|][|o.out| + k];
        }
      }
    }
  }

  /** These are the keys of these messages, each computed from its bytes. */
  ghost predicate KeysOf(config: Config, notes: seq<Key>, sent: seq<Message>) {
    && |notes| == |sent|
    && forall k :: 0 <= k < |sent| ==>
         sent[k].0 < |config.streams| && notes[k] == config.KeyOf(sent[k].0, sent[k].1)
  }

  /** What went out since `o` was noted, in the same order; `more` notes may have come to nothing. */
  ghost predicate NotedSince(config: Config, o: Observed, after: Observed, more: nat) {
    && o.out <= after.out && o.notes <= after.notes
    && var sent, noted := after.out[|o.out|..], after.notes[|o.notes|..];
    && |sent| <= |noted| <= |sent| + more && KeysOf(config, noted[..|sent|], sent)
  }

  lemma OneKeyMore(config: Config, o: Observed, before: Observed, after: Observed, m: Message)
    requires NotedSince(config, o, before, 0) && m.0 < |config.streams|
    requires after.out == before.out + [m] && after.notes == before.notes + [config.KeyOf(m.0, m.1)]
    ensures NotedSince(config, o, after, 0)
  {
    hide Config.KeyOf;
    var sent, noted := before.out[|o.out|..], before.notes[|o.notes|..];
    assert noted[..|sent|] == noted;
    assert after.out[|o.out|..] == sent + [m];
    assert after.notes[|o.notes|..] == noted + [config.KeyOf(m.0, m.1)];
    assert after.notes[|o.notes|..][..|sent| + 1] == after.notes[|o.notes|..];
  }

  lemma NothingMoreSent(config: Config, o: Observed, before: Observed, after: Observed, more: nat)
    requires NotedSince(config, o, before, 0)
    requires after.out == before.out && before.notes <= after.notes && |after.notes| <= |before.notes| + more
    ensures NotedSince(config, o, after, more)
  {
    hide KeysOf;
    var sent, noted := before.out[|o.out|..], before.notes[|o.notes|..];
    assert noted[..|sent|] == noted;
    assert after.notes[|o.notes|..][..|sent|] == noted;
  }

  /**
    The messages on the wire are the messages noted, in the same order, under the keys computed
    from their bytes; a pass that was stopped may have noted one more, which was then refused.
   */
  lemma {:induction false} MessagesAreNoted(config: Config, o: Observed, a: Account)
    requires config.lcm.Lawful() && |config.streams| == |o.samples| && config.Tells(o, a) && config.recording
    ensures NotedSince(config, o, config.After(o, a.turns), if Goes(a.turns) then 0 else 1)
    decreases |a.turns|
  {
    if a.turns == [] {
      assert o.out[|o.out|..] == [] && o.notes[|o.notes|..] == [];
    } else {
      hide Config.Turned, Config.Applied, Config.KeyOf, Config.PreparedAs, Config.Mapping, NotedSince;
      var front, t := a.(turns := a.turns[..|a.turns| - 1]), a.turns[|a.turns| - 1];
      MessagesAreNoted(config, o, front);
      var before, after := config.After(o, front.turns), config.After(o, a.turns);
      TurnSends(config, Final(front), before, t);
      if t.fate == Ok(Published) {
        assert after.out == before.out + [after.out[|before.out|]];
        OneKeyMore(config, o, before, after, after.out[|before.out|]);
      } else {
        NothingMoreSent(config, o, before, after, if Goes(a.turns) then 0 else 1);
      }
    }
  }

  // ------------------------------------------------------------ what the audit saw

  /** The payload a record showed the audit, if it got that far. */
  ghost function ShownIn(config: Config, t: Turn): Option<seq<byte>>
    requires config.Fits(t) && config.lcm.Lawful()
  {
    if WasReleased(t) && config.Shown(t.record).Ok? then config.Shown(t.record).value else None
  }

  ghost function EdgesOf(config: Config, t: Turn): seq<Edge>
    requires config.Fits(t) && config.lcm.Lawful()
  {
    var shown := ShownIn(config, t);
    if shown.None? then [] else EdgesFrom(config.lcm, config.streams[t.record.stream].support, shown.value)
  }

  ghost function SamplesOf(config: Config, t: Turn, stream: nat): seq<Sample>
    requires config.Fits(t) && config.lcm.Lawful()
  {
    var shown := ShownIn(config, t);
    if shown.None? || t.record.stream != stream then []
    else SampleOf(config.streams[stream].support, shown.value, SecondsToNanos(t.record.ts))
  }

  ghost function AllEdges(config: Config, turns: seq<Turn>): seq<Edge>
    requires config.AllFit(turns) && config.lcm.Lawful()
  {
    if turns == [] then []
    else AllEdges(config, turns[..|turns| - 1]) + EdgesOf(config, turns[|turns| - 1])
  }

  ghost function AllSamples(config: Config, turns: seq<Turn>, stream: nat): seq<Sample>
    requires config.AllFit(turns) && config.lcm.Lawful()
  {
    if turns == [] then []
    else AllSamples(config, turns[..|turns| - 1], stream) + SamplesOf(config, turns[|turns| - 1], stream)
  }

  lemma TurnShows(config: Config, o: Observed, t: Turn)
    requires config.Fits(t) && |config.streams| == |o.samples| && config.lcm.Lawful()
    ensures config.Applied(o, t).edges == o.edges + EdgesOf(config, t)
    ensures forall s :: 0 <= s < |o.samples| ==>
              config.Applied(o, t).samples[s] == o.samples[s] + SamplesOf(config, t, s)
  {
    hide Config.PreparedAs, Config.KeyOf, EdgesFrom, SampleOf, SecondsToNanos, Config.Mapping, Config.Sifted;
  }

  /** Edges and samples are those of the payloads shown, before restamping and after `--drop-tf`, in order. */
  lemma {:induction false} AuditSawWhatWasShown(config: Config, o: Observed, turns: seq<Turn>)
    requires config.AllFit(turns) && |config.streams| == |o.samples| && config.lcm.Lawful()
    ensures config.After(o, turns).edges == o.edges + AllEdges(config, turns)
    ensures forall s :: 0 <= s < |o.samples| ==>
              config.After(o, turns).samples[s] == o.samples[s] + AllSamples(config, turns, s)
    decreases |turns|
  {
    hide Config.Applied, EdgesOf, SamplesOf, Config.Fits;
    if turns != [] {
      var front, t := turns[..|turns| - 1], turns[|turns| - 1];
      AuditSawWhatWasShown(config, o, front);
      TurnShows(config, config.After(o, front), t);
    }
  }

  /** The edges that came in on streams `--drop-tf` does not look at. */
  ghost function Unfiltered(config: Config, turns: seq<Turn>): seq<Edge>
    requires config.AllFit(turns) && config.lcm.Lawful()
  {
    if turns == [] then []
    else
      var t := turns[|turns| - 1];
      assert config.Fits(t);
      Unfiltered(config, turns[..|turns| - 1])
        + if config.streams[t.record.stream].msgName == TF_MESSAGE then [] else EdgesOf(config, t)
  }

  lemma TurnIsFiltered(config: Config, t: Turn)
    requires config.Fits(t) && config.lcm.Lawful() && config.rules.Some?
    requires config.streams[t.record.stream].msgName == TF_MESSAGE
    ensures forall e :: e in EdgesOf(config, t) ==> !Matches(config.rules.value, e)
  {
    hide Matches, Kept;
    var stored := config.toWire(t.record.stream, t.record.data);
    if ShownIn(config, t).Some? {
      var decoded := config.lcm.decode(Tf2TFMessage, stored.value);
      FilteredEdges(config.lcm, config.rules.value, decoded.value.tfMessage.transforms);
    }
  }

  /** A dropped edge never reaches the audit, but through a stream that `--drop-tf` does not look at. */
  lemma {:induction false} NoDroppedEdgeIsLearned(config: Config, turns: seq<Turn>, e: Edge)
    requires config.AllFit(turns) && config.lcm.Lawful() && config.rules.Some?
    requires e in AllEdges(config, turns) && Matches(config.rules.value, e)
    ensures e in Unfiltered(config, turns)
    decreases |turns|
  {
    hide EdgesOf;
    var front, t := turns[..|turns| - 1], turns[|turns| - 1];
    assert config.Fits(t);
    if e in AllEdges(config, front) {
      NoDroppedEdgeIsLearned(config, front, e);
    } else if config.streams[t.record.stream].msgName == TF_MESSAGE {
      TurnIsFiltered(config, t);
    }
  }

  // ------------------------------------------------------------ where the replay starts

  /** The first record with a wire form, plus `--start`. */
  ghost function BaseOf(config: Config, turns: seq<Turn>): Option<real>
    requires config.AllFit(turns)
  {
    if turns == [] then None
    else
      var base, t := BaseOf(config, turns[..|turns| - 1]), turns[|turns| - 1];
      assert config.Fits(t);
      if base.Some? || !config.Supported(t.record) then base else Some(t.record.ts + config.args.start)
  }

  lemma TurnKeepsBase(config: Config, s: State, out: nat, t: Turn)
    requires config.lcm.Lawful() && config.Turned(s, out, t) && (s.setting.anchor.Some? <==> s.setting.base.Some?)
    ensures config.Fits(t)
    ensures var base := t.after.setting.base;
            && (t.after.setting.anchor.Some? <==> base.Some?)
            && base == (if s.setting.base.Some? || !config.Supported(t.record) then s.setting.base
                        else Some(t.record.ts + config.args.start))
    ensures config.Supported(t.record) ==> t.after.setting.base.Some?
    ensures config.Supported(t.record) || t.fate == Ok(Skipped)
    ensures WasReleased(t) ==>
              && (t.fate == Ok(Emptied) <==> config.Shown(t.record) == Ok(None))
              && (t.fate == Ok(Published) ==> config.Shown(t.record).Ok?)
    ensures config.Supported(t.record) ==>
              match config.PlacedAs(t.after.setting.base, t.record)
              case Some(outcome) => t.fate == Ok(outcome)
              case None => WasReleased(t)
  {
    hide Retimed, Config.Sifted, WaitedAs, MappingOf;
    config.TurnFits(s, out, t);
  }

  /** What becomes of a record, by where the whole pass starts. */
  ghost predicate Judged(config: Config, base: Option<real>, t: Turn)
    requires config.Fits(t) && config.lcm.Lawful()
  {
    if !config.Supported(t.record) then t.fate == Ok(Skipped)
    else
      && base.Some?
      && if t.record.ts < base.value then t.fate == Ok(Skipped)
         else if config.args.duration.Some? && t.record.ts - base.value > config.args.duration.value
         then t.fate == Ok(Ended)
         else if config.Shown(t.record) == Ok(None) then t.fate == Ok(Emptied)
         else t.fate == Err || (t.fate == Ok(Published) && config.Shown(t.record).Ok?)
  }

  /** All fates of a pass are measured from its first record with a wire form. */
  lemma {:induction false} FatesAreMeasuredFromTheFirst(config: Config, o: Observed, a: Account)
    requires config.lcm.Lawful() && |config.streams| == |o.samples| && config.Tells(o, a)
    requires a.start.setting == Unset(config.args)
    ensures Final(a).setting.base == BaseOf(config, a.turns)
    ensures Final(a).setting.anchor.Some? <==> Final(a).setting.base.Some?
    ensures forall i :: 0 <= i < |a.turns| ==>
              config.Fits(a.turns[i]) && Judged(config, BaseOf(config, a.turns), a.turns[i])
    decreases |a.turns|
  {
    hide Config.Turned, Config.Applied, Config.Shown, Config.Fits;
    if a.turns != [] {
      var front, t := a.(turns := a.turns[..|a.turns| - 1]), a.turns[|a.turns| - 1];
      FatesAreMeasuredFromTheFirst(config, o, front);
      TurnKeepsBase(config, Final(front), |config.After(o, front.turns).out|, t);
      OneFate(t.fate);
      assert forall i :: 0 <= i < |front.turns| ==> front.turns[i] == a.turns[i];
    }
  }
}
