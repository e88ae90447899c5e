/** Counting the replies on a watched topic (src/sink.rs): what a lockstep wait is answered by. */
module Watching {
  import opened Naming
  import Lockstepping

  /** A watched topic is answered by itself and by every typed channel of that name. */
  predicate ChannelAnswers(channel: string, topic: string) {
    match StripPrefix(channel, topic)
    case Some(rest) => rest == "" || rest[0] == '#'
    case None => false
  }

  /**
    A topic is answered by the channels of its name, typed or not. Whatever topic is watched,
    its own `#type` included, a channel under the same prefix answers exactly if it is that
    topic or continues it with a type; of names and types without a `#`, exactly the stream's
    bare name and its full name are answered by it.
   */
  lemma AnsweredExactlyBy(prefix: string, published: string, msgName: string, reply: string)
    ensures var full := Name("", published, msgName, '#');
            && (ChannelAnswers(Name(prefix, published, msgName, '#'), prefix + reply)
                <==> reply == full || reply + ['#'] <= full)
            && ('#' !in published && '#' !in msgName ==>
                  (ChannelAnswers(Name(prefix, published, msgName, '#'), prefix + reply)
                   <==> reply == published || reply == full))
  {
    var full := Name("", published, msgName, '#');
    var channel, topic := Name(prefix, published, msgName, '#'), prefix + reply;
    assert channel == prefix + full;
    assert topic[|prefix|..] == reply && channel[|prefix|..] == full;
    PrefixesLineUp(prefix, reply, full);
    if '#' !in published && '#' !in msgName { OnlyTheSeparatorSplits(published, msgName, reply); }
  }

  lemma PrefixesLineUp(prefix: string, reply: string, full: string)
    ensures prefix + reply <= prefix + full <==> reply <= full
    ensures reply <= full ==> (prefix + full)[|prefix + reply|..] == full[|reply|..]
    ensures reply + ['#'] <= full <==> reply <= full && |reply| < |full| && full[|reply|] == '#'
  {
    var channel, topic := prefix + full, prefix + reply;
    if topic <= channel {
      assert reply == channel[..|topic|][|prefix|..] == full[..|reply|];
    }
    if reply <= full { assert channel[..|topic|] == prefix + full[..|reply|]; }
  }

  lemma HashStandsIn(published: string, msgName: string, k: nat)
    requires var full := Name("", published, msgName, '#'); k < |full| && full[k] == '#'
    ensures k == |published| || '#' in published || '#' in msgName
  {
    var full := Name("", published, msgName, '#');
    if k < |published| { assert full[k] == published[k]; }
    if k > |published| { assert full[k] == msgName[k - |published| - 1]; }
  }

  lemma OnlyTheSeparatorSplits(published: string, msgName: string, reply: string)
    requires '#' !in published && '#' !in msgName
    ensures var full := Name("", published, msgName, '#');
            reply == full || reply + ['#'] <= full <==> reply == published || reply == full
  {
    var full := Name("", published, msgName, '#');
    if reply + ['#'] <= full {
      assert full[|reply|] == '#';
      HashStandsIn(published, msgName, |reply|);
      assert reply == full[..|published|] == published;
    }
    if reply == published && msgName != "" { assert full == reply + ['#'] + msgName; }
  }

  /** How many of the messages heard so far answer the topic. */
  function Answers(heard: seq<string>, topic: string): nat {
    if heard == [] then 0
    else Answers(heard[..|heard| - 1], topic) + if ChannelAnswers(heard[|heard| - 1], topic) then 1 else 0
  }

  /** The count a waiter sees never goes back. */
  lemma {:induction false} AnswersGrow(heard: seq<string>, topic: string, k: nat)
    requires k <= |heard|
    ensures Answers(heard[..k], topic) <= Answers(heard, topic) <= Answers(heard[..k], topic) + |heard| - k
    decreases |heard|
  {
    if k == |heard| {
      assert heard[..k] == heard;
    } else {
      var front := heard[..|heard| - 1];
      AnswersGrow(front, topic, k);
      assert front[..k] == heard[..k];
    }
  }

  /** The watcher: the counts it sends, each at the message that brings the total there. */
  method Watch(heard: seq<string>, topic: string) returns (sent: seq<(nat, nat)>)
    ensures |sent| == Answers(heard, topic)
    ensures forall i :: 0 <= i < |sent| ==>
              && sent[i].0 == i + 1 && sent[i].1 < |heard|
              && ChannelAnswers(heard[sent[i].1], topic)
              && Answers(heard[..sent[i].1 + 1], topic) == i + 1
  {
    var seen := 0;
    sent := [];
    for k := 0 to |heard|
      invariant seen == |sent| == Answers(heard[..k], topic)
      invariant forall i :: 0 <= i < |sent| ==>
                  && sent[i].0 == i + 1 && sent[i].1 < k
                  && ChannelAnswers(heard[sent[i].1], topic)
                  && Answers(heard[..sent[i].1 + 1], topic) == i + 1
    {
      assert heard[..k + 1][..k] == heard[..k];
      if ChannelAnswers(heard[k], topic) {
        seen := seen + 1;
        sent := sent + [(seen, k)];
      }
    }
    assert heard[..|heard|] == heard;
  }

  // ------------------------------------------------------------ what a wait sees of it

  /** What was heard of `heard` once `n` messages were. */
  function HeardBy(heard: seq<string>, n: nat): seq<string> {
    if n <= |heard| then heard[..n] else heard
  }

  lemma AnswersGrowWithTime(heard: seq<string>, topic: string, i: nat, j: nat)
    requires i <= j
    ensures Answers(HeardBy(heard, i), topic) <= Answers(HeardBy(heard, j), topic) <= Answers(heard, topic)
  {
    if i <= |heard| {
      var later := HeardBy(heard, j);
      AnswersGrow(later, topic, i);
      assert later[..i] == heard[..i];
    }
    if j <= |heard| { AnswersGrow(heard, topic, j); }
  }

  /** Before an answer is heard the count is lower. */
  lemma NotAnsweredBefore(heard: seq<string>, topic: string, n: nat, m: nat)
    requires n <= m < |heard| && ChannelAnswers(heard[m], topic)
    ensures Answers(HeardBy(heard, n), topic) < Answers(heard[..m + 1], topic)
  {
    AnswersGrow(heard[..m], topic, n);
    assert heard[..m][..n] == heard[..n];
    assert heard[..m + 1][..m] == heard[..m];
  }

  /** By the k-th look `progress(k)` messages have been heard. */
  ghost predicate Progresses(progress: nat -> nat) {
    forall i: nat, j: nat :: i <= j ==> progress(i) <= progress(j)
  }

  /** How many messages have answered by the k-th look. */
  function AnsweredAt(heard: seq<string>, topic: string, progress: nat -> nat, k: nat): nat {
    Answers(HeardBy(heard, progress(k)), topic)
  }

  lemma AnsweredGrows(heard: seq<string>, topic: string, progress: nat -> nat)
    requires Progresses(progress)
    ensures forall i: nat, j: nat :: i <= j ==>
              AnsweredAt(heard, topic, progress, i) <= AnsweredAt(heard, topic, progress, j)
    ensures forall k: nat :: AnsweredAt(heard, topic, progress, k) <= Answers(heard, topic)
  {
    hide Answers, HeardBy;
    forall i: nat, j: nat | i <= j
      ensures AnsweredAt(heard, topic, progress, i) <= AnsweredAt(heard, topic, progress, j)
    {
      AnswersGrowWithTime(heard, topic, progress(i), progress(j));
    }
    forall k: nat
      ensures AnsweredAt(heard, topic, progress, k) <= Answers(heard, topic)
    {
      AnswersGrowWithTime(heard, topic, progress(k), progress(k));
    }
  }

  /** When the count last sent was sent. */
  function LatestOf(sent: seq<(nat, nat)>, count: nat, arrived: nat -> real, subscribed: real): real {
    if 0 < count <= |sent| then arrived(sent[count - 1].1) else subscribed
  }

  /**
    The receiver a lockstep wait reads: at each look it shows how many of the messages heard by
    then answered the topic, and the instant the last of those was counted at.
   */
  method Receive(heard: seq<string>, topic: string, progress: nat -> nat, arrived: nat -> real, subscribed: real)
      returns (arrivals: Lockstepping.Arrivals, sent: seq<(nat, nat)>)
    requires Progresses(progress)
    ensures fresh(arrivals) && arrivals.Valid() && |sent| == Answers(heard, topic)
    ensures forall k: nat :: arrivals.count(k) == AnsweredAt(heard, topic, progress, k) <= |sent|
    ensures forall k: nat :: arrivals.count(k) == 0 ==> arrivals.latest(k) == subscribed
    ensures forall k: nat :: arrivals.count(k) > 0 ==>
              && sent[arrivals.count(k) - 1].1 < progress(k)
              && arrivals.latest(k) == arrived(sent[arrivals.count(k) - 1].1)
    ensures forall i :: 0 <= i < |sent| ==> sent[i].1 < |heard| && ChannelAnswers(heard[sent[i].1], topic)
  {
    hide Answers, ChannelAnswers, AnsweredAt, Progresses;
    sent := Watch(heard, topic);
    var counts := sent;
    AnsweredGrows(heard, topic, progress);
    forall k: nat | AnsweredAt(heard, topic, progress, k) > 0
      ensures counts[AnsweredAt(heard, topic, progress, k) - 1].1 < progress(k)
    {
      CountedByThen(heard, topic, progress, k, counts[AnsweredAt(heard, topic, progress, k) - 1].1);
    }
    arrivals := new Lockstepping.Arrivals((k: nat) => AnsweredAt(heard, topic, progress, k),
                                          (k: nat) => LatestOf(counts, AnsweredAt(heard, topic, progress, k),
                                                               arrived, subscribed));
  }

  /** The answer that brought the count to where it is had been heard by then. */
  lemma CountedByThen(heard: seq<string>, topic: string, progress: nat -> nat, k: nat, m: nat)
    requires m < |heard| && ChannelAnswers(heard[m], topic)
    requires AnsweredAt(heard, topic, progress, k) == Answers(heard[..m + 1], topic)
    ensures m < progress(k)
  {
    hide Answers, ChannelAnswers;
    if progress(k) <= m { NotAnsweredBefore(heard, topic, progress(k), m); }
  }
}
