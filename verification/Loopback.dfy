/**
  Telling our own messages apart when they loop back (src/record.rs:173-206): a set of keys
  and an expiry queue, refining a map from each key to the time its last accepted note was
  made.
 */
module Loopback {
  import opened Clocks

  const LOOPBACK_TTL := 10.0

  /** The channel a message went out on, and the stamp inside it (0 when it has none). */
  type Key = (string, int)

  datatype Entry = Entry(at: real, key: Key)

  predicate Fresh(at: real, now: real) { now - at < LOOPBACK_TTL }

  /** When each key was last accepted. A live key is not refreshed by another note. */
  type Accepted = map<Key, real>

  predicate Claimed(accepted: Accepted, key: Key, now: real) {
    key in accepted && Fresh(accepted[key], now)
  }

  function AcceptNote(accepted: Accepted, key: Key, judged: real, at: real): Accepted {
    if Claimed(accepted, key, judged) then accepted else accepted[key := at]
  }

  datatype Event =
    | Noted(judged: real, at: real, key: Key)
    | Delivered(at: real, key: Key)

  function AcceptedAfter(events: seq<Event>): Accepted {
    if events == [] then map[]
    else
      var before, last := AcceptedAfter(events[..|events| - 1]), events[|events| - 1];
      if last.Noted? then AcceptNote(before, last.key, last.judged, last.at) else before
  }

  lemma OneEventMore(events: seq<Event>, e: Event)
    ensures AcceptedAfter(events + [e])
         == if e.Noted? then AcceptNote(AcceptedAfter(events), e.key, e.judged, e.at) else AcceptedAfter(events)
  {
    assert (events + [e])[..|events|] == events;
  }

  /** Delivery `i` of the run is dropped as our own. */
  predicate Dropped(events: seq<Event>, i: nat)
    requires i < |events| && events[i].Delivered?
  {
    Claimed(AcceptedAfter(events[..i]), events[i].key, events[i].at)
  }

  ghost predicate InOrder(events: seq<Event>) {
    && (forall i :: 0 <= i < |events| && events[i].Noted? ==> events[i].judged <= events[i].at)
    && (forall i, j :: 0 <= i < j < |events| ==> events[i].at <= events[j].at)
  }

  ghost predicate HappenedBy(events: seq<Event>, now: real) {
    forall i :: 0 <= i < |events| ==> events[i].at <= now
  }

  function KeysOf(order: seq<Entry>): set<Key> { set e | e in order :: e.key }

  lemma OneKeyMore(order: seq<Entry>, e: Entry)
    ensures KeysOf(order + [e]) == KeysOf(order) + {e.key}
  {
  }

  lemma OneKeyLess(order: seq<Entry>)
    requires order != [] && forall i :: 0 < i < |order| ==> order[i].key != order[0].key
    ensures KeysOf(order[1..]) == KeysOf(order) - {order[0].key}
  {
    assert order == [order[0]] + order[1..];
  }

  class SelfPublished {
    var seen: set<Key>
    var order: seq<Entry>
    /** Every note made and every message asked about, in order. */
    ghost var history: seq<Event>
    /** What those notes come to. */
    ghost var accepted: Accepted

    ghost predicate Valid(now: real)
      reads this
    {
      && QueueValid(now)
      && accepted == AcceptedAfter(history) && InOrder(history) && HappenedBy(history, now)
    }

    /** The set is the queue, oldest first, and the queue is every accepted note but dead ones. */
    ghost predicate QueueValid(now: real)
      reads this`seen, this`order, this`accepted
    {
      && seen == KeysOf(order)
      && (forall i, j :: 0 <= i < j < |order| ==> order[i].key != order[j].key && order[i].at <= order[j].at)
      && (forall i :: 0 <= i < |order| ==>
            order[i].at <= now && order[i].key in accepted && accepted[order[i].key] == order[i].at)
      && (forall k :: k in accepted && k !in seen ==> !Fresh(accepted[k], now))
    }

    constructor ()
      ensures history == [] && forall now :: Valid(now)
    {
      seen := {};
      order := [];
      history := [];
      accepted := map[];
    }

    /** Afterwards the queue holds exactly the entries that are live at the latest look at the clock. */
    method Expire(clock: Clock)
      requires clock.Valid() && Valid(clock.Latest())
      modifies this`seen, this`order, clock
      ensures clock.Valid() && clock.tick >= old(clock.tick)
      ensures clock.Latest() >= old(clock.Latest())
      ensures Valid(clock.Latest())
      ensures forall k :: k in seen <==> Claimed(accepted, k, clock.Latest())
    {
      while order != []
        invariant clock.Valid() && clock.tick >= old(clock.tick)
        invariant clock.Latest() >= old(clock.Latest())
        invariant Valid(clock.Latest())
        decreases |order|
      {
        ghost var earlier := clock.Latest();
        var now := clock.Now();
        StillValid(earlier, now);
        if Fresh(order[0].at, now) {
          FrontIsOldest(now);
          return;
        }
        PopFront(now);
      }
    }

    lemma StillValid(earlier: real, now: real)
      requires earlier <= now && Valid(earlier)
      ensures Valid(now)
    {
    }

    lemma FrontIsOldest(now: real)
      requires QueueValid(now) && order != [] && Fresh(order[0].at, now)
      ensures forall k :: k in seen <==> Claimed(accepted, k, now)
    {
      forall k | k in seen
        ensures Claimed(accepted, k, now)
      {
        var e :| e in order && e.key == k;
        assert order[0].at <= e.at;
      }
    }

    method PopFront(ghost now: real)
      requires QueueValid(now) && order != [] && !Fresh(order[0].at, now)
      modifies this`seen, this`order
      ensures QueueValid(now) && order == old(order)[1..]
    {
      hide KeysOf;
      OneKeyLess(order);
      var head := order[0];
      order := order[1..];
      seen := seen - {head.key};
    }

    /** One note more, judged by the look that cleared the queue. */
    method Note(clock: Clock, key: Key)
      requires clock.Valid() && Valid(clock.Latest())
      modifies this, clock
      ensures clock.Valid() && clock.tick >= old(clock.tick)
      ensures clock.Latest() >= old(clock.Latest())
      ensures Valid(clock.Latest())
      ensures Claimed(accepted, key, clock.Latest())
      ensures exists judged :: old(clock.Latest()) <= judged <= clock.Latest()
                && history == old(history) + [Noted(judged, clock.Latest(), key)]
    {
      hide AcceptedAfter, InOrder, HappenedBy;
      Expire(clock);
      ghost var judged := clock.Latest();
      if key !in seen {
        var now := clock.Now();
        StillValid(judged, now);
        Push(key, now);
      }
      assert accepted == AcceptNote(old(accepted), key, judged, clock.Latest());
      OneEventMore(history, Noted(judged, clock.Latest(), key));
      OrderedMore(history, Noted(judged, clock.Latest(), key), judged);
      history := history + [Noted(judged, clock.Latest(), key)];
    }

    lemma OrderedMore(events: seq<Event>, e: Event, now: real)
      requires InOrder(events) && HappenedBy(events, now) && now <= e.at && (e.Noted? ==> e.judged <= e.at)
      ensures InOrder(events + [e]) && HappenedBy(events + [e], e.at)
    {
    }

    method Push(key: Key, now: real)
      requires QueueValid(now) && key !in seen
      modifies this`seen, this`order, this`accepted
      ensures QueueValid(now) && seen == old(seen) + {key} && order == old(order) + [Entry(now, key)]
      ensures accepted == old(accepted)[key := now]
    {
      hide KeysOf, Fresh;
      OneKeyMore(order, Entry(now, key));
      NotQueued(key, now);
      seen := seen + {key};
      order := order + [Entry(now, key)];
      accepted := accepted[key := now];
    }

    lemma NotQueued(key: Key, now: real)
      requires QueueValid(now) && key !in seen
      ensures forall i :: 0 <= i < |order| ==> order[i].key != key
    {
      assert forall i :: 0 <= i < |order| ==> order[i] in order;
    }

    /** True exactly when the key's last accepted note is younger than the window. */
    method Claims(clock: Clock, key: Key) returns (ours: bool)
      requires clock.Valid() && Valid(clock.Latest())
      modifies this`seen, this`order, this`history, clock
      ensures clock.Valid() && clock.tick >= old(clock.tick) && clock.Latest() >= old(clock.Latest())
      ensures Valid(clock.Latest())
      ensures history == old(history) + [Delivered(clock.Latest(), key)]
      ensures ours <==> Dropped(history, |history| - 1)
    {
      hide AcceptedAfter, InOrder, HappenedBy;
      Expire(clock);
      ours := key in seen;
      ghost var e := Delivered(clock.Latest(), key);
      OneEventMore(history, e);
      OrderedMore(history, e, clock.Latest());
      assert (history + [e])[..|history|] == history;
      history := history + [e];
    }
  }

  // ------------------------------------------------------------ whole runs

  /** What is accepted was noted, at that very time. */
  lemma {:induction false} AcceptedWasNoted(events: seq<Event>, key: Key) returns (n: nat)
    requires key in AcceptedAfter(events)
    ensures n < |events| && events[n].Noted? && events[n].key == key
    ensures events[n].at == AcceptedAfter(events)[key]
    decreases |events|
  {
    var front, last := events[..|events| - 1], events[|events| - 1];
    if last.Noted? && last.key == key && !Claimed(AcceptedAfter(front), key, last.judged) {
      n := |events| - 1;
    } else {
      n := AcceptedWasNoted(front, key);
      assert events[n] == front[n];
    }
  }

  /** No message is dropped unless its key was noted within the window before it. */
  lemma OnlyRecentNotesDrop(events: seq<Event>, i: nat) returns (n: nat)
    requires i < |events| && events[i].Delivered? && Dropped(events, i)
    ensures n < i && events[n].Noted? && events[n].key == events[i].key
    ensures events[i].at - events[n].at < 10.0
  {
    n := AcceptedWasNoted(events[..i], events[i].key);
    assert events[n] == events[..i][n];
  }

  /** The accepted time of a key never goes back. */
  lemma {:induction false} AcceptedTimesGrow(events: seq<Event>, m: nat, key: Key)
    requires InOrder(events) && m <= |events| && key in AcceptedAfter(events[..m])
    ensures key in AcceptedAfter(events)
    ensures AcceptedAfter(events)[key] >= AcceptedAfter(events[..m])[key]
    decreases |events|
  {
    if m == |events| {
      assert events[..m] == events;
    } else {
      var front, last := events[..|events| - 1], events[|events| - 1];
      assert front[..m] == events[..m];
      AcceptedTimesGrow(front, m, key);
      var n := AcceptedWasNoted(front, key);
      assert events[n] == front[n];
    }
  }

  /** Note `n` repeats one of the same key that was made at an earlier instant and is still live. */
  predicate Repeats(events: seq<Event>, n: nat)
    requires n < |events| && events[n].Noted?
  {
    var before, e := AcceptedAfter(events[..n]), events[n];
    Claimed(before, e.key, e.judged) && before[e.key] < e.at
  }

  /** An own message delivered within the window of a note that repeats no older one is dropped. */
  lemma OwnMessagesAreDropped(events: seq<Event>, n: nat, i: nat)
    requires InOrder(events)
    requires n < i < |events| && events[n].Noted? && events[i].Delivered? && events[n].key == events[i].key
    requires events[i].at - events[n].at < 10.0 && !Repeats(events, n)
    ensures Dropped(events, i)
  {
    var key := events[n].key;
    NoteIsAccepted(events, n);
    assert events[..i][..n + 1] == events[..n + 1];
    AcceptedTimesGrow(events[..i], n + 1, key);
  }

  lemma NoteIsAccepted(events: seq<Event>, n: nat)
    requires InOrder(events) && n < |events| && events[n].Noted?
    ensures events[n].key in AcceptedAfter(events[..n + 1])
    ensures AcceptedAfter(events[..n + 1])[events[n].key] >= events[n].at <==> !Repeats(events, n)
  {
    assert events[..n + 1] == events[..n] + [events[n]];
    OneEventMore(events[..n], events[n]);
  }

  /** Whatever happens next, a message of the last note's key within its window is dropped. */
  ghost predicate Protects(events: seq<Event>)
    requires events != [] && events[|events| - 1].Noted?
  {
    var e := events[|events| - 1];
    forall more, i :: InOrder(events + more) && |events| <= i < |events + more|
                      && (events + more)[i] == Delivered((events + more)[i].at, e.key)
                      && (events + more)[i].at - e.at < 10.0
      ==> Dropped(events + more, i)
  }

  /**
    Every own message within the window of every note is dropped, however the run goes on after
    it, exactly when each note of a live key falls at the very instant of the one it repeats.
   */
  lemma RunProtectsIff(events: seq<Event>)
    requires InOrder(events)
    ensures (forall n :: 0 <= n < |events| && events[n].Noted? ==> Protects(events[..n + 1]))
       <==> (forall n :: 0 <= n < |events| && events[n].Noted? ==> !Repeats(events, n))
  {
    hide Protects, Repeats, InOrder;
    forall n | 0 <= n < |events| && events[n].Noted?
      ensures Protects(events[..n + 1]) <==> !Repeats(events, n)
    {
      NoteProtectsIff(events, n);
    }
  }

  lemma NoteProtectsIff(events: seq<Event>, n: nat)
    requires InOrder(events) && n < |events| && events[n].Noted?
    ensures Protects(events[..n + 1]) <==> !Repeats(events, n)
  {
    hide InOrder;
    var past := events[..n + 1];
    assert past[..n] == events[..n] && past[n] == events[n];
    if Repeats(events, n) {
      GapAfterRepeat(events, n);
    } else {
      forall more, i | InOrder(past + more) && |past| <= i < |past + more|
                       && (past + more)[i] == Delivered((past + more)[i].at, events[n].key)
                       && Fresh(events[n].at, (past + more)[i].at)
        ensures Dropped(past + more, i)
      {
        assert (past + more)[..n] == events[..n];
        OwnMessagesAreDropped(past + more, n, i);
      }
    }
  }

  /** After a repeating note there is a moment within its window at which its key is not claimed. */
  lemma GapAfterRepeat(events: seq<Event>, n: nat)
    requires InOrder(events) && n < |events| && events[n].Noted? && Repeats(events, n)
    ensures !Protects(events[..n + 1])
  {
    var past, e := events[..n + 1], events[n];
    NoteIsAccepted(events, n);
    assert past == events[..n] + [e];
    OneEventMore(events[..n], e);
    var oldest := AcceptedAfter(events[..n])[e.key];
    var t := if oldest + LOOPBACK_TTL > e.at then oldest + LOOPBACK_TTL else e.at;
    var more := [Delivered(t, e.key)];
    assert InOrder(past + more);
    assert (past + more)[..|past|] == past;
    assert (past + more)[|past|] == more[0];
    assert !Dropped(past + more, |past|);
  }

  /** For instance: a note of a live key does not refresh it, and a message two seconds later gets through. */
  lemma ReNotingDoesNotRefresh(key: Key)
    ensures var events := [Noted(0.0, 0.0, key), Noted(9.0, 9.0, key), Delivered(11.0, key)];
            InOrder(events) && Fresh(events[1].at, events[2].at) && !Dropped(events, 2) && Repeats(events, 1)
  {
    var events := [Noted(0.0, 0.0, key), Noted(9.0, 9.0, key), Delivered(11.0, key)];
    assert events[..2][..1] == events[..1] && events[..1][..0] == [];
    assert AcceptedAfter(events[..1]) == map[key := 0.0];
    assert AcceptedAfter(events[..2]) == map[key := 0.0];
  }
}
