/**
  The recorder (src/record.rs): the subscriber that decides what is captured, and the writer
  loop that turns captured messages into an mcap file and accounts for every one of them.
 */
module Recording {
  import opened Prelude
  import opened Messages
  import opened TypeNames
  import opened Cdr
  import opened Naming
  import opened Stamps
  import opened Clocks
  import opened Loopback
  import opened Codecs
  import Layouts

  /** A message that passed selection and is on its way to the file. */
  datatype Captured = Captured(stream: string, msgName: string, payload: seq<byte>, logNs: int, publishNs: int)

  /** Which codec each stream was asked to be stored with. */
  datatype Setup = Setup(f: Formats, codecs: map<string, Codec>, fallback: Codec) {
    function CodecOf(stream: string): Codec {
      if stream in codecs then codecs[stream] else fallback
    }

    function Resolved(c: Captured): Codec { CodecOf(c.stream).Resolve(c.msgName) }

    ghost function Stored(c: Captured): Result<Encoded> {
      EncodedAs(Resolved(c), f, c.msgName, c.payload)
    }

    ghost function ChannelOf(c: Captured): Channel
      requires Stored(c).Ok?
    {
      ChannelFor(Resolved(c), c.stream, Stored(c).value.msgName)
    }
  }

  /** A message in the file, with the channel it was written to. */
  datatype Filed = Filed(channel: Channel, sequence: nat, logTime: nat, publishTime: nat, data: seq<byte>)

  // ------------------------------------------------------------ what should be written

  /** The type a stream is recorded as: that of its first message that could be stored. */
  ghost function TypeOfStream(setup: Setup, taken: seq<Captured>, stream: string): Option<string> {
    if taken == [] then None
    else
      var front, last := taken[..|taken| - 1], taken[|taken| - 1];
      if TypeOfStream(setup, front, stream).Some? then TypeOfStream(setup, front, stream)
      else if last.stream == stream && setup.Stored(last).Ok? then Some(setup.Stored(last).value.msgName)
      else None
  }

  /** `c` is written when it can be stored and does not change the type of its stream. */
  ghost predicate Kept(setup: Setup, before: seq<Captured>, c: Captured) {
    && setup.Stored(c).Ok?
    && TypeOfStream(setup, before, c.stream) in {None, Some(setup.Stored(c).value.msgName)}
  }

  function CountOn(file: seq<Filed>, stream: string): nat {
    if file == [] then 0
    else CountOn(file[..|file| - 1], stream) + if file[|file| - 1].channel.topic == stream then 1 else 0
  }

  function NonNegative(n: int): nat { if n < 0 then 0 else n }

  ghost function FiledAs(setup: Setup, c: Captured, sequence: nat): (filed: Filed)
    requires setup.Stored(c).Ok?
    ensures filed.channel.topic == c.stream
  {
    Filed(setup.ChannelOf(c), sequence, NonNegative(c.logNs), NonNegative(c.publishNs), setup.Stored(c).value.data)
  }

  /** The file a capture should end up as. */
  ghost function Written(setup: Setup, taken: seq<Captured>): seq<Filed> {
    if taken == [] then []
    else
      var front, last := taken[..|taken| - 1], taken[|taken| - 1];
      var done := Written(setup, front);
      if Kept(setup, front, last) then done + [FiledAs(setup, last, CountOn(done, last.stream) + 1)] else done
  }

  /** How many messages of a stream the capture lost. */
  ghost function LostOn(setup: Setup, taken: seq<Captured>, stream: string): nat {
    if taken == [] then 0
    else
      var front, last := taken[..|taken| - 1], taken[|taken| - 1];
      LostOn(setup, front, stream) + if last.stream == stream && !Kept(setup, front, last) then 1 else 0
  }

  ghost predicate Defective(setup: Setup, c: Captured) {
    setup.Stored(c).Ok? && setup.Stored(c).value.defect
  }

  /** How many messages of a stream came out unrenderable, written or not. */
  ghost function DefectiveOn(setup: Setup, taken: seq<Captured>, stream: string): nat {
    if taken == [] then 0
    else
      var front, last := taken[..|taken| - 1], taken[|taken| - 1];
      DefectiveOn(setup, front, stream) + if last.stream == stream && Defective(setup, last) then 1 else 0
  }

  // ------------------------------------------------------------ tallies by stream

  type Tallies = map<string, nat>

  function Get(m: Tallies, stream: string): nat { if stream in m then m[stream] else 0 }

  function Bumped(m: Tallies, stream: string): Tallies { m[stream := Get(m, stream) + 1] }

  ghost function Sum(m: Tallies): nat {
    if m == map[] then 0
    else
      var k :| k in m;
      m[k] + Sum(m - {k})
  }

  lemma {:induction false} SumRemoves(m: Tallies, k: string)
    requires k in m
    ensures Sum(m) == m[k] + Sum(m - {k})
    decreases m
  {
    var first :| first in m && Sum(m) == m[first] + Sum(m - {first});
    if first != k {
      SumRemoves(m - {first}, k);
      SumRemoves(m - {k}, first);
      assert m - {first} - {k} == m - {k} - {first};
    }
  }

  lemma BumpAddsOne(m: Tallies, k: string)
    ensures Sum(Bumped(m, k)) == Sum(m) + 1
  {
    var after := Bumped(m, k);
    SumRemoves(after, k);
    if k in m {
      SumRemoves(m, k);
      assert after - {k} == m - {k};
    } else {
      assert after - {k} == m;
    }
  }

  // ------------------------------------------------------------ the writer

  /** A channel of the file, and the number of messages written to it so far. */
  datatype Registered = Registered(id: nat, recorded: string, sequence: nat)

  datatype Row = Row(channel: nat, sequence: nat, logTime: nat, publishTime: nat, data: seq<byte>)

  class Capture {
    const setup: Setup
    /** The file: its channels by id, and its messages. */
    var announced: seq<Channel>
    var rows: seq<Row>
    var channels: map<string, Registered>
    var messages: nat
    var byStream: Tallies
    var unencodable: Tallies
    var unrenderable: Tallies
    /** Everything received so far. */
    ghost var taken: seq<Captured>

    ghost predicate Valid()
      reads this
    {
      && setup.f.Lawful()
      && ChannelsAgree(taken) && FileAgrees(Written(setup, taken))
      && WrittenAgree(Written(setup, taken)) && LostAgree(taken) && DefectsAgree(taken)
    }

    /** One channel per recorded stream, under the type and the codec of that stream. */
    ghost predicate ChannelsAgree(h: seq<Captured>)
      reads this`channels, this`announced
    {
      && (forall s :: s in channels <==> TypeOfStream(setup, h, s).Some?)
      && (forall s :: s in channels ==> Announced(h, s))
      && (forall s, t :: s in channels && t in channels && channels[s].id == channels[t].id ==> s == t)
    }

    ghost predicate Announced(h: seq<Captured>, s: string)
      requires s in channels
      reads this`channels, this`announced
    {
      && TypeOfStream(setup, h, s) == Some(channels[s].recorded)
      && channels[s].id < |announced|
      && channels[s].sequence == CountOn(Written(setup, h), s)
      && announced[channels[s].id]
         == ChannelFor(setup.CodecOf(s).Resolve(channels[s].recorded), s, channels[s].recorded)
    }

    /** The file reads as it should: every message, in order, on the channel it belongs to. */
    ghost predicate FileAgrees(file: seq<Filed>)
      reads this`announced, this`rows
    {
      && |rows| == |file|
      && (forall k :: 0 <= k < |rows| ==> rows[k].channel < |announced|)
      && forall k :: 0 <= k < |rows| ==> Read(rows[k]) == file[k]
    }

    ghost function Read(row: Row): Filed
      requires row.channel < |announced|
      reads this`announced
    {
      Filed(announced[row.channel], row.sequence, row.logTime, row.publishTime, row.data)
    }

    ghost predicate WrittenAgree(file: seq<Filed>)
      reads this`messages, this`rows, this`byStream
    {
      && messages == |rows| == Sum(byStream)
      && forall s :: Get(byStream, s) == CountOn(file, s)
    }

    ghost predicate LostAgree(h: seq<Captured>)
      reads this`messages, this`unencodable
    {
      && |h| == messages + Sum(unencodable)
      && forall s :: Get(unencodable, s) == LostOn(setup, h, s)
    }

    ghost predicate DefectsAgree(h: seq<Captured>)
      reads this`unrenderable
    {
      forall s :: Get(unrenderable, s) == DefectiveOn(setup, h, s)
    }

    constructor (setup: Setup)
      requires setup.f.Lawful()
      ensures Valid() && taken == [] && this.setup == setup
    {
      this.setup := setup;
      announced := [];
      rows := [];
      channels := map[];
      messages := 0;
      byStream := map[];
      unencodable := map[];
      unrenderable := map[];
      taken := [];
      new;
      hide ChannelsAgree, FileAgrees, WrittenAgree, LostAgree, DefectsAgree;
      NothingFiled();
    }

    lemma NothingFiled()
      requires announced == [] && rows == [] && channels == map[] && messages == 0 && taken == []
      requires byStream == map[] && unencodable == map[] && unrenderable == map[]
      ensures ChannelsAgree([]) && FileAgrees(Written(setup, [])) && WrittenAgree(Written(setup, []))
      ensures LostAgree([]) && DefectsAgree([])
    {
      hide TypeOfStream, Written, LostOn, DefectiveOn, Sum, CountOn, Announced, Read, Formats.Lawful;
      NothingTaken(setup);
    }

    /** Counted before the type of the stream is looked at. */
    method CountDefect(c: Captured, defect: bool)
      requires DefectsAgree(taken) && defect == Defective(setup, c)
      modifies this`unrenderable
      ensures DefectsAgree(taken + [c])
    {
      hide EncodedAs, Defective, DefectiveOn;
      OneMoreDefect(setup, taken, c);
      if defect { unrenderable := Bumped(unrenderable, c.stream); }
    }

    method Lose(c: Captured)
      requires setup.f.Lawful() && !Kept(setup, taken, c)
      requires ChannelsAgree(taken) && FileAgrees(Written(setup, taken))
      requires WrittenAgree(Written(setup, taken)) && LostAgree(taken)
      requires DefectsAgree(taken + [c])
      modifies this`unencodable, this`taken
      ensures Valid() && taken == old(taken) + [c]
    {
      hide Kept, Written, TypeOfStream, LostOn, EncodedAs, DefectsAgree, FileAgrees, WrittenAgree;
      LosesOne(setup, taken, c);
      assert ChannelsAgree(taken + [c]);
      CountLost(c);
      taken := taken + [c];
    }

    method CountLost(c: Captured)
      requires !Kept(setup, taken, c) && LostAgree(taken)
      modifies this`unencodable
      ensures LostAgree(taken + [c])
    {
      hide Kept, Written, TypeOfStream, LostOn, EncodedAs;
      LosesOne(setup, taken, c);
      BumpAddsOne(unencodable, c.stream);
      unencodable := Bumped(unencodable, c.stream);
    }

    /** The channel and the sequence number of a message that is written. */
    method Next(c: Captured, recorded: string) returns (id: nat, sequence: nat)
      requires Kept(setup, taken, c) && recorded == setup.Stored(c).value.msgName
      requires ChannelsAgree(taken) && FileAgrees(Written(setup, taken))
      modifies this`channels, this`announced
      ensures ChannelsAgree(taken + [c]) && FileAgrees(Written(setup, taken))
      ensures id < |announced| && announced[id] == setup.ChannelOf(c)
      ensures sequence == CountOn(Written(setup, taken), c.stream) + 1
    {
      hide Kept, Written, TypeOfStream, EncodedAs, ChannelFor, Setup.CodecOf, Codec.Resolve;
      StreamKeepsItsType(setup, taken, c);
      TypeFixesCodec(setup, c);
      if c.stream in channels {
        id, sequence := channels[c.stream].id, channels[c.stream].sequence + 1;
      } else {
        NothingWrittenYet(setup, taken, c.stream);
        id, sequence := |announced|, 1;
        announced := announced + [ChannelFor(setup.Resolved(c), c.stream, recorded)];
      }
      Register(c, Registered(id, recorded, sequence));
    }

    method Register(c: Captured, entry: Registered)
      requires Kept(setup, taken, c) && entry.recorded == setup.Stored(c).value.msgName
      requires ChannelsAgree(taken)
      requires entry.sequence == CountOn(Written(setup, taken), c.stream) + 1
      requires entry.id < |announced| && announced[entry.id]
        == ChannelFor(setup.CodecOf(c.stream).Resolve(entry.recorded), c.stream, entry.recorded)
      requires forall s :: s in channels && channels[s].id == entry.id ==> s == c.stream
      modifies this`channels
      ensures ChannelsAgree(taken + [c])
    {
      hide Kept, Written, TypeOfStream, EncodedAs, ChannelFor, CountOn, Setup.CodecOf, Codec.Resolve;
      WritesOne(setup, taken, c);
      ghost var before := channels;
      channels := channels[c.stream := entry];
      forall s | s in channels
        ensures Announced(taken + [c], s)
      {
        assert s != c.stream ==> channels[s] == before[s];
      }
    }

    /** The message goes into the file. */
    method Put(c: Captured, id: nat, sequence: nat, data: seq<byte>)
      requires Kept(setup, taken, c) && data == setup.Stored(c).value.data
      requires id < |announced| && announced[id] == setup.ChannelOf(c)
      requires sequence == CountOn(Written(setup, taken), c.stream) + 1
      requires FileAgrees(Written(setup, taken))
      modifies this`rows
      ensures FileAgrees(Written(setup, taken + [c])) && |rows| == |old(rows)| + 1
    {
      hide Kept, Written, TypeOfStream, LostOn, EncodedAs, CountOn, Setup.ChannelOf;
      WritesOne(setup, taken, c);
      ghost var before := rows;
      rows := rows + [Row(id, sequence, NonNegative(c.logNs), NonNegative(c.publishNs), data)];
      forall k | 0 <= k < |rows|
        ensures rows[k].channel < |announced| && Read(rows[k]) == Written(setup, taken + [c])[k]
      {
        assert k < |before| ==> rows[k] == before[k];
      }
    }

    method Write(c: Captured, id: nat, sequence: nat, data: seq<byte>)
      requires setup.f.Lawful() && Kept(setup, taken, c) && data == setup.Stored(c).value.data
      requires id < |announced| && announced[id] == setup.ChannelOf(c)
      requires sequence == CountOn(Written(setup, taken), c.stream) + 1
      requires FileAgrees(Written(setup, taken)) && WrittenAgree(Written(setup, taken)) && LostAgree(taken)
      requires ChannelsAgree(taken + [c]) && DefectsAgree(taken + [c])
      modifies this`rows, this`messages, this`byStream, this`taken
      ensures Valid() && taken == old(taken) + [c]
    {
      hide DefectiveOn, Written, TypeOfStream, LostOn, EncodedAs, Kept, CountOn, FileAgrees, ChannelsAgree,
        Setup.ChannelOf, DefectsAgree;
      WritesOne(setup, taken, c);
      BumpAddsOne(byStream, c.stream);
      Put(c, id, sequence, data);
      messages := messages + 1;
      byStream := Bumped(byStream, c.stream);
      taken := taken + [c];
    }

    /** The type check of the loop is what decides whether a message is kept. */
    lemma KeptIffTypeAgrees(c: Captured)
      requires ChannelsAgree(taken) && setup.Stored(c).Ok?
      ensures Kept(setup, taken, c) <==>
                (c.stream in channels ==> channels[c.stream].recorded == setup.Stored(c).value.msgName)
    {
      hide EncodedAs, TypeOfStream;
    }

    /** Writes one message, or counts it as lost. */
    method Take(c: Captured)
      requires Valid()
      modifies this
      ensures Valid() && taken == old(taken) + [c]
    {
      hide EncodedAs, ChannelsAgree, FileAgrees, WrittenAgree, LostAgree, DefectsAgree, TypeOfStream, Written;
      var encoded := Encode(setup.Resolved(c), setup.f, c.msgName, c.payload);
      if encoded.Err? {
        CountDefect(c, false);
        Lose(c);
      } else {
        CountDefect(c, encoded.value.defect);
        Store(c, encoded.value);
      }
    }

    /** Writes what was encoded, unless the stream was registered under another type. */
    method Store(c: Captured, e: Encoded)
      requires setup.f.Lawful() && setup.Stored(c) == Ok(e)
      requires ChannelsAgree(taken) && FileAgrees(Written(setup, taken))
      requires WrittenAgree(Written(setup, taken)) && LostAgree(taken)
      requires DefectsAgree(taken + [c])
      modifies this
      ensures Valid() && taken == old(taken) + [c]
    {
      hide EncodedAs, Kept, ChannelsAgree, FileAgrees, WrittenAgree, LostAgree, DefectsAgree, TypeOfStream, Written;
      KeptIffTypeAgrees(c);
      if c.stream in channels && channels[c.stream].recorded != e.msgName {
        Lose(c);
        return;
      }
      var id, sequence := Next(c, e.msgName);
      Write(c, id, sequence, e.data);
    }
  }

  // ------------------------------------------------------------ one more message

  lemma NothingTaken(setup: Setup)
    ensures Written(setup, []) == [] && Sum(map[]) == 0
    ensures forall s ::
              TypeOfStream(setup, [], s) == None && LostOn(setup, [], s) == 0 && DefectiveOn(setup, [], s) == 0
    ensures forall s :: CountOn([], s) == 0
  {
  }

  lemma LosesOne(setup: Setup, h: seq<Captured>, c: Captured)
    requires !Kept(setup, h, c)
    ensures Written(setup, h + [c]) == Written(setup, h)
    ensures forall s :: TypeOfStream(setup, h + [c], s) == TypeOfStream(setup, h, s)
    ensures forall s :: LostOn(setup, h + [c], s) == LostOn(setup, h, s) + if s == c.stream then 1 else 0
  {
    hide EncodedAs;
    assert (h + [c])[..|h|] == h;
  }

  lemma OneMoreDefect(setup: Setup, h: seq<Captured>, c: Captured)
    ensures forall s :: DefectiveOn(setup, h + [c], s) ==
              DefectiveOn(setup, h, s) + if s == c.stream && Defective(setup, c) then 1 else 0
  {
    hide Defective;
    assert (h + [c])[..|h|] == h;
  }

  lemma StreamKeepsItsType(setup: Setup, h: seq<Captured>, c: Captured)
    requires Kept(setup, h, c)
    ensures setup.Stored(c).Ok?
    ensures TypeOfStream(setup, h, c.stream) in {None, Some(setup.Stored(c).value.msgName)}
    ensures forall s :: TypeOfStream(setup, h + [c], s) ==
              if s == c.stream then Some(setup.Stored(c).value.msgName) else TypeOfStream(setup, h, s)
  {
    hide EncodedAs;
    assert (h + [c])[..|h|] == h;
  }

  lemma WritesOne(setup: Setup, h: seq<Captured>, c: Captured)
    requires Kept(setup, h, c)
    ensures Written(setup, h + [c]) ==
              Written(setup, h) + [FiledAs(setup, c, CountOn(Written(setup, h), c.stream) + 1)]
    ensures forall s :: TypeOfStream(setup, h + [c], s) ==
              if s == c.stream then Some(setup.Stored(c).value.msgName) else TypeOfStream(setup, h, s)
    ensures forall s :: LostOn(setup, h + [c], s) == LostOn(setup, h, s)
    ensures forall s :: CountOn(Written(setup, h + [c]), s) ==
              CountOn(Written(setup, h), s) + if s == c.stream then 1 else 0
  {
    hide EncodedAs, Kept, FiledAs, TypeOfStream, CountOn;
    StreamKeepsItsType(setup, h, c);
    assert (h + [c])[..|h|] == h;
    CountsOneMore(Written(setup, h), FiledAs(setup, c, CountOn(Written(setup, h), c.stream) + 1));
  }

  lemma CountsOneMore(file: seq<Filed>, entry: Filed)
    ensures forall s :: CountOn(file + [entry], s) == CountOn(file, s) + if entry.channel.topic == s then 1 else 0
  {
    assert (file + [entry])[..|file|] == file;
  }

  /** Two messages of a stream that are recorded as the same type went through the same codec. */
  lemma TypeFixesCodec(setup: Setup, c: Captured)
    requires setup.Stored(c).Ok?
    ensures setup.Resolved(c) == setup.CodecOf(c.stream).Resolve(setup.Stored(c).value.msgName)
  {
    hide Payload, TypeName, TypeNamed, Retyped;
    if setup.Resolved(c) == AsCdr {
      NameRoundTrip(TypeOf(Retyped(Carried(setup.f, c.msgName, c.payload).value)));
    }
  }

  lemma {:induction false} NothingWrittenYet(setup: Setup, h: seq<Captured>, stream: string)
    requires TypeOfStream(setup, h, stream).None?
    ensures CountOn(Written(setup, h), stream) == 0
    decreases |h|
  {
    hide EncodedAs;
    if h != [] {
      var front, last := h[..|h| - 1], h[|h| - 1];
      assert h == front + [last];
      NothingWrittenYet(setup, front, stream);
      if Kept(setup, front, last) {
        WritesOne(setup, front, last);
      }
    }
  }

  // ------------------------------------------------------------ whole captures

  /** The writer loop: every message received is written or counted as lost, stream by stream. */
  method RecordAll(setup: Setup, received: seq<Captured>) returns (capture: Capture)
    requires setup.f.Lawful()
    ensures fresh(capture) && capture.Valid() && capture.setup == setup && capture.taken == received
    ensures |received| == capture.messages + Sum(capture.unencodable)
    ensures |capture.rows| == capture.messages == Sum(capture.byStream)
  {
    hide Capture.ChannelsAgree, Capture.FileAgrees, Capture.DefectsAgree, Written, LostOn, CountOn;
    capture := new Capture(setup);
    for i := 0 to |received|
      invariant fresh(capture) && capture.Valid() && capture.setup == setup && capture.taken == received[..i]
    {
      capture.Take(received[i]);
    }
    assert received[..|received|] == received;
  }

  /** What a stream is recorded as is settled by the first of its messages that can be stored. */
  lemma {:induction false} FirstStoredNamesType(setup: Setup, h: seq<Captured>, stream: string, j: nat)
    requires j < |h| && h[j].stream == stream && setup.Stored(h[j]).Ok?
    requires forall i :: 0 <= i < j && h[i].stream == stream ==> setup.Stored(h[i]).Err?
    ensures TypeOfStream(setup, h, stream) == Some(setup.Stored(h[j]).value.msgName)
    decreases |h|
  {
    hide EncodedAs;
    var front := h[..|h| - 1];
    if j < |h| - 1 {
      FirstStoredNamesType(setup, front, stream, j);
    } else {
      NoneStored(setup, front, stream);
    }
  }

  lemma {:induction false} NoneStored(setup: Setup, h: seq<Captured>, stream: string)
    requires forall i :: 0 <= i < |h| && h[i].stream == stream ==> setup.Stored(h[i]).Err?
    ensures TypeOfStream(setup, h, stream) == None
    decreases |h|
  {
    hide EncodedAs;
    if h != [] {
      assert h[|h| - 1].stream == stream ==> setup.Stored(h[|h| - 1]).Err?;
      NoneStored(setup, h[..|h| - 1], stream);
    }
  }

  /** Every message in the file is a captured one, in the order of capture. */
  lemma {:induction false} WrittenCameFrom(setup: Setup, h: seq<Captured>, k: nat) returns (j: nat)
    requires k < |Written(setup, h)|
    ensures j < |h| && Kept(setup, h[..j], h[j]) && |Written(setup, h[..j])| == k
    ensures Written(setup, h)[k] == FiledAs(setup, h[j], CountOn(Written(setup, h)[..k], h[j].stream) + 1)
    decreases |h|
  {
    hide EncodedAs, Kept;
    var front, last := h[..|h| - 1], h[|h| - 1];
    assert h == front + [last];
    var done := Written(setup, front);
    if k < |done| {
      j := WrittenCameFrom(setup, front, k);
      assert h[..j] == front[..j];
      assert Written(setup, h)[..k] == done[..k];
    } else {
      j := |h| - 1;
      assert Written(setup, h)[..k] == done;
    }
  }

  /** A row of the file is this captured message: its times, none before the epoch, its stream and its data. */
  ghost predicate Holds(setup: Setup, row: Row, channel: Channel, c: Captured) {
    && row.logTime == (if c.logNs < 0 then 0 else c.logNs)
    && row.publishTime == (if c.publishNs < 0 then 0 else c.publishNs)
    && channel.topic == c.stream && channel.streamName == c.stream
    && channel.encoding == EncodingOf(setup, c)
    && (channel.encoding == "lcm" ==> row.data == c.payload)
    && (channel.encoding == "lz4+lcm" ==> row.data == setup.f.lz4.pack(c.payload))
    && setup.Stored(c).Ok? && row.data == setup.Stored(c).value.data
  }

  /**
    What a message is stored as: what its stream was asked for, or else everything, and no CDR without a
    transcoder.
   */
  function EncodingOf(setup: Setup, c: Captured): string {
    var asked := if c.stream in setup.codecs then setup.codecs[c.stream] else setup.fallback;
    match asked
    case AsCdr => if TypeNamed(c.msgName).Some? then "cdr" else "lcm"
    case AsLcm => "lcm"
    case AsLz4Lcm => "lz4+lcm"
  }

  lemma StoredAsAsked(setup: Setup, c: Captured)
    requires setup.Stored(c).Ok?
    ensures setup.Resolved(c).Id() == EncodingOf(setup, c)
    ensures EncodingOf(setup, c) == "lcm" ==> setup.Stored(c).value.data == c.payload
    ensures EncodingOf(setup, c) == "lz4+lcm" ==> setup.Stored(c).value.data == setup.f.lz4.pack(c.payload)
  {
    hide TypeNamed;
    assert |"cdr"| == 3 && |"lcm"| == 3 && |"lz4+lcm"| == 7 && "cdr"[0] == 'c' && "lcm"[0] == 'l';
  }

  /** Every row of the file is a message received, no two rows the same one, in the order they came. */
  lemma RowsCameFrom(capture: Capture) returns (from: seq<nat>)
    requires capture.Valid()
    ensures |from| == |capture.rows|
    ensures forall k :: 0 <= k < |from| ==>
              && from[k] < |capture.taken| && capture.rows[k].channel < |capture.announced|
              && Holds(capture.setup, capture.rows[k], capture.announced[capture.rows[k].channel],
                  capture.taken[from[k]])
    ensures forall i, k :: 0 <= i < k < |from| ==> from[i] < from[k]
  {
    hide EncodedAs, Kept, Capture.ChannelsAgree, Capture.WrittenAgree, Capture.LostAgree, Capture.DefectsAgree, Written,
      Holds, CountOn;
    var setup, taken := capture.setup, capture.taken;
    from := [];
    for n := 0 to |capture.rows|
      invariant |from| == n
      invariant forall k :: 0 <= k < n ==>
                  && from[k] < |taken| && |Written(setup, taken[..from[k]])| == k
                  && capture.rows[k].channel < |capture.announced|
                  && Holds(setup, capture.rows[k], capture.announced[capture.rows[k].channel], taken[from[k]])
      invariant forall i, k :: 0 <= i < k < n ==> from[i] < from[k]
    {
      var j := WrittenCameFrom(setup, taken, n);
      RowHolds(capture, n, j);
      forall i | 0 <= i < n
        ensures from[i] < j
      {
        if j <= from[i] { WrittenBy(setup, taken, j, from[i]); }
      }
      from := from + [j];
    }
  }

  lemma RowHolds(capture: Capture, k: nat, j: nat)
    requires capture.Valid() && k < |capture.rows| && j < |capture.taken|
    requires Kept(capture.setup, capture.taken[..j], capture.taken[j])
    requires Written(capture.setup, capture.taken)[k]
          == FiledAs(capture.setup, capture.taken[j],
                     CountOn(Written(capture.setup, capture.taken)[..k], capture.taken[j].stream) + 1)
    ensures capture.rows[k].channel < |capture.announced|
    ensures Holds(capture.setup, capture.rows[k], capture.announced[capture.rows[k].channel], capture.taken[j])
  {
    hide EncodedAs, Capture.ChannelsAgree, Capture.WrittenAgree, Capture.LostAgree, Capture.DefectsAgree, Written,
      CountOn,
      TypeOfStream, EncodingOf, Codec.Id, Setup.Resolved;
    StoredAsAsked(capture.setup, capture.taken[j]);
    assert capture.Read(capture.rows[k]) == Written(capture.setup, capture.taken)[k];
  }

  lemma WrittenBy(setup: Setup, h: seq<Captured>, i: nat, j: nat)
    requires i <= j <= |h|
    ensures |Written(setup, h[..i])| <= |Written(setup, h[..j])|
  {
    hide Written;
    assert h[..j][..i] == h[..i];
    WrittenGrows(setup, h[..j], i);
  }

  lemma {:induction false} WrittenGrows(setup: Setup, h: seq<Captured>, j: nat)
    requires j <= |h|
    ensures |Written(setup, h[..j])| <= |Written(setup, h)|
    decreases |h|
  {
    hide EncodedAs, Kept;
    if j == |h| {
      assert h[..j] == h;
    } else {
      assert h[..|h| - 1][..j] == h[..j];
      WrittenGrows(setup, h[..|h| - 1], j);
    }
  }

  /** Sequence numbers on a channel are 1, 2, 3 and so on, in file order. */
  lemma SequencesCountUp(setup: Setup, h: seq<Captured>, k: nat)
    requires k < |Written(setup, h)|
    ensures var file := Written(setup, h);
            file[k].sequence == CountOn(file[..k], file[k].channel.topic) + 1
  {
    hide EncodedAs, Kept, Written;
    var j := WrittenCameFrom(setup, h, k);
  }

  lemma {:induction false} TypeIsSettled(setup: Setup, h: seq<Captured>, j: nat, stream: string)
    requires j <= |h| && TypeOfStream(setup, h[..j], stream).Some?
    ensures TypeOfStream(setup, h, stream) == TypeOfStream(setup, h[..j], stream)
    decreases |h|
  {
    hide EncodedAs;
    if j == |h| {
      assert h[..j] == h;
    } else {
      assert h[..|h| - 1][..j] == h[..j];
      TypeIsSettled(setup, h[..|h| - 1], j, stream);
    }
  }

  /** Every message in the file sits on the channel of its stream, of the stream's type and codec. */
  lemma OneChannelPerStream(setup: Setup, h: seq<Captured>, k: nat)
    requires k < |Written(setup, h)|
    ensures var stream := Written(setup, h)[k].channel.topic;
            TypeOfStream(setup, h, stream).Some? &&
            var recorded := TypeOfStream(setup, h, stream).value;
            Written(setup, h)[k].channel == ChannelFor(setup.CodecOf(stream).Resolve(recorded), stream, recorded)
  {
    hide EncodedAs, Kept, Written, TypeOfStream, CountOn, SchemaFor, PayloadModule, Codec.Id, Codec.Resolve,
      Setup.CodecOf;
    var j := WrittenCameFrom(setup, h, k);
    StreamKeepsItsType(setup, h[..j], h[j]);
    TypeFixesCodec(setup, h[j]);
    assert h[..j + 1] == h[..j] + [h[j]];
    TypeIsSettled(setup, h, j + 1, h[j].stream);
  }

  /**
    A message in the file whose lengths fit and whose type does not end in a dot reopens as the
    stream, type and storage it was recorded as, and is replayed as what was captured: to the
    byte, or through CDR retyped and without `seq`.
   */
  lemma EveryWrittenMessageReopens(setup: Setup, h: seq<Captured>, k: nat) returns (j: nat)
    requires setup.f.Lawful() && k < |Written(setup, h)|
    ensures j < |h| && setup.Stored(h[j]).Ok? && |Written(setup, h[..j])| == k
    ensures Storable(setup.Resolved(h[j]), setup.f, h[j].msgName, h[j].payload) && !EndsWith(h[j].msgName, ".") ==>
            var (stream, msgName, storage) := Reopened(Written(setup, h)[k].channel);
            && stream == h[j].stream
            && msgName == setup.Stored(h[j]).value.msgName
            && forall back :: ReadsAs(setup.f, storage, msgName, Written(setup, h)[k].data, back)
                         <==> back == ReplayedAs(setup.Resolved(h[j]), setup.f, h[j].msgName, h[j].payload)
  {
    hide Written, Kept, TypeOfStream, Reopened, ReadsAs, Storable, ReplayedAs, EndsWith, ChannelFor, EncodedAs, CountOn;
    j := WrittenCameFrom(setup, h, k);
    StreamKeepsItsType(setup, h[..j], h[j]);
    var codec, c := setup.CodecOf(h[j].stream), h[j];
    ReopensAsRecordedIff(codec, setup.f, c.stream, c.msgName, c.payload);
    OnlyCdrRetypes(setup.Resolved(c), setup.f, c.msgName, c.payload);
    if Storable(setup.Resolved(c), setup.f, c.msgName, c.payload) {
      StoredReadsBackOnly(setup.Resolved(c), setup.f, c.msgName, c.payload);
    }
  }

  /** Only CDR ever changes the type. */
  lemma OnlyCdrRetypes(codec: Codec, f: Formats, msgName: string, wire: seq<byte>)
    requires EncodedAs(codec, f, msgName, wire).Ok?
    ensures codec == AsCdr || EncodedAs(codec, f, msgName, wire).value.msgName == msgName
  {
  }

  lemma StoredReadsBackOnly(codec: Codec, f: Formats, msgName: string, wire: seq<byte>)
    requires f.Lawful() && Storable(codec, f, msgName, wire) && EncodedAs(codec, f, msgName, wire).Ok?
    ensures var e := EncodedAs(codec, f, msgName, wire).value;
            forall back :: ReadsAs(f, StorageOf(codec), e.msgName, e.data, back)
                      <==> back == ReplayedAs(codec, f, msgName, wire)
  {
    hide EncodedAs, ReadsAs, ReplayedAs, Storable;
    var e := EncodedAs(codec, f, msgName, wire).value;
    forall back
      ensures ReadsAs(f, StorageOf(codec), e.msgName, e.data, back) <==> back == ReplayedAs(codec, f, msgName, wire)
    {
      StoredReadsBack(codec, f, msgName, wire, back);
    }
  }

  // ------------------------------------------------------------ the unrenderable count

  /** How many unrenderable messages of a stream are in the file. */
  ghost function DefectiveWritten(setup: Setup, taken: seq<Captured>, stream: string): nat {
    if taken == [] then 0
    else
      var front, last := taken[..|taken| - 1], taken[|taken| - 1];
      DefectiveWritten(setup, front, stream)
      + if last.stream == stream && Defective(setup, last) && Kept(setup, front, last) then 1 else 0
  }

  /**
    The count of unrenderable messages is the number of them in the file exactly when none of
    them was turned away for changing the type of its stream.
   */
  lemma {:induction false} UnrenderableIsExactIff(setup: Setup, h: seq<Captured>, stream: string)
    ensures DefectiveWritten(setup, h, stream) <= DefectiveOn(setup, h, stream)
    ensures DefectiveWritten(setup, h, stream) == DefectiveOn(setup, h, stream)
       <==> forall j :: 0 <= j < |h| && h[j].stream == stream && Defective(setup, h[j]) ==> Kept(setup, h[..j], h[j])
    decreases |h|
  {
    hide Defective, Kept;
    if h != [] {
      var front, last := h[..|h| - 1], h[|h| - 1];
      UnrenderableIsExactIff(setup, front, stream);
      assert forall j :: 0 <= j < |front| ==> front[j] == h[j] && front[..j] == h[..j];
      assert h[..|h| - 1] == front;
    }
  }

  lemma SecondIsTurnedAway(setup: Setup, a: Captured, b: Captured)
    requires setup.Stored(a).Ok? && setup.Stored(b).Ok? && a.stream == b.stream
    requires !Defective(setup, a) && Defective(setup, b)
    requires setup.Stored(a).value.msgName != setup.Stored(b).value.msgName
    ensures DefectiveOn(setup, [a, b], a.stream) == 1 && DefectiveWritten(setup, [a, b], a.stream) == 0
    ensures |Written(setup, [a, b])| == 1
  {
    hide EncodedAs, FiledAs;
    assert [] + [a] == [a] && [a] + [b] == [a, b];
    assert [a, b][..1] == [a] && [a][..0] == [];
    assert Kept(setup, [], a);
    StreamKeepsItsType(setup, [], a);
    WritesOne(setup, [], a);
    assert !Kept(setup, [a], b);
    LosesOne(setup, [a], b);
    OneMoreDefect(setup, [], a);
    OneMoreDefect(setup, [a], b);
    assert DefectiveWritten(setup, [a], a.stream) == 0;
  }

  /** An Image of `data` that says it is a jpeg and has no raw size. */
  function JpegFrame(header: Header, data: seq<byte>): Msg {
    MImage(Image(header, 1, 1, JPEG, 0, 0, data))
  }

  function CapturedImage(setup: Setup, stream: string, m: Msg): Captured {
    Captured(stream, TypeName(SensorImage), setup.f.lcm.encode(m), 0, 0)
  }

  lemma ImageIsStored(setup: Setup, stream: string, m: Msg)
    requires setup.f.Lawful() && setup.CodecOf(stream) == AsCdr && m.MImage?
    ensures setup.Stored(CapturedImage(setup, stream, m)) == Ok(Encoding(m))
  {
    hide Payload, Retyped, ContainerFormat, TypeName;
    NameRoundTrip(SensorImage);
    assert setup.f.lcm.decode(TypeOf(m), setup.f.lcm.encode(m)) == Some(m);
  }

  /**
    A stream of jpegs in which one frame is damaged: the damaged frame is counted as
    unrenderable and is not in the file.
   */
  lemma UnrenderableCountsUnwritten(setup: Setup, stream: string, header: Header)
    requires setup.f.Lawful() && setup.CodecOf(stream) == AsCdr
    ensures var intact, damaged := JpegFrame(header, JPEG_MAGIC), JpegFrame(header, [0x00]);
            var taken := [CapturedImage(setup, stream, intact), CapturedImage(setup, stream, damaged)];
            DefectiveOn(setup, taken, stream) == 1 && DefectiveWritten(setup, taken, stream) == 0
            && |Written(setup, taken)| == 1
  {
    hide Encoding, EncodedAs, DefectiveOn, DefectiveWritten, Written, TypeName;
    var intact, damaged := JpegFrame(header, JPEG_MAGIC), JpegFrame(header, [0x00]);
    ImageIsStored(setup, stream, intact);
    ImageIsStored(setup, stream, damaged);
    FramesAreStoredApart(header);
    SecondIsTurnedAway(setup, CapturedImage(setup, stream, intact), CapturedImage(setup, stream, damaged));
  }

  lemma FramesAreStoredApart(header: Header)
    ensures var intact, damaged := Encoding(JpegFrame(header, JPEG_MAGIC)), Encoding(JpegFrame(header, [0x00]));
            intact.msgName != damaged.msgName && !intact.defect && damaged.defect
  {
    hide Payload, TypeName;
    NameRoundTrip(SensorImage);
    NameRoundTrip(SensorCompressedImage);
    assert ContainerFormat(JpegFrame(header, JPEG_MAGIC).image) == Format(JPEG);
    assert ContainerFormat(JpegFrame(header, [0x00]).image) == Unrecognised;
  }

  // ------------------------------------------------------------ the subscriber

  /** Which messages are taken off the transport, and as what. */
  method Hear(lcm: LcmCodec, ours: SelfPublished, clock: Clock, wants: string -> bool, prefix: string,
              separator: char, channel: string, payload: seq<byte>)
    returns (captured: Option<Captured>)
    requires clock.Valid() && ours.Valid(clock.Latest())
    modifies ours`seen, ours`order, ours`history, clock
    ensures clock.Valid() && ours.Valid(clock.Latest()) && clock.Latest() >= old(clock.Latest())
    ensures ours.history == old(ours.history)
              + if wants(SplitChannel(channel, prefix, separator).0)
                then [Delivered(clock.Latest(), KeyWhenDelivered(lcm, prefix, channel, separator, payload))] else []
    ensures captured.None? <==>
              || !wants(SplitChannel(channel, prefix, separator).0)
              || Dropped(ours.history, |ours.history| - 1)
    ensures captured.Some? ==>
              var c, stamp := captured.value, StampOf(lcm, SupportFor(SplitChannel(channel, prefix, separator).1),
                  payload);
              && (c.stream, c.msgName) == SplitChannel(channel, prefix, separator)
              && c.payload == payload
              && SecondsToNanos(old(clock.Latest())) <= c.logNs <= SecondsToNanos(clock.Latest())
              && c.publishNs == if stamp.Some? then stamp.value else c.logNs
  {
    hide SplitChannel, StampOf, SupportFor, Claimed, SelfPublished.Valid;
    ghost var before := clock.Latest();
    var now := clock.Now();
    ours.StillValid(before, now);
    var logNs := SecondsToNanos(now);
    var (stream, msgName) := SplitChannel(channel, prefix, separator);
    SecondsToNanosIsMonotone(before, now);
    if !wants(stream) {
      return None;
    }
    var stamp := StampOf(lcm, SupportFor(msgName), payload);
    var ownKey := (channel, if stamp.Some? then stamp.value else 0);
    var claimed := ours.Claims(clock, ownKey);
    if claimed {
      return None;
    }
    SecondsToNanosIsMonotone(now, clock.Latest());
    return Some(Captured(stream, msgName, payload, logNs, if stamp.Some? then stamp.value else logNs));
  }

  /** A message as the transport hands it over. */
  datatype Delivery = Delivery(channel: string, payload: seq<byte>)

  /** What a delivery is captured as: its own stamp, or the time it was logged when it shows none. */
  ghost predicate CapturedFrom(lcm: LcmCodec, prefix: string, separator: char, d: Delivery, c: Captured) {
    && (c.stream, c.msgName) == SplitChannel(d.channel, prefix, separator)
    && c.payload == d.payload && c.logNs >= 0
    && var stamp := StampOf(lcm, SupportFor(c.msgName), d.payload);
       c.publishNs == if stamp.Some? then stamp.value else c.logNs
  }

  /** For the twelve types: the time the bytes show where the definition puts the stamp. */
  lemma CapturedAtTimeShown(lcm: LcmCodec, prefix: string, separator: char, t: MsgType, d: Delivery, c: Captured)
    requires CapturedFrom(lcm, prefix, separator, d, c) && c.msgName == TypeName(t)
    ensures var shown := Layouts.TimeShown(lcm, t, d.payload);
            c.publishNs == if shown.Some? then shown.value else c.logNs
  {
    hide SplitChannel, StampOf, SupportFor, TypeName, Layouts.TimeShown;
    Layouts.StampIsShown(lcm, t, d.payload);
  }

  /** These messages were captured from these deliveries, each once, in the order they came. */
  ghost predicate AllCapturedFrom(lcm: LcmCodec, prefix: string, separator: char, deliveries: seq<Delivery>,
                                  captured: seq<Captured>, at: seq<nat>)
  {
    && |at| == |captured|
    && (forall i :: 0 <= i < |at| ==>
          at[i] < |deliveries| && CapturedFrom(lcm, prefix, separator, deliveries[at[i]], captured[i]))
    && forall i, j :: 0 <= i < j < |at| ==> at[i] < at[j]
  }

  /** The subscriber, over every delivery. */
  method HearAll(lcm: LcmCodec, ours: SelfPublished, clock: Clock, wants: string -> bool, prefix: string,
                 separator: char, deliveries: seq<Delivery>)
      returns (captured: seq<Captured>, ghost at: seq<nat>)
    requires clock.Valid() && ours.Valid(clock.Latest())
    modifies ours, clock
    ensures clock.Valid() && ours.Valid(clock.Latest())
    ensures AllCapturedFrom(lcm, prefix, separator, deliveries, captured, at)
  {
    hide SplitChannel, StampOf, SupportFor, SelfPublished.Valid, Dropped, KeyWhenDelivered, CapturedFrom,
      SecondsToNanos;
    captured, at := [], [];
    for n := 0 to |deliveries|
      invariant clock.Valid() && ours.Valid(clock.Latest())
      invariant AllCapturedFrom(lcm, prefix, separator, deliveries, captured, at)
      invariant forall i :: 0 <= i < |at| ==> at[i] < n
    {
      var d := deliveries[n];
      ghost var since := clock.Latest();
      var c := Hear(lcm, ours, clock, wants, prefix, separator, d.channel, d.payload);
      if c.Some? {
        HeardIsCaptured(lcm, prefix, separator, d, c.value, since, clock.Latest());
        captured, at := captured + [c.value], at + [n];
      }
    }
  }

  lemma HeardIsCaptured(lcm: LcmCodec, prefix: string, separator: char, d: Delivery, c: Captured, since: real,
      now: real)
    requires (c.stream, c.msgName) == SplitChannel(d.channel, prefix, separator) && c.payload == d.payload
    requires SecondsToNanos(since) <= c.logNs <= SecondsToNanos(now)
    requires var stamp := StampOf(lcm, SupportFor(SplitChannel(d.channel, prefix, separator).1), d.payload);
             c.publishNs == if stamp.Some? then stamp.value else c.logNs
    ensures CapturedFrom(lcm, prefix, separator, d, c)
  {
    hide SplitChannel, StampOf, SupportFor;
  }

  /**
    A row of the file is this delivery: under its stream, published when its payload says, or else when it
    was logged.
   */
  ghost predicate Recorded(setup: Setup, prefix: string, separator: char, d: Delivery, row: Row, channel: Channel) {
    var (stream, msgName) := SplitChannel(d.channel, prefix, separator);
    var stamp := StampOf(setup.f.lcm, SupportFor(msgName), d.payload);
    && channel.topic == stream
    && row.publishTime == (if stamp.None? then row.logTime else if stamp.value < 0 then 0 else stamp.value)
  }

  /** From the transport to the file: every row is a delivery of its own, in order, with that delivery's own time. */
  method Record(setup: Setup, ours: SelfPublished, clock: Clock, wants: string -> bool, prefix: string,
                separator: char, deliveries: seq<Delivery>)
      returns (capture: Capture, ghost from: seq<nat>)
    requires setup.f.Lawful() && clock.Valid() && ours.Valid(clock.Latest())
    modifies ours, clock
    ensures fresh(capture) && capture.Valid() && capture.setup == setup
    ensures |from| == |capture.rows|
    ensures forall k :: 0 <= k < |from| ==>
              && from[k] < |deliveries| && capture.rows[k].channel < |capture.announced|
              && Recorded(setup, prefix, separator, deliveries[from[k]], capture.rows[k],
                          capture.announced[capture.rows[k].channel])
    ensures forall i, k :: 0 <= i < k < |from| ==> from[i] < from[k]
  {
    hide SplitChannel, StampOf, SupportFor, SelfPublished.Valid, CapturedFrom, Recorded, Holds, Capture.Valid,
      EncodedAs;
    var captured, at := HearAll(setup.f.lcm, ours, clock, wants, prefix, separator, deliveries);
    capture := RecordAll(setup, captured);
    ghost var rows := RowsCameFrom(capture);
    from := seq(|rows|, k requires 0 <= k < |rows| => at[rows[k]]);
    forall k | 0 <= k < |from|
      ensures Recorded(setup, prefix, separator, deliveries[from[k]], capture.rows[k],
                       capture.announced[capture.rows[k].channel])
    {
      RowIsRecorded(setup, prefix, separator, deliveries[from[k]], captured[rows[k]], capture.rows[k],
                    capture.announced[capture.rows[k].channel]);
    }
  }

  lemma RowIsRecorded(setup: Setup, prefix: string, separator: char, d: Delivery, c: Captured, row: Row,
      channel: Channel)
    requires CapturedFrom(setup.f.lcm, prefix, separator, d, c) && Holds(setup, row, channel, c)
    ensures Recorded(setup, prefix, separator, d, row, channel)
  {
    hide SplitChannel, StampOf, SupportFor, EncodedAs;
  }
}
