/**
  How a recorded stream is stored, and what the reader makes of it afterwards
  (src/record.rs, src/source.rs). A recording has to reopen as what was recorded.
 */
module Codecs {
  import opened Prelude
  import opened Wire
  import opened Messages
  import opened TypeNames
  import opened Cdr
  import opened CdrLaws
  import opened Naming

  /** How the payload bytes of one stream are stored. */
  datatype Codec = AsCdr | AsLcm | AsLz4Lcm {
    function Id(): string {
      match this
      case AsCdr => "cdr"
      case AsLcm => "lcm"
      case AsLz4Lcm => "lz4+lcm"
    }

    /** CDR falls back to raw LCM for a type that has no transcoder. */
    function Resolve(msgName: string): Codec {
      if AsCdr? && TypeNamed(msgName).None? then AsLcm else this
    }
  }

  /** The LZ4 frame format, which is not part of this model: `unpack` inverts `pack`. */
  datatype Compressor = Compressor(pack: seq<byte> -> seq<byte>, unpack: seq<byte> -> Option<seq<byte>>) {
    ghost predicate Lawful() { forall data: seq<byte> :: unpack(pack(data)) == Some(data) }
  }

  /** The outside encoders a recording depends on. */
  datatype Formats = Formats(lcm: LcmCodec, lz4: Compressor) {
    ghost predicate Lawful() { lcm.Lawful() && lz4.Lawful() }
  }

  /** The message a transcodable payload holds. */
  function Carried(f: Formats, msgName: string, wire: seq<byte>): Option<Msg> {
    if TypeNamed(msgName).None? then None else f.lcm.decode(TypeNamed(msgName).value, wire)
  }

  /** What a payload is stored as: the recorded type, the stored bytes, and whether they are unrenderable. */
  ghost function EncodedAs(codec: Codec, f: Formats, msgName: string, wire: seq<byte>): Result<Encoded> {
    match codec
    case AsCdr =>
      if Carried(f, msgName, wire).None? then Err else Ok(Encoding(Carried(f, msgName, wire).value))
    case AsLcm => Ok(Encoded(msgName, wire, false))
    case AsLz4Lcm => Ok(Encoded(msgName, f.lz4.pack(wire), false))
  }

  method Encode(codec: Codec, f: Formats, msgName: string, wire: seq<byte>) returns (r: Result<Encoded>)
    requires f.Lawful()
    ensures r == EncodedAs(codec, f, msgName, wire)
  {
    match codec {
      case AsCdr => r := ToCdr(f.lcm, msgName, wire);
      case AsLcm => r := Ok(Encoded(msgName, wire, false));
      case AsLz4Lcm => r := Ok(Encoded(msgName, f.lz4.pack(wire), false));
    }
  }

  // ------------------------------------------------------------ the channel in the file

  /** An mcap channel, as far as either side looks at it. */
  datatype Channel = Channel(topic: string, schema: Option<string>, encoding: string,
                             streamName: string, payloadType: Option<string>)

  function SchemaFor(codec: Codec, msgName: string): Option<string> {
    if codec != AsCdr || TypeNamed(msgName).None? then None else Some(SchemaName(TypeNamed(msgName).value))
  }

  function ChannelFor(codec: Codec, stream: string, recorded: string): Channel {
    Channel(stream, SchemaFor(codec, recorded), codec.Id(), stream, PayloadModule(recorded))
  }

  // ------------------------------------------------------------ reading it back

  datatype Storage = StoredWire | StoredLz4 | StoredCdr | Unsupported

  function StorageFor(codecId: string): Storage {
    if codecId == "lcm" || codecId == "jpeg" then StoredWire
    else if codecId == "lz4+lcm" || codecId == "lz4+jpeg" then StoredLz4
    else Unsupported
  }

  function ChannelKind(encoding: string, payloadType: string, schema: string): (string, Storage) {
    if encoding == "cdr" then
      var msgName := MsgNameFromSchema(schema);
      (msgName, if TypeNamed(msgName).Some? then StoredCdr else Unsupported)
    else (MsgNameFromPayloadModule(payloadType), StorageFor(encoding))
  }

  /** Absent metadata and an absent schema read as the empty string. */
  function OrEmpty(s: Option<string>): string {
    match s case Some(text) => text case None => ""
  }

  /** The stream, type and storage a reader opens a channel as. */
  function Reopened(channel: Channel): (string, string, Storage) {
    var kind := ChannelKind(channel.encoding, OrEmpty(channel.payloadType), OrEmpty(channel.schema));
    (channel.streamName, kind.0, kind.1)
  }

  function StorageOf(codec: Codec): Storage {
    match codec
    case AsCdr => StoredCdr
    case AsLcm => StoredWire
    case AsLz4Lcm => StoredLz4
  }

  lemma StorageForIds()
    ensures StorageFor("lcm") == StoredWire && StorageFor("lz4+lcm") == StoredLz4
  {
    assert |"lcm"| == 3 && |"jpeg"| == 4 && |"lz4+lcm"| == 7;
  }

  /**
    A stored stream reopens as the same stream, type and storage; outside CDR it does so
    exactly when its type is unknown or ends in a class name.
   */
  lemma ReopensAsRecordedIff(codec: Codec, f: Formats, stream: string, msgName: string, wire: seq<byte>)
    requires EncodedAs(codec.Resolve(msgName), f, msgName, wire).Ok?
    ensures var resolved := codec.Resolve(msgName);
            var recorded := EncodedAs(resolved, f, msgName, wire).value.msgName;
            Reopened(ChannelFor(resolved, stream, recorded)) == (stream, recorded, StorageOf(resolved))
            <==> resolved == AsCdr || recorded == "" || !EndsWith(recorded, ".")
  {
    hide MsgNameFromSchema, MsgNameFromPayloadModule, SchemaName, TypeName, TypeNamed, PayloadModule, EndsWith,
      Payload, Retyped, ContainerFormat, StorageFor;
    var resolved := codec.Resolve(msgName);
    var recorded := EncodedAs(resolved, f, msgName, wire).value.msgName;
    if resolved == AsCdr {
      var t := TypeOf(Retyped(Carried(f, msgName, wire).value));
      NameRoundTrip(t);
      SchemaNamesType(t);
    } else {
      TypeSurvivesMetadataIff(recorded);
      StorageForIds();
    }
  }

  // ------------------------------------------------------------ the payload on the way back

  /** `wire` is what a stored payload is replayed as. */
  ghost predicate ReadsAs(f: Formats, storage: Storage, msgName: string, data: seq<byte>, wire: seq<byte>) {
    match storage
    case StoredWire => wire == data
    case StoredLz4 => f.lz4.unpack(data) == Some(wire)
    case StoredCdr =>
      TypeNamed(msgName).Some? && exists m :: Decodes(TypeNamed(msgName).value, data, m) && wire == f.lcm.encode(m)
    case Unsupported => false
  }

  method ToWire(f: Formats, storage: Storage, msgName: string, data: seq<byte>) returns (r: Result<seq<byte>>)
    ensures r.Ok? ==> ReadsAs(f, storage, msgName, data, r.value)
    ensures r.Err? ==> forall wire :: !ReadsAs(f, storage, msgName, data, wire)
  {
    hide Decodes;
    match storage {
      case StoredWire => r := Ok(data);
      case StoredLz4 =>
        var unpacked := f.lz4.unpack(data);
        r := if unpacked.Some? then Ok(unpacked.value) else Err;
      case StoredCdr =>
        ghost var m;
        r, m := ToLcm(f.lcm, msgName, data);
        if r.Err? { NothingDecodes(f, msgName, data); }
      case Unsupported => r := Err;
    }
  }

  lemma NothingDecodes(f: Formats, msgName: string, data: seq<byte>)
    requires TypeNamed(msgName).None? || ParsePayload(TypeNamed(msgName).value, data).None?
    ensures forall wire :: !ReadsAs(f, StoredCdr, msgName, data, wire)
  {
    hide TypeNamed, ParsePayload, MsgVal, WithoutSeq;
  }

  /**
    What a channel of any encoding is replayed as: plain payloads, jpegs included, as they are,
    compressed ones unpacked, CDR as the message of the type its schema names if that is one of
    the twelve, and anything else not at all.
   */
  lemma ChannelsReadAs(f: Formats, encoding: string, payloadType: string, schema: string, data: seq<byte>,
                       wire: seq<byte>)
    ensures var (msgName, storage) := ChannelKind(encoding, payloadType, schema);
            ReadsAs(f, storage, msgName, data, wire) <==>
              if encoding == "lcm" || encoding == "jpeg" then wire == data
              else if encoding == "lz4+lcm" || encoding == "lz4+jpeg" then f.lz4.unpack(data) == Some(wire)
              else
                && encoding == "cdr"
                && exists t, m :: TypeName(t) == MsgNameFromSchema(schema) && Decodes(t, data, m)
                                && wire == f.lcm.encode(m)
  {
    hide MsgNameFromSchema, MsgNameFromPayloadModule, TypeName, TypeNamed, Decodes;
    assert |"lcm"| == 3 && |"cdr"| == 3 && |"jpeg"| == 4 && |"lz4+lcm"| == 7 && |"lz4+jpeg"| == 8;
    assert "lcm"[0] == 'l' && "cdr"[0] == 'c';
    var msgName := MsgNameFromSchema(schema);
    forall t | TypeName(t) == msgName
      ensures TypeNamed(msgName) == Some(t)
    {
      NameRoundTrip(t);
    }
  }

  /** What a captured payload is replayed as: itself, or, through CDR, retyped and without its `seq`. */
  ghost function ReplayedAs(codec: Codec, f: Formats, msgName: string, wire: seq<byte>): seq<byte> {
    if codec == AsCdr && Carried(f, msgName, wire).Some?
    then f.lcm.encode(WithoutSeq(Retyped(Carried(f, msgName, wire).value)))
    else wire
  }

  /** Every length in what CDR has to carry fits the u32 that announces it. */
  ghost predicate Storable(codec: Codec, f: Formats, msgName: string, wire: seq<byte>) {
    codec == AsCdr && Carried(f, msgName, wire).Some? ==> FitsU32(Carried(f, msgName, wire).value)
  }

  /** A stored payload is read back as exactly one thing: what was captured. */
  lemma StoredReadsBack(codec: Codec, f: Formats, msgName: string, wire: seq<byte>, back: seq<byte>)
    requires f.Lawful() && Storable(codec, f, msgName, wire)
    requires EncodedAs(codec, f, msgName, wire).Ok?
    ensures var e := EncodedAs(codec, f, msgName, wire).value;
            ReadsAs(f, StorageOf(codec), e.msgName, e.data, back) <==> back == ReplayedAs(codec, f, msgName, wire)
  {
    hide FitsU32, Decodes, Payload, ContainerFormat, Retyped, WithoutSeq, TypeName, TypeNamed;
    if codec == AsCdr {
      var m := Retyped(Carried(f, msgName, wire).value);
      RetypedStillFits(Carried(f, msgName, wire).value);
      PayloadReadsBack(m);
      NameRoundTrip(TypeOf(m));
      if ReadsAs(f, StoredCdr, TypeName(TypeOf(m)), Payload(m), back) {
        var other :| Decodes(TypeOf(m), Payload(m), other) && back == f.lcm.encode(other);
        DecodesToOne(TypeOf(m), Payload(m), other, WithoutSeq(m));
      }
    }
  }

  /**
    Recording what a recording replays gives that recording again: same type, same bytes.
   */
  lemma RecordingAReplayChangesNothing(codec: Codec, f: Formats, msgName: string, wire: seq<byte>)
    requires f.Lawful() && Storable(codec, f, msgName, wire)
    requires EncodedAs(codec, f, msgName, wire).Ok?
    ensures var e := EncodedAs(codec, f, msgName, wire).value;
            EncodedAs(codec, f, e.msgName, ReplayedAs(codec, f, msgName, wire)) == Ok(e)
  {
    hide FitsU32, Decodes, Payload, ContainerFormat, TypeName, TypeNamed, WithoutSeq;
    if codec == AsCdr {
      var m := Carried(f, msgName, wire).value;
      NameRoundTrip(TypeOf(Retyped(m)));
      PayloadIgnoresSeq(Retyped(m));
      RetypedOnce(m);
    }
  }

  lemma PayloadIgnoresSeq(m: Msg)
    ensures TypeOf(WithoutSeq(m)) == TypeOf(m) && Payload(WithoutSeq(m)) == Payload(m)
  {
    hide MsgVal, Schema, Put;
    SeqIsNotPrinted(m);
  }

  /** Once retyped and stripped of its `seq`, a message is transcoded as it is, defect and all. */
  lemma RetypedOnce(m: Msg)
    ensures var again := WithoutSeq(Retyped(m));
            Retyped(again) == again && Encoding(again).defect == Encoding(m).defect
  {
    hide Payload, TypeName, WithoutSeq;
    ContainerIgnoresSeq(Retyped(m));
  }

  lemma ContainerIgnoresSeq(m: Msg)
    ensures WithoutSeq(m).MImage? == m.MImage?
    ensures m.MImage? ==> ContainerFormat(WithoutSeq(m).image) == ContainerFormat(m.image)
  {
    hide ContainerFormat, Each;
    if m.MImage? { SameContainer(m.image, NoSeq(m.image.header)); }
  }

  lemma SameContainer(image: Image, header: Header)
    ensures ContainerFormat(image.(header := header)) == ContainerFormat(image)
  {
  }
}
