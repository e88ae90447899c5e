/** What a payload becomes on its way through LCM and back. */
module CdrLaws {
  import opened Prelude
  import opened Wire
  import opened WireLaws
  import opened Messages
  import opened TypeNames
  import opened Cdr

  /** Every length in the message fits the u32 that announces it. */
  ghost predicate FitsU32(m: Msg) { Fits(Schema(TypeOf(m)), MsgVal(m)) }

  /** A payload holds at most one message. */
  lemma DecodesToOne(t: MsgType, payload: seq<byte>, a: Msg, b: Msg)
    requires Decodes(t, payload, a) && Decodes(t, payload, b)
    ensures a == b
  {
    hide Schema, MsgVal, WithoutSeq, Parse;
    ValueDetermines(a, b);
  }

  /** A message printed in either byte order, under any encapsulation header that declares it. */
  ghost function PayloadIn(header: seq<byte>, m: Msg): (payload: seq<byte>)
    requires |header| == 4
  {
    header + Put(LittleFlag(header), Schema(TypeOf(m)), MsgVal(m), [])
  }

  /**
    Every message of every type, printed in either byte order and followed by any trailing
    bytes, is read back as itself with `header.seq` cleared. A big-endian payload therefore
    decodes to the very message its little-endian twin decodes to.
   */
  lemma EveryMessageRoundTrips(header: seq<byte>, m: Msg, trailing: seq<byte>)
    requires |header| == 4 && FitsU32(m)
    ensures Decodes(TypeOf(m), PayloadIn(header, m) + trailing, WithoutSeq(m))
    ensures ParsePayload(TypeOf(m), PayloadIn(header, m) + trailing).value.1 == |PayloadIn(header, m)| - 4
  {
    hide Schema, MsgVal, WithoutSeq, Parse, Put, Shaped, Fits;
    var payload := PayloadIn(header, m) + trailing;
    var body := Put(LittleFlag(header), Schema(TypeOf(m)), MsgVal(m), []);
    assert payload[..4] == header;
    assert payload[4..] == body + trailing;
    RoundTrip(LittleFlag(header), Schema(TypeOf(m)), MsgVal(m), [], payload[4..]);
    SeqIsNotPrinted(m);
    SeqIsDroppedOnce(m);
  }

  /** Cutting an encoded message anywhere makes it an error, for every type and byte order. */
  lemma EveryTruncationIsAnError(header: seq<byte>, m: Msg, k: nat)
    requires |header| == 4 && FitsU32(m)
    requires k < |PayloadIn(header, m)|
    ensures ParsePayload(TypeOf(m), PayloadIn(header, m)[..k]) == None
  {
    hide Schema, MsgVal, Parse, Put, Shaped, Fits;
    if k >= 4 {
      var cut := PayloadIn(header, m)[..k];
      assert cut[4..] == Put(LittleFlag(header), Schema(TypeOf(m)), MsgVal(m), [])[..k - 4];
      assert cut[1] == header[1];
      TruncationFails(LittleFlag(header), Schema(TypeOf(m)), MsgVal(m), k - 4);
    }
  }

  // ------------------------------------------------------------ retyped images

  /** An Image is retyped exactly when it claims a codec, is no raw frame and opens with a magic. */
  lemma RetypedExactlyWhen(image: Image)
    ensures Retyped(MImage(image)) != MImage(image)
       <==> && image.encoding in {JPEG, JPG, PNG}
            && 0 <= image.height && 0 <= image.step
            && (image.step == 0 || image.height * image.step != |image.data|)
            && (JPEG_MAGIC <= image.data || PNG_MAGIC <= image.data)
  {
  }

  lemma ImagePartsFit(image: Image)
    requires FitsU32(MImage(image))
    ensures Fits(HeaderTy(), HeaderVal(image.header)) && |image.data| < TWO_TO_32
  {
    hide HeaderVal, HeaderTy, Shaped;
  }

  lemma CompressedPartsFit(image: CompressedImage)
    requires Fits(HeaderTy(), HeaderVal(image.header)) && |image.format| <= 4 && |image.data| < TWO_TO_32
    ensures FitsU32(MCompressedImage(image))
  {
    hide HeaderVal, HeaderTy, Shaped;
  }

  /** What retyping keeps, and the one thing it makes up: the name of the codec. */
  lemma RetypedContent(image: Image)
    requires Retyped(MImage(image)) != MImage(image)
    ensures Retyped(MImage(image)) == MCompressedImage(CompressedImage(
              image.header, if JPEG_MAGIC <= image.data then JPEG else PNG, image.data))
  {
  }

  lemma RetypedStillFits(m: Msg)
    requires FitsU32(m)
    ensures FitsU32(Retyped(m))
    ensures WithoutSeq(m) == m ==> WithoutSeq(Retyped(m)) == Retyped(m)
    ensures Retyped(Retyped(m)) == Retyped(m)
  {
    hide FitsU32;
    if Retyped(m) != m {
      RetypedContent(m.image);
      ImagePartsFit(m.image);
      CompressedPartsFit(Retyped(m).compressedImage);
    }
  }

  /**
    A retyped image, read back under the type it was recorded as, keeps its header stamp,
    its frame and its codec stream exactly, and names the codec its magic bytes announce.
   */
  lemma RetypedImageKeepsItsContent(image: Image, back: Msg)
    requires FitsU32(MImage(image))
    requires Retyped(MImage(image)) != MImage(image)
    requires Decodes(TypeOf(Retyped(MImage(image))), Payload(Retyped(MImage(image))), back)
    ensures back == MCompressedImage(CompressedImage(
              NoSeq(image.header), if JPEG_MAGIC <= image.data then JPEG else PNG, image.data))
  {
    hide FitsU32, Decodes, Payload, ContainerFormat, Retyped;
    var e := Retyped(MImage(image));
    RetypedContent(image);
    RetypedStillFits(MImage(image));
    PayloadReadsBack(e);
    DecodesToOne(TypeOf(e), Payload(e), back, WithoutSeq(e));
  }

  /** An Image of pixels, whatever its first bytes, is recorded as an Image and comes back as it was. */
  lemma PixelsComeBackAsAnImage(image: Image)
    requires FitsU32(MImage(image))
    requires || image.encoding !in {JPEG, JPG, PNG}
             || (image.height >= 0 && image.step > 0 && image.height * image.step == |image.data|)
    ensures Encoding(MImage(image)).msgName == TypeName(SensorImage) && !Encoding(MImage(image)).defect
    ensures Decodes(SensorImage, Encoding(MImage(image)).data, MImage(image.(header := NoSeq(image.header))))
  {
    hide FitsU32, Decodes, Payload, TypeName;
    PayloadReadsBack(MImage(image));
  }

  lemma PayloadReadsBack(m: Msg)
    requires FitsU32(m)
    ensures Decodes(TypeOf(m), Payload(m), WithoutSeq(m))
    ensures ParsePayload(TypeOf(m), Payload(m)).value.1 == |Payload(m)| - 4
  {
    hide Schema, MsgVal, WithoutSeq, Parse, Put, Shaped, Fits;
    var header: seq<byte> := [0, 1, 0, 0];
    assert PayloadIn(header, m) == Payload(m);
    assert Payload(m) + [] == Payload(m);
    EveryMessageRoundTrips(header, m, []);
  }

  // ------------------------------------------------------------ transcoding is a normalisation

  /**
    Transcoding an accepted payload and transcoding the result again, under the type name the
    first trip returned, is the same as transcoding once. It holds on every payload, whatever
    its byte order, padding, flags, text and trailing bytes.
   */
  lemma TranscodingIsIdempotent(t: MsgType, payload: seq<byte>, m: Msg, back: Msg)
    requires Decodes(t, payload, m) && FitsU32(m)
    requires Decodes(TypeOf(Retyped(m)), Encoding(m).data, back)
    ensures back == Retyped(m)
    ensures Encoding(back).msgName == Encoding(m).msgName && Encoding(back).data == Encoding(m).data
  {
    hide Schema, MsgVal, WithoutSeq, Parse, Put, Shaped, Fits, ContainerFormat, TypeName;
    RetypedStillFits(m);
    PayloadReadsBack(Retyped(m));
    DecodesToOne(TypeOf(Retyped(m)), Payload(Retyped(m)), back, WithoutSeq(Retyped(m)));
  }

  /** The second trip is never refused, and a payload under a third of 4 GiB always fits. */
  lemma TranscodedPayloadIsAccepted(t: MsgType, payload: seq<byte>, m: Msg)
    requires Decodes(t, payload, m)
    requires 3 * |payload| < TWO_TO_32
    ensures FitsU32(m)
    ensures Decodes(TypeOf(Retyped(m)), Encoding(m).data, Retyped(m))
  {
    hide Schema, MsgVal, WithoutSeq, Parse, Put, Shaped, Fits, ContainerFormat, TypeName;
    ParsedFits(LittleFlag(payload), Schema(t), payload[4..], 0);
    RetypedStillFits(m);
    PayloadReadsBack(Retyped(m));
  }

  /** The bytes are spelled the one way this program spells a message of type `t`. */
  ghost predicate IsCanonical(t: MsgType, payload: seq<byte>)
    requires ParsePayload(t, payload).Some?
  {
    && payload[..4] == [0, 1, 0, 0]
    && Parse(true, Schema(t), payload[4..], 0).Some?
    && Canonical(Schema(t), payload[4..], 0)
    && ParsePayload(t, payload).value.1 == |payload| - 4
  }

  /** A payload that is not retyped comes back byte for byte exactly when it was canonical. */
  lemma ByteIdenticalIffCanonical(t: MsgType, payload: seq<byte>, m: Msg)
    requires Decodes(t, payload, m) && FitsU32(m) && Retyped(m) == m
    ensures Encoding(m).data == payload <==> IsCanonical(t, payload)
  {
    hide Schema, MsgVal, WithoutSeq, Put, Parse, Shaped, Fits, Canonical, ContainerFormat, TypeName;
    var body := payload[4..];
    var printed := Put(true, Schema(t), MsgVal(m), []);
    assert payload == payload[..4] + body;
    if payload[..4] == [0, 1, 0, 0] {
      assert payload[1] == payload[..4][1] == 1;
      Stable(true, Schema(t), body, body, 0);
      ReprintsIffCanonical(Schema(t), body, 0);
      assert body[..0] == [];
      var end := ParsePayload(t, payload).value.1;
      if printed == body {
        RoundTrip(true, Schema(t), MsgVal(m), [], body);
      }
      if end == |body| { assert body[..end] == body; }
    }
    if Payload(m) == payload {
      assert payload[..4] == [0, 1, 0, 0];
      assert payload[4..] == printed;
    }
  }

  /** A payload in the other byte order is transcoded to the same bytes as its twin. */
  lemma BigEndianTwinNormalisesAlike(big: seq<byte>, little: seq<byte>, m: Msg, fromBig: Msg, fromLittle: Msg)
    requires |big| == |little| == 4 && !LittleFlag(big) && LittleFlag(little) && FitsU32(m)
    requires Decodes(TypeOf(m), PayloadIn(big, m), fromBig)
    requires Decodes(TypeOf(m), PayloadIn(little, m), fromLittle)
    ensures Encoding(fromBig) == Encoding(fromLittle)
  {
    hide Schema, MsgVal, WithoutSeq, Put, Parse, Shaped, Fits, ContainerFormat, TypeName;
    EveryMessageRoundTrips(big, m, []);
    EveryMessageRoundTrips(little, m, []);
    assert PayloadIn(big, m) + [] == PayloadIn(big, m);
    assert PayloadIn(little, m) + [] == PayloadIn(little, m);
    DecodesToOne(TypeOf(m), PayloadIn(big, m), fromBig, WithoutSeq(m));
    DecodesToOne(TypeOf(m), PayloadIn(little, m), fromLittle, WithoutSeq(m));
  }
}
