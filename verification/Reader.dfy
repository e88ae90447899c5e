/**
  The parsing half of src/cdr.rs. Every method returns what the schema of its message says
  the bytes at the current offset hold, leaves the reader just past them, and fails exactly
  when the schema does.
 */
module CdrReader {
  import opened Prelude
  import opened Utf8
  import opened Wire
  import opened Messages

  class Reader {
    const body: seq<byte>
    const littleEndian: bool
    var position: nat

    constructor (payload: seq<byte>)
      requires |payload| >= 4
      ensures body == payload[4..] && position == 0 && littleEndian == (payload[1] % 2 == 1)
    {
      body := payload[4..];
      position := 0;
      littleEndian := payload[1] % 2 == 1;
    }

    method Take(count: nat, alignment: nat) returns (r: Result<seq<byte>>)
      requires alignment > 0
      modifies this
      ensures match Wire.Take(body, old(position), count, alignment)
              case None => r == Err
              case Some((bytes, end)) => r == Ok(bytes) && position == end
    {
      position := position + Padding(position, alignment);
      var end := position + count;
      if end > |body| { return Err; }
      var bytes := body[position..end];
      position := end;
      return Ok(bytes);
    }

    method U8() returns (r: Result<byte>)
      modifies this
      ensures Agrees(Parse(littleEndian, Octet, body, old(position)), Seen(OctetVal, r), position)
    {
      var bytes :- Take(1, 1);
      return Ok(bytes[0]);
    }

    method Bool() returns (r: Result<bool>)
      modifies this
      ensures Agrees(Parse(littleEndian, Flag, body, old(position)), Seen(FlagVal, r), position)
    {
      var b :- U8();
      return Ok(b != 0);
    }

    method U32() returns (r: Result<u32>)
      modifies this
      ensures Agrees(Parse(littleEndian, Word, body, old(position)), Seen(WordVal, r), position)
      ensures match TakeNumber(littleEndian, body, old(position), 4)
              case None => r == Err
              case Some((n, end)) => r == Ok(n) && position == end
    {
      var bytes :- Take(4, 4);
      BytesBound(littleEndian, bytes);
      WordAndDoubleSizes();
      return Ok(if littleEndian then FromLittle(bytes) else FromBig(bytes));
    }

    method I32() returns (r: Result<i32>)
      modifies this
      ensures Agrees(Parse(littleEndian, Word, body, old(position)), Seen(IntVal, r), position)
    {
      var n :- U32();
      return Ok(AsSigned(n));
    }

    method F32() returns (r: Result<f32>)
      modifies this
      ensures Agrees(Parse(littleEndian, Word, body, old(position)), Seen(WordVal, r), position)
    {
      r := U32();
    }

    method F64() returns (r: Result<f64>)
      modifies this
      ensures Agrees(Parse(littleEndian, Double, body, old(position)), Seen(DoubleVal, r), position)
    {
      var bytes :- Take(8, 8);
      BytesBound(littleEndian, bytes);
      WordAndDoubleSizes();
      return Ok(if littleEndian then FromLittle(bytes) else FromBig(bytes));
    }

    method String() returns (r: Result<Utf8String>)
      modifies this
      ensures Agrees(Parse(littleEndian, Text, body, old(position)), Seen(TextVal, r), position)
    {
      var length :- U32();
      var bytes :- Take(length, 1);
      return Ok(Lossy(StripNul(bytes)));
    }

    method Count() returns (r: Result<u32>)
      modifies this
      ensures match TakeNumber(littleEndian, body, old(position), 4)
              case None => r == Err
              case Some((n, end)) => r == Ok(n) && position == end
    {
      r := U32();
    }

    method Bytes() returns (r: Result<seq<byte>>)
      modifies this
      ensures Agrees(Parse(littleEndian, Blob, body, old(position)), Seen(BlobVal, r), position)
    {
      var length :- Count();
      r := Take(length, 1);
    }

    method F32Sequence() returns (r: Result<seq<f32>>)
      modifies this
      ensures Agrees(Parse(littleEndian, Sequence(Word), body, old(position)), Seen(WordsVal, r), position)
    {
      hide ParseLeaf, TakeNumber, Shaped, AllShaped, WordVal;
      var length :- Count();
      ghost var start := position;
      var values: seq<f32> := [];
      for i := 0 to length
        invariant Agrees(ParseAll(littleEndian, Word, i, body, start), Some(Vals(WordVal, values)), position)
      {
        var step := F32();
        ParsedOneMore(littleEndian, Word, i, length, body, start);
        if step.Err? { return Err; }
        ValsSnoc(WordVal, values, step.value);
        values := values + [step.value];
      }
      return Ok(values);
    }

    method F64Sequence() returns (r: Result<seq<f64>>)
      modifies this
      ensures Agrees(Parse(littleEndian, Sequence(Double), body, old(position)), Seen(DoublesVal, r), position)
    {
      var length :- Count();
      r := F64Array(length);
    }

    method F64Array(n: nat) returns (r: Result<seq<f64>>)
      modifies this
      ensures Agrees(Parse(littleEndian, Array(n, Double), body, old(position)), Seen(DoublesVal, r), position)
      ensures r.Ok? ==> |r.value| == n
    {
      hide ParseLeaf, TakeNumber, Shaped, AllShaped, DoubleVal;
      var values: seq<f64> := [];
      for i := 0 to n
        invariant |values| == i
        invariant Agrees(ParseAll(littleEndian, Double, i, body, old(position)), Some(Vals(DoubleVal, values)),
            position)
      {
        var step := F64();
        ParsedOneMore(littleEndian, Double, i, n, body, old(position));
        if step.Err? { return Err; }
        ValsSnoc(DoubleVal, values, step.value);
        values := values + [step.value];
      }
      return Ok(values);
    }

    // ---------------------------------------------------------- messages

    method ReadHeader() returns (r: Result<Header>)
      modifies this
      ensures Agrees(Parse(littleEndian, HeaderTy(), body, old(position)), Seen(HeaderVal, r), position)
      ensures r.Ok? ==> r.value.seqNo == 0
    {
      var sec :- I32();
      var nsec :- I32();
      var frameId :- String();
      return Ok(Header(0, Time(sec, nsec), frameId));
    }

    method ReadVector3() returns (r: Result<Vector3>)
      modifies this
      ensures Agrees(Parse(littleEndian, Vector3Ty(), body, old(position)), Seen(Vector3Val, r), position)
    {
      var x :- F64();
      var y :- F64();
      var z :- F64();
      return Ok(Vector3(x, y, z));
    }

    method ReadPoint() returns (r: Result<Point>)
      modifies this
      ensures Agrees(Parse(littleEndian, Vector3Ty(), body, old(position)), Seen(PointVal, r), position)
    {
      var x :- F64();
      var y :- F64();
      var z :- F64();
      return Ok(Point(x, y, z));
    }

    method ReadQuaternion() returns (r: Result<Quaternion>)
      modifies this
      ensures Agrees(Parse(littleEndian, QuaternionTy(), body, old(position)), Seen(QuaternionVal, r), position)
    {
      hide Parse, Shaped, DoubleVal;
      FieldsInTurn(littleEndian, body);
      var x :- F64();
      var y :- F64();
      var z :- F64();
      var w :- F64();
      return Ok(Quaternion(x, y, z, w));
    }

    method ReadPose() returns (r: Result<Pose>)
      modifies this
      ensures Agrees(Parse(littleEndian, PoseTy(), body, old(position)), Seen(PoseVal, r), position)
    {
      var point :- ReadPoint();
      var orientation :- ReadQuaternion();
      return Ok(Pose(point, orientation));
    }

    method ReadTwist() returns (r: Result<Twist>)
      modifies this
      ensures Agrees(Parse(littleEndian, TwistTy(), body, old(position)), Seen(TwistVal, r), position)
    {
      var linear :- ReadVector3();
      var angular :- ReadVector3();
      return Ok(Twist(linear, angular));
    }

    method ReadPoseStamped() returns (r: Result<PoseStamped>)
      modifies this
      ensures Agrees(Parse(littleEndian, PoseStampedTy(), body, old(position)), Seen(PoseStampedVal, r), position)
      ensures r.Ok? ==> r.value.header.seqNo == 0
    {
      hide HeaderTy, HeaderVal, Vector3Ty, Vector3Val, QuaternionTy, QuaternionVal, Parse, TakeNumber, Shaped,
        AllShaped, IntVal, FlagVal, OctetVal, WordVal, DoubleVal, TextVal, BlobVal, DoublesVal, WordsVal, Vals,
        ParseAll, PoseTy, PoseVal;
      FieldsInTurn(littleEndian, body);
      var header :- ReadHeader();
      var pose :- ReadPose();
      return Ok(PoseStamped(header, pose));
    }

    method ReadTransformStamped() returns (r: Result<TransformStamped>)
      modifies this
      ensures Agrees(Parse(littleEndian, TransformStampedTy(), body, old(position)), Seen(TransformStampedVal, r),
          position)
      ensures r.Ok? ==> r.value.header.seqNo == 0
    {
      hide HeaderTy, HeaderVal, Vector3Ty, Vector3Val, QuaternionTy, QuaternionVal, Parse, TakeNumber, Shaped,
        AllShaped, IntVal, FlagVal, OctetVal, WordVal, DoubleVal, TextVal, BlobVal, DoublesVal, WordsVal, Vals,
        ParseAll;
      FieldsInTurn(littleEndian, body);
      var header :- ReadHeader();
      var childFrameId :- String();
      var translation :- ReadVector3();
      var rotation :- ReadQuaternion();
      return Ok(TransformStamped(header, childFrameId, Transform(translation, rotation)));
    }

    method ReadTFMessage() returns (r: Result<TFMessage>)
      modifies this
      ensures Agrees(Parse(littleEndian, TFMessageTy(), body, old(position)), Seen(TFMessageVal, r), position)
      ensures r.Ok? ==> forall t <- r.value.transforms :: t.header.seqNo == 0
    {
      hide HeaderTy, HeaderVal, Vector3Ty, Vector3Val, QuaternionTy, QuaternionVal, Parse, TakeNumber, Shaped,
        AllShaped, IntVal, FlagVal, OctetVal, WordVal, DoubleVal, TextVal, BlobVal, DoublesVal, WordsVal, Vals,
        ParseAll, TransformStampedTy, TransformStampedVal;
      FieldsInTurn(littleEndian, body);
      SequenceInTurn(littleEndian, TransformStampedTy(), body, position);
      var count :- Count();
      ghost var start := position;
      NothingParsed(littleEndian, TransformStampedTy(), body, start);
      var transforms: seq<TransformStamped> := [];
      NoVals(TransformStampedVal);
      for i := 0 to count
        invariant Agrees(ParseAll(littleEndian, TransformStampedTy(), i, body, start),
                         Some(Vals(TransformStampedVal, transforms)), position)
        invariant forall t <- transforms :: t.header.seqNo == 0
      {
        var step := ReadTransformStamped();
        ParsedOneMore(littleEndian, TransformStampedTy(), i, count, body, start);
        if step.Err? { return Err; }
        ValsSnoc(TransformStampedVal, transforms, step.value);
        transforms := transforms + [step.value];
      }
      return Ok(TFMessage(transforms));
    }

    method ReadOdometry() returns (r: Result<Odometry>)
      modifies this
      ensures Agrees(Parse(littleEndian, OdometryTy(), body, old(position)), Seen(OdometryVal, r), position)
      ensures r.Ok? ==> r.value.header.seqNo == 0
    {
      hide HeaderTy, HeaderVal, Vector3Ty, Vector3Val, QuaternionTy, QuaternionVal, Parse, TakeNumber, Shaped,
        AllShaped, IntVal, FlagVal, OctetVal, WordVal, DoubleVal, TextVal, BlobVal, DoublesVal, WordsVal, Vals,
        ParseAll, PoseTy, PoseVal, TwistTy, TwistVal;
      FieldsInTurn(littleEndian, body);
      var header :- ReadHeader();
      var childFrameId :- String();
      var pose :- ReadPose();
      var poseCovariance :- F64Array(36);
      var twist :- ReadTwist();
      var twistCovariance :- F64Array(36);
      return Ok(Odometry(header, childFrameId, pose, poseCovariance, twist, twistCovariance));
    }

    method ReadPath() returns (r: Result<Path>)
      modifies this
      ensures Agrees(Parse(littleEndian, PathTy(), body, old(position)), Seen(PathVal, r), position)
      ensures r.Ok? ==> r.value.header.seqNo == 0 && forall p <- r.value.poses :: p.header.seqNo == 0
    {
      hide HeaderTy, HeaderVal, Vector3Ty, Vector3Val, QuaternionTy, QuaternionVal, Parse, TakeNumber, Shaped,
        AllShaped, IntVal, FlagVal, OctetVal, WordVal, DoubleVal, TextVal, BlobVal, DoublesVal, WordsVal, Vals,
        ParseAll, PoseStampedTy, PoseStampedVal;
      FieldsInTurn(littleEndian, body);
      var header :- ReadHeader();
      SequenceInTurn(littleEndian, PoseStampedTy(), body, position);
      var count :- Count();
      ghost var start := position;
      NothingParsed(littleEndian, PoseStampedTy(), body, start);
      var poses: seq<PoseStamped> := [];
      NoVals(PoseStampedVal);
      for i := 0 to count
        invariant Agrees(ParseAll(littleEndian, PoseStampedTy(), i, body, start),
                         Some(Vals(PoseStampedVal, poses)), position)
        invariant forall t <- poses :: t.header.seqNo == 0
      {
        var step := ReadPoseStamped();
        ParsedOneMore(littleEndian, PoseStampedTy(), i, count, body, start);
        if step.Err? { return Err; }
        ValsSnoc(PoseStampedVal, poses, step.value);
        poses := poses + [step.value];
      }
      return Ok(Path(header, poses));
    }

    method ReadImu() returns (r: Result<Imu>)
      modifies this
      ensures Agrees(Parse(littleEndian, ImuTy(), body, old(position)), Seen(ImuVal, r), position)
      ensures r.Ok? ==> r.value.header.seqNo == 0
    {
      hide HeaderTy, HeaderVal, Vector3Ty, Vector3Val, QuaternionTy, QuaternionVal, Parse, TakeNumber, Shaped,
        AllShaped, IntVal, FlagVal, OctetVal, WordVal, DoubleVal, TextVal, BlobVal, DoublesVal, WordsVal, Vals,
        ParseAll;
      FieldsInTurn(littleEndian, body);
      var header :- ReadHeader();
      var orientation :- ReadQuaternion();
      var orientationCovariance :- F64Array(9);
      var angularVelocity :- ReadVector3();
      var angularVelocityCovariance :- F64Array(9);
      var linearAcceleration :- ReadVector3();
      var linearAccelerationCovariance :- F64Array(9);
      return Ok(Imu(
        header, orientation, orientationCovariance, angularVelocity, angularVelocityCovariance,
        linearAcceleration, linearAccelerationCovariance));
    }

    method ReadImage() returns (r: Result<Image>)
      modifies this
      ensures Agrees(Parse(littleEndian, ImageTy(), body, old(position)), Seen(ImageVal, r), position)
      ensures r.Ok? ==> r.value.header.seqNo == 0
    {
      hide HeaderTy, HeaderVal, Vector3Ty, Vector3Val, QuaternionTy, QuaternionVal, Parse, TakeNumber, Shaped,
        AllShaped, IntVal, FlagVal, OctetVal, WordVal, DoubleVal, TextVal, BlobVal, DoublesVal, WordsVal, Vals,
        ParseAll;
      FieldsInTurn(littleEndian, body);
      var header :- ReadHeader();
      var height :- I32();
      var width :- I32();
      var encoding :- String();
      var isBigendian :- U8();
      var step :- I32();
      var data :- Bytes();
      return Ok(Image(header, height, width, encoding, isBigendian, step, data));
    }

    method ReadCompressedImage() returns (r: Result<CompressedImage>)
      modifies this
      ensures Agrees(Parse(littleEndian, CompressedImageTy(), body, old(position)), Seen(CompressedImageVal, r),
          position)
      ensures r.Ok? ==> r.value.header.seqNo == 0
    {
      hide HeaderTy, HeaderVal, Vector3Ty, Vector3Val, QuaternionTy, QuaternionVal, Parse, TakeNumber, Shaped,
        AllShaped, IntVal, FlagVal, OctetVal, WordVal, DoubleVal, TextVal, BlobVal, DoublesVal, WordsVal, Vals,
        ParseAll;
      FieldsInTurn(littleEndian, body);
      var header :- ReadHeader();
      var format :- String();
      var data :- Bytes();
      return Ok(CompressedImage(header, format, data));
    }

    method ReadRoi() returns (r: Result<RegionOfInterest>)
      modifies this
      ensures Agrees(Parse(littleEndian, RoiTy(), body, old(position)), Seen(RoiVal, r), position)
    {
      hide HeaderTy, HeaderVal, Vector3Ty, Vector3Val, QuaternionTy, QuaternionVal, Parse, TakeNumber, Shaped,
        AllShaped, IntVal, FlagVal, OctetVal, WordVal, DoubleVal, TextVal, BlobVal, DoublesVal, WordsVal, Vals,
        ParseAll;
      FieldsInTurn(littleEndian, body);
      var xOffset :- I32();
      var yOffset :- I32();
      var height :- I32();
      var width :- I32();
      var doRectify :- Bool();
      return Ok(RegionOfInterest(xOffset, yOffset, height, width, doRectify));
    }

    method ReadBinning() returns (r: Result<(i32, i32, RegionOfInterest)>)
      modifies this
      ensures Agrees(Parse(littleEndian, BinningTy(), body, old(position)), Seen(BinningOf, r), position)
    {
      hide HeaderTy, HeaderVal, Vector3Ty, Vector3Val, QuaternionTy, QuaternionVal, Parse, TakeNumber, Shaped,
        AllShaped, IntVal, FlagVal, OctetVal, WordVal, DoubleVal, TextVal, BlobVal, DoublesVal, WordsVal, Vals,
        ParseAll, RoiTy, RoiVal;
      FieldsInTurn(littleEndian, body);
      var x :- I32();
      var y :- I32();
      var roi :- ReadRoi();
      return Ok((x, y, roi));
    }

    method ReadLens() returns (r: Result<(seq<f64>, F64x9, F64x9, F64x12, (i32, i32, RegionOfInterest))>)
      modifies this
      ensures Agrees(Parse(littleEndian, LensTy(), body, old(position)), Seen(LensOf, r), position)
    {
      hide Parse, TakeNumber, Shaped, AllShaped, DoubleVal, DoublesVal, Vals, ParseAll, BinningTy, BinningVal;
      FieldsInTurn(littleEndian, body);
      var d :- F64Sequence();
      var k :- F64Array(9);
      var r9 :- F64Array(9);
      var p :- F64Array(12);
      var tail :- ReadBinning();
      return Ok((d, k, r9, p, tail));
    }

    method ReadCameraInfo() returns (r: Result<CameraInfo>)
      modifies this
      ensures Agrees(Parse(littleEndian, CameraInfoTy(), body, old(position)), Seen(CameraInfoVal, r), position)
      ensures r.Ok? ==> r.value.header.seqNo == 0
    {
      hide HeaderTy, HeaderVal, Parse, TakeNumber, Shaped, AllShaped, IntVal, TextVal, DoublesVal, Vals, ParseAll,
        LensTy, LensVal, BinningVal;
      FieldsInTurn(littleEndian, body);
      var header :- ReadHeader();
      var height :- I32();
      var width :- I32();
      var distortionModel :- String();
      var lens :- ReadLens();
      return Ok(CameraInfo(header, height, width, distortionModel, lens.0, lens.1, lens.2, lens.3,
                           lens.4.0, lens.4.1, lens.4.2));
    }

    method ReadField() returns (r: Result<PointField>)
      modifies this
      ensures Agrees(Parse(littleEndian, FieldTy(), body, old(position)), Seen(FieldVal, r), position)
    {
      hide HeaderTy, HeaderVal, Vector3Ty, Vector3Val, QuaternionTy, QuaternionVal, Parse, TakeNumber, Shaped,
        AllShaped, IntVal, FlagVal, OctetVal, WordVal, DoubleVal, TextVal, BlobVal, DoublesVal, WordsVal, Vals,
        ParseAll;
      FieldsInTurn(littleEndian, body);
      var name :- String();
      var offset :- I32();
      var kind :- U8();
      var count :- I32();
      return Ok(PointField(name, offset, kind, count));
    }

    method ReadCloudTail() returns (r: Result<(bool, i32, i32, seq<byte>, bool)>)
      modifies this
      ensures Agrees(Parse(littleEndian, CloudTailTy(), body, old(position)), Seen(CloudTailOf, r), position)
    {
      hide HeaderTy, HeaderVal, Vector3Ty, Vector3Val, QuaternionTy, QuaternionVal, Parse, TakeNumber, Shaped,
        AllShaped, IntVal, FlagVal, OctetVal, WordVal, DoubleVal, TextVal, BlobVal, DoublesVal, WordsVal, Vals,
        ParseAll;
      FieldsInTurn(littleEndian, body);
      var isBigendian :- Bool();
      var pointStep :- I32();
      var rowStep :- I32();
      var data :- Bytes();
      var isDense :- Bool();
      return Ok((isBigendian, pointStep, rowStep, data, isDense));
    }

    method ReadPointCloud2() returns (r: Result<PointCloud2>)
      modifies this
      ensures Agrees(Parse(littleEndian, PointCloud2Ty(), body, old(position)), Seen(PointCloud2Val, r), position)
      ensures r.Ok? ==> r.value.header.seqNo == 0
    {
      hide HeaderTy, HeaderVal, Vector3Ty, Vector3Val, QuaternionTy, QuaternionVal, Parse, TakeNumber, Shaped,
        AllShaped, IntVal, FlagVal, OctetVal, WordVal, DoubleVal, TextVal, BlobVal, DoublesVal, WordsVal, Vals,
        ParseAll, FieldTy, FieldVal, CloudTailTy, CloudTailVal;
      FieldsInTurn(littleEndian, body);
      var header :- ReadHeader();
      var height :- I32();
      var width :- I32();
      SequenceInTurn(littleEndian, FieldTy(), body, position);
      var fieldCount :- Count();
      ghost var start := position;
      NothingParsed(littleEndian, FieldTy(), body, start);
      var fields: seq<PointField> := [];
      NoVals(FieldVal);
      for i := 0 to fieldCount
        invariant Agrees(ParseAll(littleEndian, FieldTy(), i, body, start), Some(Vals(FieldVal, fields)), position)
      {
        var step := ReadField();
        ParsedOneMore(littleEndian, FieldTy(), i, fieldCount, body, start);
        if step.Err? { return Err; }
        ValsSnoc(FieldVal, fields, step.value);
        fields := fields + [step.value];
      }
      var tail :- ReadCloudTail();
      return Ok(PointCloud2(header, height, width, fields, tail.0, tail.1, tail.2, tail.3, tail.4));
    }

    method ReadJointState() returns (r: Result<JointState>)
      modifies this
      ensures Agrees(Parse(littleEndian, JointStateTy(), body, old(position)), Seen(JointStateVal, r), position)
      ensures r.Ok? ==> r.value.header.seqNo == 0
    {
      hide HeaderTy, HeaderVal, Vector3Ty, Vector3Val, QuaternionTy, QuaternionVal, Parse, TakeNumber, Shaped,
        AllShaped, IntVal, FlagVal, OctetVal, WordVal, DoubleVal, TextVal, BlobVal, DoublesVal, WordsVal, Vals,
        ParseAll;
      FieldsInTurn(littleEndian, body);
      var header :- ReadHeader();
      SequenceInTurn(littleEndian, Text, body, position);
      var nameCount :- Count();
      ghost var start := position;
      NothingParsed(littleEndian, Text, body, start);
      var name: seq<Utf8String> := [];
      NoVals(TextVal);
      for i := 0 to nameCount
        invariant Agrees(ParseAll(littleEndian, Text, i, body, start), Some(Vals(TextVal, name)), position)
      {
        var step := String();
        ParsedOneMore(littleEndian, Text, i, nameCount, body, start);
        if step.Err? { return Err; }
        ValsSnoc(TextVal, name, step.value);
        name := name + [step.value];
      }
      var position' :- F64Sequence();
      var velocity :- F64Sequence();
      var effort :- F64Sequence();
      return Ok(JointState(header, name, position', velocity, effort));
    }

    method ReadScanTail() returns (r: Result<(f32, f32, f32, seq<f32>, seq<f32>)>)
      modifies this
      ensures Agrees(Parse(littleEndian, ScanTailTy(), body, old(position)), Seen(ScanTailOf, r), position)
    {
      hide HeaderTy, HeaderVal, Vector3Ty, Vector3Val, QuaternionTy, QuaternionVal, Parse, TakeNumber, Shaped,
        AllShaped, IntVal, FlagVal, OctetVal, WordVal, DoubleVal, TextVal, BlobVal, DoublesVal, WordsVal, Vals,
        ParseAll;
      FieldsInTurn(littleEndian, body);
      var scanTime :- F32();
      var rangeMin :- F32();
      var rangeMax :- F32();
      var ranges :- F32Sequence();
      var intensities :- F32Sequence();
      return Ok((scanTime, rangeMin, rangeMax, ranges, intensities));
    }

    method ReadLaserScan() returns (r: Result<LaserScan>)
      modifies this
      ensures Agrees(Parse(littleEndian, LaserScanTy(), body, old(position)), Seen(LaserScanVal, r), position)
      ensures r.Ok? ==> r.value.header.seqNo == 0
    {
      hide HeaderTy, HeaderVal, Vector3Ty, Vector3Val, QuaternionTy, QuaternionVal, Parse, TakeNumber, Shaped,
        AllShaped, IntVal, FlagVal, OctetVal, WordVal, DoubleVal, TextVal, BlobVal, DoublesVal, WordsVal, Vals,
        ParseAll, ScanTailTy, ScanTailVal;
      FieldsInTurn(littleEndian, body);
      var header :- ReadHeader();
      var angleMin :- F32();
      var angleMax :- F32();
      var angleIncrement :- F32();
      var timeIncrement :- F32();
      var tail :- ReadScanTail();
      return Ok(LaserScan(
        header, angleMin, angleMax, angleIncrement, timeIncrement, tail.0, tail.1, tail.2, tail.3, tail.4));
    }
  }

  /** What a read returned, and where it stopped, is what the schema says it should be. */
  predicate Agrees<V(==)>(parsed: Option<(V, nat)>, seen: Option<V>, end: nat) {
    match parsed
    case None => seen == None
    case Some((v, e)) => seen == Some(v) && e == end
  }

  /** The schema value of a result, if it is one. */
  function Seen<T, V>(val: T -> V, r: Result<T>): Option<V> {
    if r.Ok? then Some(val(r.value)) else None
  }

  function BinningOf(tail: (i32, i32, RegionOfInterest)): Val { BinningVal(tail.0, tail.1, tail.2) }

  function LensOf(lens: (seq<f64>, F64x9, F64x9, F64x12, (i32, i32, RegionOfInterest))): Val {
    LensVal(lens.0, lens.1, lens.2, lens.3, BinningOf(lens.4))
  }

  function CloudTailOf(tail: (bool, i32, i32, seq<byte>, bool)): Val {
    CloudTailVal(tail.0, tail.1, tail.2, tail.3, tail.4)
  }

  function ScanTailOf(tail: (f32, f32, f32, seq<f32>, seq<f32>)): Val {
    ScanTailVal(tail.0, tail.1, tail.2, tail.3, tail.4)
  }

  /** How consecutive fields parse, and nothing about the types they are made of. */
  lemma FieldsInTurn(little: bool, body: seq<byte>)
    ensures forall t: Ty, u: Ty, pos: nat {:trigger Parse(little, Pair(t, u), body, pos)} ::
              Parse(little, Pair(t, u), body, pos)
              == match Parse(little, t, body, pos)
                 case None => None
                 case Some((a, at)) =>
                   match Parse(little, u, body, at)
                   case None => None
                   case Some((b, end)) => Some((Both(a, b), end))
  {
  }

  lemma SequenceInTurn(little: bool, e: Ty, body: seq<byte>, pos: nat)
    ensures Parse(little, Sequence(e), body, pos)
         == match TakeNumber(little, body, pos, 4)
            case None => None
            case Some((n, at)) =>
              match ParseAll(little, e, n, body, at)
              case None => None
              case Some((items, end)) => Some((List(items), end))
  {
  }

  lemma NothingParsed(little: bool, e: Ty, body: seq<byte>, pos: nat)
    ensures ParseAll(little, e, 0, body, pos) == Some(([], pos))
  {
  }

  lemma NoVals<T>(f: T -> Val)
    ensures Vals(f, []) == []
  {
  }

  lemma ValsSnoc<T>(f: T -> Val, xs: seq<T>, x: T)
    ensures Vals(f, xs + [x]) == Vals(f, xs) + [f(x)]
  {
  }

  /** One more element parsed, or the whole sequence lost: the step every sequence loop takes. */
  lemma ParsedOneMore(little: bool, e: Ty, i: nat, n: nat, body: seq<byte>, start: nat)
    requires i < n && ParseAll(little, e, i, body, start).Some?
    ensures var (items, at) := ParseAll(little, e, i, body, start).value;
            match Parse(little, e, body, at)
            case None => ParseAll(little, e, n, body, start) == None
            case Some((v, end)) => ParseAll(little, e, i + 1, body, start) == Some((items + [v], end))
  {
    hide Parse;
    if ParseAll(little, e, i + 1, body, start) == None {
      ParseAllStaysNone(little, e, i + 1, n, body, start);
    }
  }
}
