/**
  The printing half of src/cdr.rs. Every method extends `body` by exactly what the schema of
  its message prescribes at the current offset.
 */
module CdrWriter {
  import opened Prelude
  import opened Division
  import opened Wire
  import opened Messages

  class Writer {
    var body: seq<byte>

    constructor ()
      ensures body == []
    {
      body := [];
    }

    method Align(alignment: nat)
      requires alignment > 0
      modifies this
      ensures body == Padded(old(body), alignment)
    {
      ghost var padding := Padding(|body|, alignment);
      while |body| % alignment != 0
        invariant |old(body)| <= |body| <= |old(body)| + padding
        invariant body == old(body) + Zeros(|body| - |old(body)|)
        decreases |old(body)| + padding - |body|
      {
        PaddingReached(|old(body)|, |body|, alignment);
        body := body + [0];
      }
      PaddingReached(|old(body)|, |body|, alignment);
    }

    method U8(value: byte)
      modifies this
      ensures body == Put(true, Octet, OctetVal(value), old(body))
    {
      body := body + [value];
    }

    method Bool(value: bool)
      modifies this
      ensures body == Put(true, Flag, FlagVal(value), old(body))
    {
      U8(if value then 1 else 0);
    }

    method U32(value: u32)
      modifies this
      ensures body == Put(true, Word, WordVal(value), old(body))
    {
      Align(4);
      body := body + ToLittle(value, 4);
    }

    method I32(value: i32)
      modifies this
      ensures body == Put(true, Word, IntVal(value), old(body))
    {
      U32(AsUnsigned(value));
    }

    method F32(value: f32)
      modifies this
      ensures body == Put(true, Word, WordVal(value), old(body))
    {
      U32(value);
    }

    method F64(value: f64)
      modifies this
      ensures body == Put(true, Double, DoubleVal(value), old(body))
    {
      Align(8);
      body := body + ToLittle(value, 8);
    }

    method String(value: Utf8String)
      modifies this
      ensures body == Put(true, Text, TextVal(value), old(body))
    {
      U32(Truncated(|value| + 1));
      body := body + value;
      body := body + [0];
    }

    method Bytes(value: seq<byte>)
      modifies this
      ensures body == Put(true, Blob, BlobVal(value), old(body))
    {
      U32(Truncated(|value|));
      body := body + value;
    }

    method Count(value: nat)
      modifies this
      ensures body == PutWord(true, Truncated(value), old(body))
    {
      U32(Truncated(value));
    }

    method F64Sequence(values: seq<f64>)
      modifies this
      ensures body == Put(true, Sequence(Double), DoublesVal(values), old(body))
    {
      Count(|values|);
      F64Array(values);
    }

    method F32Sequence(values: seq<f32>)
      modifies this
      ensures body == Put(true, Sequence(Word), WordsVal(values), old(body))
    {
      Count(|values|);
      ghost var start := body;
      ghost var vals := Vals(WordVal, values);
      for i := 0 to |values|
        invariant body == PutAll(true, Word, vals[..i], start)
      {
        PutAllSnoc(true, Word, vals, i, start);
        F32(values[i]);
      }
      assert vals[..|vals|] == vals;
    }

    method F64Array(values: seq<f64>)
      modifies this
      ensures body == Put(true, Array(|values|, Double), DoublesVal(values), old(body))
    {
      ghost var vals := Vals(DoubleVal, values);
      for i := 0 to |values|
        invariant body == PutAll(true, Double, vals[..i], old(body))
      {
        PutAllSnoc(true, Double, vals, i, old(body));
        F64(values[i]);
      }
      assert vals[..|vals|] == vals;
    }

    method Finish() returns (payload: seq<byte>)
      ensures payload == [0, 1, 0, 0] + body
    {
      payload := [0, 1, 0, 0];
      payload := payload + body;
    }

    // ---------------------------------------------------------- messages

    method PutHeader(header: Header)
      modifies this
      ensures body == Put(true, HeaderTy(), HeaderVal(header), old(body))
    {
      I32(header.stamp.sec);
      I32(header.stamp.nsec);
      String(header.frameId);
    }

    method PutVector3(value: Vector3)
      modifies this
      ensures body == Put(true, Vector3Ty(), Vector3Val(value), old(body))
    {
      F64(value.x);
      F64(value.y);
      F64(value.z);
    }

    method PutPoint(value: Point)
      modifies this
      ensures body == Put(true, Vector3Ty(), PointVal(value), old(body))
    {
      F64(value.x);
      F64(value.y);
      F64(value.z);
    }

    method PutQuaternion(value: Quaternion)
      modifies this
      ensures body == Put(true, QuaternionTy(), QuaternionVal(value), old(body))
    {
      F64(value.x);
      F64(value.y);
      F64(value.z);
      F64(value.w);
    }

    method PutPose(value: Pose)
      modifies this
      ensures body == Put(true, PoseTy(), PoseVal(value), old(body))
    {
      PutPoint(value.position);
      PutQuaternion(value.orientation);
    }

    method PutTwist(value: Twist)
      modifies this
      ensures body == Put(true, TwistTy(), TwistVal(value), old(body))
    {
      PutVector3(value.linear);
      PutVector3(value.angular);
    }

    method PutPoseStamped(value: PoseStamped)
      modifies this
      ensures body == Put(true, PoseStampedTy(), PoseStampedVal(value), old(body))
    {
      PutHeader(value.header);
      PutPose(value.pose);
    }

    method PutTransformStamped(value: TransformStamped)
      modifies this
      ensures body == Put(true, TransformStampedTy(), TransformStampedVal(value), old(body))
    {
      PutHeader(value.header);
      String(value.childFrameId);
      PutVector3(value.transform.translation);
      PutQuaternion(value.transform.rotation);
    }

    method PutTFMessage(value: TFMessage)
      modifies this
      ensures body == Put(true, TFMessageTy(), TFMessageVal(value), old(body))
    {
      hide HeaderTy, HeaderVal, Vector3Ty, Vector3Val, QuaternionTy, QuaternionVal, PutWord, Padded, ToBytes,
        TransformStampedTy, TransformStampedVal;
      Count(|value.transforms|);
      ghost var start := body;
      ghost var vals := Vals(TransformStampedVal, value.transforms);
      for i := 0 to |value.transforms|
        invariant body == PutAll(true, TransformStampedTy(), vals[..i], start)
      {
        PutAllSnoc(true, TransformStampedTy(), vals, i, start);
        PutTransformStamped(value.transforms[i]);
      }
      assert vals[..|vals|] == vals;
    }

    method PutOdometry(value: Odometry)
      modifies this
      ensures body == Put(true, OdometryTy(), OdometryVal(value), old(body))
    {
      hide HeaderTy, HeaderVal, Vector3Ty, Vector3Val, QuaternionTy, QuaternionVal, PutWord, Padded, ToBytes,
        PoseTy, PoseVal, TwistTy, TwistVal;
      PutHeader(value.header);
      String(value.childFrameId);
      PutPose(value.pose);
      F64Array(value.poseCovariance);
      PutTwist(value.twist);
      F64Array(value.twistCovariance);
    }

    method PutPath(value: Path)
      modifies this
      ensures body == Put(true, PathTy(), PathVal(value), old(body))
    {
      hide HeaderTy, HeaderVal, Vector3Ty, Vector3Val, QuaternionTy, QuaternionVal, PutWord, Padded, ToBytes,
        PoseStampedTy, PoseStampedVal;
      PutHeader(value.header);
      Count(|value.poses|);
      ghost var start := body;
      ghost var vals := Vals(PoseStampedVal, value.poses);
      for i := 0 to |value.poses|
        invariant body == PutAll(true, PoseStampedTy(), vals[..i], start)
      {
        PutAllSnoc(true, PoseStampedTy(), vals, i, start);
        PutPoseStamped(value.poses[i]);
      }
      assert vals[..|vals|] == vals;
    }

    method PutImu(value: Imu)
      modifies this
      ensures body == Put(true, ImuTy(), ImuVal(value), old(body))
    {
      hide HeaderTy, HeaderVal, Vector3Ty, Vector3Val, QuaternionTy, QuaternionVal, PutWord, Padded, ToBytes;
      PutHeader(value.header);
      PutQuaternion(value.orientation);
      F64Array(value.orientationCovariance);
      PutVector3(value.angularVelocity);
      F64Array(value.angularVelocityCovariance);
      PutVector3(value.linearAcceleration);
      F64Array(value.linearAccelerationCovariance);
    }

    method PutImage(value: Image)
      modifies this
      ensures body == Put(true, ImageTy(), ImageVal(value), old(body))
    {
      hide HeaderTy, HeaderVal, PutWord, Padded, ToBytes;
      PutHeader(value.header);
      I32(value.height);
      I32(value.width);
      String(value.encoding);
      U8(value.isBigendian);
      I32(value.step);
      Bytes(value.data);
    }

    method PutCompressedImage(value: CompressedImage)
      modifies this
      ensures body == Put(true, CompressedImageTy(), CompressedImageVal(value), old(body))
    {
      PutHeader(value.header);
      String(value.format);
      Bytes(value.data);
    }

    method PutCameraInfo(value: CameraInfo)
      modifies this
      ensures body == Put(true, CameraInfoTy(), CameraInfoVal(value), old(body))
    {
      hide RoiTy, RoiVal, HeaderTy, HeaderVal, Vector3Ty, Vector3Val, QuaternionTy, QuaternionVal, PutWord, Padded,
        ToBytes, DoublesVal;
      PutHeader(value.header);
      I32(value.height);
      I32(value.width);
      String(value.distortionModel);
      F64Sequence(value.d);
      F64Array(value.k);
      F64Array(value.r);
      F64Array(value.p);
      I32(value.binningX);
      I32(value.binningY);
      PutRoi(value.roi);
    }

    method PutField(field: PointField)
      modifies this
      ensures body == Put(true, FieldTy(), FieldVal(field), old(body))
    {
      String(field.name);
      I32(field.offset);
      U8(field.datatype_);
      I32(field.count);
    }

    method PutRoi(roi: RegionOfInterest)
      modifies this
      ensures body == Put(true, RoiTy(), RoiVal(roi), old(body))
    {
      I32(roi.xOffset);
      I32(roi.yOffset);
      I32(roi.height);
      I32(roi.width);
      Bool(roi.doRectify);
    }

    method PutFields(fields: seq<PointField>)
      modifies this
      ensures body == Put(true, Sequence(FieldTy()), List(Vals(FieldVal, fields)), old(body))
    {
      hide FieldTy, FieldVal, PutWord, Padded, ToBytes;
      Count(|fields|);
      ghost var start := body;
      ghost var vals := Vals(FieldVal, fields);
      for i := 0 to |fields|
        invariant body == PutAll(true, FieldTy(), vals[..i], start)
      {
        PutAllSnoc(true, FieldTy(), vals, i, start);
        PutField(fields[i]);
      }
      assert vals[..|vals|] == vals;
    }

    method PutPointCloud2(value: PointCloud2)
      modifies this
      ensures body == Put(true, PointCloud2Ty(), PointCloud2Val(value), old(body))
    {
      hide FieldTy, FieldVal, HeaderTy, HeaderVal, PutWord, Padded, ToBytes, Vals;
      PutHeader(value.header);
      I32(value.height);
      I32(value.width);
      PutFields(value.fields);
      Bool(value.isBigendian);
      I32(value.pointStep);
      I32(value.rowStep);
      Bytes(value.data);
      Bool(value.isDense);
    }

    method PutJointState(value: JointState)
      modifies this
      ensures body == Put(true, JointStateTy(), JointStateVal(value), old(body))
    {
      hide HeaderTy, HeaderVal, Vector3Ty, Vector3Val, QuaternionTy, QuaternionVal, PutWord, Padded, ToBytes;
      PutHeader(value.header);
      Count(|value.name|);
      ghost var start := body;
      ghost var vals := Vals(TextVal, value.name);
      for i := 0 to |value.name|
        invariant body == PutAll(true, Text, vals[..i], start)
      {
        PutAllSnoc(true, Text, vals, i, start);
        String(value.name[i]);
      }
      assert vals[..|vals|] == vals;
      F64Sequence(value.position);
      F64Sequence(value.velocity);
      F64Sequence(value.effort);
    }

    method PutLaserScan(value: LaserScan)
      modifies this
      ensures body == Put(true, LaserScanTy(), LaserScanVal(value), old(body))
    {
      hide HeaderTy, HeaderVal, Vector3Ty, Vector3Val, QuaternionTy, QuaternionVal, PutWord, Padded, ToBytes;
      PutHeader(value.header);
      F32(value.angleMin);
      F32(value.angleMax);
      F32(value.angleIncrement);
      F32(value.timeIncrement);
      F32(value.scanTime);
      F32(value.rangeMin);
      F32(value.rangeMax);
      F32Sequence(value.ranges);
      F32Sequence(value.intensities);
    }
  }

  lemma PaddingIs(start: nat, alignment: nat)
    requires alignment > 0
    ensures Padding(start, alignment) == if start % alignment == 0 then 0 else alignment - start % alignment
  {
    if start % alignment == 0 {
      RemainderIs(alignment, alignment, 1, 0);
    } else {
      RemainderIs(alignment - start % alignment, alignment, 0, alignment - start % alignment);
    }
  }

  /** The loop of `align` stops exactly after the missing bytes. */
  lemma PaddingReached(start: nat, length: nat, alignment: nat)
    requires alignment > 0
    requires start <= length <= start + Padding(start, alignment)
    ensures length % alignment == 0 <==> length == start + Padding(start, alignment)
  {
    hide Padding;
    PaddingIs(start, alignment);
    if start % alignment != 0 {
      if length == start + (alignment - start % alignment) {
        RemainderRolls(start, alignment);
      } else {
        RemainderGrows(start, alignment, length - start);
      }
    }
  }

  /** One more element printed: the step every sequence loop takes. */
  lemma PutAllSnoc(little: bool, e: Ty, items: seq<Val>, i: nat, body: seq<byte>)
    requires i < |items| && AllShaped(e, items)
    ensures AllShaped(e, items[..i]) && AllShaped(e, items[..i + 1])
    ensures PutAll(little, e, items[..i + 1], body)
         == Put(little, e, items[i], PutAll(little, e, items[..i], body))
  {
    hide Shaped, Put;
    assert items[..i + 1][..i] == items[..i];
  }
}
