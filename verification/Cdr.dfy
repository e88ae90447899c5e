/**
  src/cdr.rs as a whole: transcoding a CDR payload to LCM wire bytes and back, and what a
  payload turns into when it takes that trip.
 */
module Cdr {
  import opened Prelude
  import opened Wire
  import opened Messages
  import opened TypeNames
  import opened CdrWriter
  import opened CdrReader

  /**
    The generated `lcm-msgs` encoders, which are not part of this model: any pair of functions
    of which the second inverts the first on every message of a type.
   */
  datatype LcmCodec = LcmCodec(encode: Msg -> seq<byte>, decode: (MsgType, seq<byte>) -> Option<Msg>) {
    ghost predicate Lawful() {
      && (forall m: Msg :: decode(TypeOf(m), encode(m)) == Some(m))
      && (forall t: MsgType, wire: seq<byte> ::
            decode(t, wire).Some? ==> TypeOf(decode(t, wire).value) == t)
    }
  }

  // ------------------------------------------------------------ to LCM

  ghost function LittleFlag(payload: seq<byte>): bool
    requires |payload| >= 4
  {
    payload[1] % 2 == 1
  }

  /** What the schema of `t` finds in `payload`; None is the source's error. */
  ghost function ParsePayload(t: MsgType, payload: seq<byte>): Option<(Val, nat)> {
    if |payload| < 4 then None else Parse(LittleFlag(payload), Schema(t), payload[4..], 0)
  }

  /** `payload` is accepted as a message of type `t`, and `m` is that message. */
  ghost predicate Decodes(t: MsgType, payload: seq<byte>, m: Msg) {
    && ParsePayload(t, payload).Some?
    && TypeOf(m) == t && WithoutSeq(m) == m
    && ParsePayload(t, payload).value.0 == MsgVal(m)
  }

  method ReadPoseMsg(t: MsgType, reader: Reader) returns (r: Result<Msg>)
    requires t in {GeometryPoseStamped, GeometryTransformStamped, NavOdometry, NavPath}
    modifies reader
    ensures r.Ok? ==> TypeOf(r.value) == t && WithoutSeq(r.value) == r.value
    ensures Agrees(Parse(reader.littleEndian, Schema(t), reader.body, old(reader.position)),
                   Seen(MsgVal, r), reader.position)
  {
    hide Parse, PoseStampedVal, TransformStampedVal, OdometryVal, PathVal, CameraInfoVal, CompressedImageVal,
      ImageVal, ImuVal, JointStateVal, LaserScanVal, PointCloud2Val, TFMessageVal, Shaped,
      PoseStampedTy, TransformStampedTy, OdometryTy, PathTy, CameraInfoTy, CompressedImageTy,
      ImageTy, ImuTy, JointStateTy, LaserScanTy, PointCloud2Ty, TFMessageTy;
    match t {
      case GeometryPoseStamped => var x :- reader.ReadPoseStamped(); return Ok(MPoseStamped(x));
      case GeometryTransformStamped => var x :- reader.ReadTransformStamped(); return Ok(MTransformStamped(x));
      case NavOdometry => var x :- reader.ReadOdometry(); return Ok(MOdometry(x));
      case NavPath =>
        var x :- reader.ReadPath();
        assert Each(PoseStampedNoSeq, x.poses) == x.poses;
        return Ok(MPath(x));
    }
  }

  method ReadImageMsg(t: MsgType, reader: Reader) returns (r: Result<Msg>)
    requires t in {SensorCompressedImage, SensorImage}
    modifies reader
    ensures r.Ok? ==> TypeOf(r.value) == t && WithoutSeq(r.value) == r.value
    ensures Agrees(Parse(reader.littleEndian, Schema(t), reader.body, old(reader.position)),
                   Seen(MsgVal, r), reader.position)
  {
    hide Parse, PoseStampedVal, TransformStampedVal, OdometryVal, PathVal, CameraInfoVal, CompressedImageVal,
      ImageVal, ImuVal, JointStateVal, LaserScanVal, PointCloud2Val, TFMessageVal, Shaped,
      PoseStampedTy, TransformStampedTy, OdometryTy, PathTy, CameraInfoTy, CompressedImageTy,
      ImageTy, ImuTy, JointStateTy, LaserScanTy, PointCloud2Ty, TFMessageTy;
    match t {
      case SensorCompressedImage => var x :- reader.ReadCompressedImage(); return Ok(MCompressedImage(x));
      case SensorImage => var x :- reader.ReadImage(); return Ok(MImage(x));
    }
  }

  method ReadCloudMsg(t: MsgType, reader: Reader) returns (r: Result<Msg>)
    requires t in {SensorCameraInfo, SensorPointCloud2}
    modifies reader
    ensures r.Ok? ==> TypeOf(r.value) == t && WithoutSeq(r.value) == r.value
    ensures Agrees(Parse(reader.littleEndian, Schema(t), reader.body, old(reader.position)),
                   Seen(MsgVal, r), reader.position)
  {
    hide Parse, PoseStampedVal, TransformStampedVal, OdometryVal, PathVal, CameraInfoVal, CompressedImageVal,
      ImageVal, ImuVal, JointStateVal, LaserScanVal, PointCloud2Val, TFMessageVal, Shaped,
      PoseStampedTy, TransformStampedTy, OdometryTy, PathTy, CameraInfoTy, CompressedImageTy,
      ImageTy, ImuTy, JointStateTy, LaserScanTy, PointCloud2Ty, TFMessageTy;
    match t {
      case SensorCameraInfo => var x :- reader.ReadCameraInfo(); return Ok(MCameraInfo(x));
      case SensorPointCloud2 => var x :- reader.ReadPointCloud2(); return Ok(MPointCloud2(x));
    }
  }

  method ReadStateMsg(t: MsgType, reader: Reader) returns (r: Result<Msg>)
    requires t in {SensorImu, SensorJointState}
    modifies reader
    ensures r.Ok? ==> TypeOf(r.value) == t && WithoutSeq(r.value) == r.value
    ensures Agrees(Parse(reader.littleEndian, Schema(t), reader.body, old(reader.position)),
                   Seen(MsgVal, r), reader.position)
  {
    hide Parse, PoseStampedVal, TransformStampedVal, OdometryVal, PathVal, CameraInfoVal, CompressedImageVal,
      ImageVal, ImuVal, JointStateVal, LaserScanVal, PointCloud2Val, TFMessageVal, Shaped,
      PoseStampedTy, TransformStampedTy, OdometryTy, PathTy, CameraInfoTy, CompressedImageTy,
      ImageTy, ImuTy, JointStateTy, LaserScanTy, PointCloud2Ty, TFMessageTy;
    match t {
      case SensorImu => var x :- reader.ReadImu(); return Ok(MImu(x));
      case SensorJointState => var x :- reader.ReadJointState(); return Ok(MJointState(x));
    }
  }

  method ReadScanMsg(t: MsgType, reader: Reader) returns (r: Result<Msg>)
    requires t in {SensorLaserScan, Tf2TFMessage}
    modifies reader
    ensures r.Ok? ==> TypeOf(r.value) == t && WithoutSeq(r.value) == r.value
    ensures Agrees(Parse(reader.littleEndian, Schema(t), reader.body, old(reader.position)),
                   Seen(MsgVal, r), reader.position)
  {
    hide Parse, PoseStampedVal, TransformStampedVal, OdometryVal, PathVal, CameraInfoVal, CompressedImageVal,
      ImageVal, ImuVal, JointStateVal, LaserScanVal, PointCloud2Val, TFMessageVal, Shaped,
      PoseStampedTy, TransformStampedTy, OdometryTy, PathTy, CameraInfoTy, CompressedImageTy,
      ImageTy, ImuTy, JointStateTy, LaserScanTy, PointCloud2Ty, TFMessageTy;
    match t {
      case SensorLaserScan => var x :- reader.ReadLaserScan(); return Ok(MLaserScan(x));
      case Tf2TFMessage =>
        var x :- reader.ReadTFMessage();
        assert Each(TransformStampedNoSeq, x.transforms) == x.transforms;
        return Ok(MTFMessage(x));
    }
  }

  /** The reader a type name selects. */
  method ReadMsg(t: MsgType, reader: Reader) returns (r: Result<Msg>)
    modifies reader
    ensures r.Ok? ==> TypeOf(r.value) == t && WithoutSeq(r.value) == r.value
    ensures Agrees(Parse(reader.littleEndian, Schema(t), reader.body, old(reader.position)),
                   Seen(MsgVal, r), reader.position)
  {
    hide Parse, Schema, MsgVal, WithoutSeq, Shaped;
    if t in {GeometryPoseStamped, GeometryTransformStamped, NavOdometry, NavPath} {
      r := ReadPoseMsg(t, reader);
    } else if t in {SensorCompressedImage, SensorImage} {
      r := ReadImageMsg(t, reader);
    } else if t in {SensorCameraInfo, SensorPointCloud2} {
      r := ReadCloudMsg(t, reader);
    } else if t in {SensorImu, SensorJointState} {
      r := ReadStateMsg(t, reader);
    } else {
      r := ReadScanMsg(t, reader);
    }
  }

  method ToLcm(lcm: LcmCodec, msgName: string, payload: seq<byte>) returns (r: Result<seq<byte>>, ghost m: Option<Msg>)
    ensures r.Ok? <==> TypeNamed(msgName).Some? && ParsePayload(TypeNamed(msgName).value, payload).Some?
    ensures r.Ok? ==> m.Some? && r.value == lcm.encode(m.value)
                      && Decodes(TypeNamed(msgName).value, payload, m.value)
  {
    hide Schema, MsgVal, WithoutSeq, Parse;
    m := None;
    if |payload| < 4 { return Err, None; }
    var reader := new Reader(payload);
    var t := TypeNamed(msgName);
    if t.None? { return Err, None; }
    var read := ReadMsg(t.value, reader);
    if read.Err? { return Err, None; }
    return Ok(lcm.encode(read.value)), Some(read.value);
  }

  // ------------------------------------------------------------ to CDR

  datatype Container = Raw | Format(name: Utf8String) | Unrecognised

  const JPEG: Utf8String := [0x6A, 0x70, 0x65, 0x67]
  const JPG: Utf8String := [0x6A, 0x70, 0x67]
  const PNG: Utf8String := [0x70, 0x6E, 0x67]
  const JPEG_MAGIC: seq<byte> := [0xFF, 0xD8, 0xFF]
  const PNG_MAGIC: seq<byte> := [0x89, 0x50, 0x4E, 0x47, 0x0D, 0x0A, 0x1A, 0x0A]

  /** The container an Image is really carrying, if it is not raw pixels. */
  function ContainerFormat(image: Image): (c: Container)
  {
    if image.encoding != JPEG && image.encoding != JPG && image.encoding != PNG then Raw
    else if image.height < 0 || image.step < 0 then Raw
    else if image.step != 0 && image.height * image.step == |image.data| then Raw
    else if JPEG_MAGIC <= image.data then Format(JPEG)
    else if PNG_MAGIC <= image.data then Format(PNG)
    else Unrecognised
  }

  /** The message that is really printed: an Image carrying a codec stream is retyped. */
  function Retyped(m: Msg): Msg {
    if m.MImage? && ContainerFormat(m.image).Format? then
      MCompressedImage(CompressedImage(m.image.header, ContainerFormat(m.image).name, m.image.data))
    else m
  }

  /** The canonical little-endian payload of a message. */
  ghost function Payload(m: Msg): seq<byte> {
    [0, 1, 0, 0] + Put(true, Schema(TypeOf(m)), MsgVal(m), [])
  }

  datatype Encoded = Encoded(msgName: string, data: seq<byte>, defect: bool)

  ghost function Encoding(m: Msg): Encoded {
    Encoded(TypeName(TypeOf(Retyped(m))), Payload(Retyped(m)),
            m.MImage? && ContainerFormat(m.image).Unrecognised?)
  }

  method WritePoseMsg(m: Msg, writer: Writer)
    requires m.MPoseStamped? || m.MTransformStamped? || m.MOdometry? || m.MPath?
    modifies writer
    ensures writer.body == Put(true, Schema(TypeOf(m)), MsgVal(m), old(writer.body))
  {
    hide Put, PoseStampedVal, TransformStampedVal, OdometryVal, PathVal, CameraInfoVal, CompressedImageVal,
      ImageVal, ImuVal, JointStateVal, LaserScanVal, PointCloud2Val, TFMessageVal, Shaped,
      PoseStampedTy, TransformStampedTy, OdometryTy, PathTy, CameraInfoTy, CompressedImageTy,
      ImageTy, ImuTy, JointStateTy, LaserScanTy, PointCloud2Ty, TFMessageTy;
    ghost var ty, val := Schema(TypeOf(m)), MsgVal(m);
    match m {
      case MPoseStamped(x) =>
        writer.PutPoseStamped(x);
        assert ty == PoseStampedTy() && val == PoseStampedVal(x);
      case MTransformStamped(x) =>
        writer.PutTransformStamped(x);
        assert ty == TransformStampedTy() && val == TransformStampedVal(x);
      case MOdometry(x) =>
        writer.PutOdometry(x);
        assert ty == OdometryTy() && val == OdometryVal(x);
      case MPath(x) =>
        writer.PutPath(x);
        assert ty == PathTy() && val == PathVal(x);
    }
  }

  method WriteImageMsg(m: Msg, writer: Writer)
    requires m.MCameraInfo? || m.MCompressedImage? || m.MImage? || m.MPointCloud2?
    modifies writer
    ensures writer.body == Put(true, Schema(TypeOf(m)), MsgVal(m), old(writer.body))
  {
    hide Put, PoseStampedVal, TransformStampedVal, OdometryVal, PathVal, CameraInfoVal, CompressedImageVal,
      ImageVal, ImuVal, JointStateVal, LaserScanVal, PointCloud2Val, TFMessageVal, Shaped,
      PoseStampedTy, TransformStampedTy, OdometryTy, PathTy, CameraInfoTy, CompressedImageTy,
      ImageTy, ImuTy, JointStateTy, LaserScanTy, PointCloud2Ty, TFMessageTy;
    ghost var ty, val := Schema(TypeOf(m)), MsgVal(m);
    match m {
      case MCameraInfo(x) =>
        writer.PutCameraInfo(x);
        assert ty == CameraInfoTy() && val == CameraInfoVal(x);
      case MCompressedImage(x) =>
        writer.PutCompressedImage(x);
        assert ty == CompressedImageTy() && val == CompressedImageVal(x);
      case MImage(x) =>
        writer.PutImage(x);
        assert ty == ImageTy() && val == ImageVal(x);
      case MPointCloud2(x) =>
        writer.PutPointCloud2(x);
        assert ty == PointCloud2Ty() && val == PointCloud2Val(x);
    }
  }

  method WriteStateMsg(m: Msg, writer: Writer)
    requires m.MImu? || m.MJointState? || m.MLaserScan? || m.MTFMessage?
    modifies writer
    ensures writer.body == Put(true, Schema(TypeOf(m)), MsgVal(m), old(writer.body))
  {
    hide Put, PoseStampedVal, TransformStampedVal, OdometryVal, PathVal, CameraInfoVal, CompressedImageVal,
      ImageVal, ImuVal, JointStateVal, LaserScanVal, PointCloud2Val, TFMessageVal, Shaped,
      PoseStampedTy, TransformStampedTy, OdometryTy, PathTy, CameraInfoTy, CompressedImageTy,
      ImageTy, ImuTy, JointStateTy, LaserScanTy, PointCloud2Ty, TFMessageTy;
    ghost var ty, val := Schema(TypeOf(m)), MsgVal(m);
    match m {
      case MImu(x) =>
        writer.PutImu(x);
        assert ty == ImuTy() && val == ImuVal(x);
      case MJointState(x) =>
        writer.PutJointState(x);
        assert ty == JointStateTy() && val == JointStateVal(x);
      case MLaserScan(x) =>
        writer.PutLaserScan(x);
        assert ty == LaserScanTy() && val == LaserScanVal(x);
      case MTFMessage(x) =>
        writer.PutTFMessage(x);
        assert ty == TFMessageTy() && val == TFMessageVal(x);
    }
  }

  /** The printer a message's type selects. */
  method WriteMsg(m: Msg, writer: Writer)
    modifies writer
    ensures writer.body == Put(true, Schema(TypeOf(m)), MsgVal(m), old(writer.body))
  {
    hide Put, Schema, MsgVal, Shaped;
    if m.MPoseStamped? || m.MTransformStamped? || m.MOdometry? || m.MPath? {
      WritePoseMsg(m, writer);
    } else if m.MCameraInfo? || m.MCompressedImage? || m.MImage? || m.MPointCloud2? {
      WriteImageMsg(m, writer);
    } else {
      WriteStateMsg(m, writer);
    }
  }

  method ToCdr(lcm: LcmCodec, msgName: string, wire: seq<byte>) returns (r: Result<Encoded>)
    requires lcm.Lawful()
    ensures r == if TypeNamed(msgName).None? || lcm.decode(TypeNamed(msgName).value, wire).None? then Err
                 else Ok(Encoding(lcm.decode(TypeNamed(msgName).value, wire).value))
  {
    hide Put, MsgVal, Schema, TypeName, TypeNamed;
    var t := TypeNamed(msgName);
    if t.None? { return Err; }
    var decoded := lcm.decode(t.value, wire);
    if decoded.None? { return Err; }
    var m := decoded.value;
    var defect := false;
    if m.MImage? {
      var image := m.image;
      match ContainerFormat(image) {
        case Raw =>
        case Unrecognised => defect := true;
        case Format(format) =>
          var data := Print(MCompressedImage(CompressedImage(image.header, format, image.data)));
          return Ok(Encoded(TypeName(SensorCompressedImage), data, false));
      }
    }
    var data := Print(m);
    return Ok(Encoded(msgName, data, defect));
  }

  method Print(m: Msg) returns (data: seq<byte>)
    ensures data == Payload(m)
  {
    hide Put, MsgVal, Schema;
    var writer := new Writer();
    WriteMsg(m, writer);
    data := writer.Finish();
  }
}
