/**
  The message structs of `lcm-msgs` that src/cdr.rs transcodes, each with its ROS 2 schema
  (src/schema.rs) and the value that schema gives it. Floats are their bit patterns.
  ROS 2's Header has no `seq`, so `seq` is the one field a schema value does not carry.
 */
module Messages {
  import opened Prelude
  import opened Utf8
  import opened Wire

  type Utf8String = s: seq<byte> | Valid(s) witness []
  type f32 = u32
  type f64 = u64
  type F64x9 = s: seq<f64> | |s| == 9 witness [0, 0, 0, 0, 0, 0, 0, 0, 0]
  type F64x12 = s: seq<f64> | |s| == 12 witness [0, 0, 0, 0, 0, 0, 0, 0, 0, 0, 0, 0]
  type F64x36 = s: seq<f64> | |s| == 36 witness seq(36, _ => 0)

  datatype Time = Time(sec: i32, nsec: i32)
  datatype Header = Header(seqNo: i32, stamp: Time, frameId: Utf8String)
  datatype Vector3 = Vector3(x: f64, y: f64, z: f64)
  datatype Point = Point(x: f64, y: f64, z: f64)
  datatype Quaternion = Quaternion(x: f64, y: f64, z: f64, w: f64)
  datatype Pose = Pose(position: Point, orientation: Quaternion)
  datatype Twist = Twist(linear: Vector3, angular: Vector3)
  datatype Transform = Transform(translation: Vector3, rotation: Quaternion)
  datatype RegionOfInterest =
    RegionOfInterest(xOffset: i32, yOffset: i32, height: i32, width: i32, doRectify: bool)
  datatype PointField = PointField(name: Utf8String, offset: i32, datatype_: byte, count: i32)

  datatype PoseStamped = PoseStamped(header: Header, pose: Pose)
  datatype TransformStamped =
    TransformStamped(header: Header, childFrameId: Utf8String, transform: Transform)
  datatype TFMessage = TFMessage(transforms: seq<TransformStamped>)
  datatype Odometry = Odometry(
    header: Header, childFrameId: Utf8String,
    pose: Pose, poseCovariance: F64x36, twist: Twist, twistCovariance: F64x36)
  datatype Path = Path(header: Header, poses: seq<PoseStamped>)
  datatype Imu = Imu(
    header: Header,
    orientation: Quaternion, orientationCovariance: F64x9,
    angularVelocity: Vector3, angularVelocityCovariance: F64x9,
    linearAcceleration: Vector3, linearAccelerationCovariance: F64x9)
  datatype Image = Image(
    header: Header, height: i32, width: i32, encoding: Utf8String,
    isBigendian: byte, step: i32, data: seq<byte>)
  datatype CompressedImage = CompressedImage(header: Header, format: Utf8String, data: seq<byte>)
  datatype CameraInfo = CameraInfo(
    header: Header, height: i32, width: i32, distortionModel: Utf8String,
    d: seq<f64>, k: F64x9, r: F64x9, p: F64x12,
    binningX: i32, binningY: i32, roi: RegionOfInterest)
  datatype PointCloud2 = PointCloud2(
    header: Header, height: i32, width: i32, fields: seq<PointField>,
    isBigendian: bool, pointStep: i32, rowStep: i32, data: seq<byte>, isDense: bool)
  datatype JointState = JointState(
    header: Header, name: seq<Utf8String>,
    position: seq<f64>, velocity: seq<f64>, effort: seq<f64>)
  datatype LaserScan = LaserScan(
    header: Header, angleMin: f32, angleMax: f32, angleIncrement: f32, timeIncrement: f32,
    scanTime: f32, rangeMin: f32, rangeMax: f32, ranges: seq<f32>, intensities: seq<f32>)

  // ------------------------------------------------------------ schemas

  function HeaderTy(): Ty { Pair(Word, Pair(Word, Text)) }
  function Vector3Ty(): Ty { Pair(Double, Pair(Double, Double)) }
  function QuaternionTy(): Ty { Pair(Double, Pair(Double, Pair(Double, Double))) }
  function PoseTy(): Ty { Pair(Vector3Ty(), QuaternionTy()) }
  function TwistTy(): Ty { Pair(Vector3Ty(), Vector3Ty()) }
  function TransformTy(): Ty { Pair(Vector3Ty(), QuaternionTy()) }
  function RoiTy(): Ty { Pair(Word, Pair(Word, Pair(Word, Pair(Word, Flag)))) }
  function FieldTy(): Ty { Pair(Text, Pair(Word, Pair(Octet, Word))) }
  function PoseStampedTy(): Ty { Pair(HeaderTy(), PoseTy()) }
  function TransformStampedTy(): Ty { Pair(HeaderTy(), Pair(Text, TransformTy())) }
  function TFMessageTy(): Ty { Sequence(TransformStampedTy()) }
  function OdometryTy(): Ty {
    Pair(HeaderTy(), Pair(Text,
      Pair(PoseTy(), Pair(Array(36, Double), Pair(TwistTy(), Array(36, Double))))))
  }
  function PathTy(): Ty { Pair(HeaderTy(), Sequence(PoseStampedTy())) }
  function ImuTy(): Ty {
    Pair(HeaderTy(), Pair(QuaternionTy(), Pair(Array(9, Double),
      Pair(Vector3Ty(), Pair(Array(9, Double), Pair(Vector3Ty(), Array(9, Double)))))))
  }
  function ImageTy(): Ty {
    Pair(HeaderTy(), Pair(Word, Pair(Word, Pair(Text, Pair(Octet, Pair(Word, Blob))))))
  }
  function CompressedImageTy(): Ty { Pair(HeaderTy(), Pair(Text, Blob)) }
  function BinningTy(): Ty { Pair(Word, Pair(Word, RoiTy())) }
  function CloudTailTy(): Ty { Pair(Flag, Pair(Word, Pair(Word, Pair(Blob, Flag)))) }
  function CameraInfoTy(): Ty {
    Pair(HeaderTy(), Pair(Word, Pair(Word, Pair(Text, LensTy()))))
  }
  function LensTy(): Ty {
    Pair(Sequence(Double), Pair(Array(9, Double), Pair(Array(9, Double), Pair(Array(12, Double), BinningTy()))))
  }
  function PointCloud2Ty(): Ty {
    Pair(HeaderTy(), Pair(Word, Pair(Word, Pair(Sequence(FieldTy()), CloudTailTy()))))
  }
  function JointStateTy(): Ty {
    Pair(HeaderTy(), Pair(Sequence(Text),
      Pair(Sequence(Double), Pair(Sequence(Double), Sequence(Double)))))
  }
  function ScanTailTy(): Ty {
    Pair(Word, Pair(Word, Pair(Word, Pair(Sequence(Word), Sequence(Word)))))
  }
  function LaserScanTy(): Ty {
    Pair(HeaderTy(), Pair(Word, Pair(Word, Pair(Word, Pair(Word, ScanTailTy())))))
  }

  // ------------------------------------------------------------ the value a schema gives a message

  function OctetVal(n: byte): (val: Val)
    ensures Shaped(Octet, val)
  { Num(n) }

  function FlagVal(b: bool): (val: Val)
    ensures Shaped(Flag, val)
  { Num(if b then 1 else 0) }

  function WordVal(n: u32): (val: Val)
    ensures Shaped(Word, val)
  { Num(n) }

  function IntVal(n: i32): (val: Val)
    ensures Shaped(Word, val)
  { WordVal(AsUnsigned(n)) }

  function DoubleVal(n: f64): (val: Val)
    ensures Shaped(Double, val)
  { Num(n) }

  function TextVal(s: Utf8String): (val: Val)
    ensures Shaped(Text, val)
  { Str(s) }

  function BlobVal(data: seq<byte>): (val: Val)
    ensures Shaped(Blob, val)
  { Str(data) }

  function Vals<T>(f: T -> Val, xs: seq<T>): (vals: seq<Val>)
    ensures |vals| == |xs|
    ensures forall i :: 0 <= i < |xs| ==> vals[i] == f(xs[i])
  {
    seq(|xs|, i requires 0 <= i < |xs| => f(xs[i]))
  }

  function WordsVal(xs: seq<f32>): (val: Val)
    ensures Shaped(Sequence(Word), val) && |val.items| == |xs|
  { List(Vals(WordVal, xs)) }

  function DoublesVal(xs: seq<f64>): (val: Val)
    ensures Shaped(Sequence(Double), val) && Shaped(Array(|xs|, Double), val)
  { List(Vals(DoubleVal, xs)) }

  function HeaderVal(h: Header): (val: Val)
    ensures Shaped(HeaderTy(), val)
  { Both(IntVal(h.stamp.sec), Both(IntVal(h.stamp.nsec), TextVal(h.frameId))) }
  function Vector3Val(v: Vector3): (val: Val)
    ensures Shaped(Vector3Ty(), val)
  { Both(DoubleVal(v.x), Both(DoubleVal(v.y), DoubleVal(v.z))) }
  function PointVal(v: Point): (val: Val)
    ensures Shaped(Vector3Ty(), val)
  { Both(DoubleVal(v.x), Both(DoubleVal(v.y), DoubleVal(v.z))) }
  function QuaternionVal(q: Quaternion): (val: Val)
    ensures Shaped(QuaternionTy(), val)
  { Both(DoubleVal(q.x), Both(DoubleVal(q.y), Both(DoubleVal(q.z), DoubleVal(q.w)))) }
  function PoseVal(p: Pose): (val: Val)
    ensures Shaped(PoseTy(), val)
  { Both(PointVal(p.position), QuaternionVal(p.orientation)) }
  function TwistVal(t: Twist): (val: Val)
    ensures Shaped(TwistTy(), val)
  { Both(Vector3Val(t.linear), Vector3Val(t.angular)) }
  function TransformVal(t: Transform): (val: Val)
    ensures Shaped(TransformTy(), val)
  { Both(Vector3Val(t.translation), QuaternionVal(t.rotation)) }
  function RoiVal(r: RegionOfInterest): (val: Val)
    ensures Shaped(RoiTy(), val)
  {
    Both(IntVal(r.xOffset), Both(IntVal(r.yOffset), Both(IntVal(r.height), Both(IntVal(r.width),
        FlagVal(r.doRectify)))))
  }
  function FieldVal(f: PointField): (val: Val)
    ensures Shaped(FieldTy(), val)
  {
    Both(TextVal(f.name), Both(IntVal(f.offset), Both(OctetVal(f.datatype_), IntVal(f.count))))
  }
  function PoseStampedVal(m: PoseStamped): (val: Val)
    ensures Shaped(PoseStampedTy(), val)
  { Both(HeaderVal(m.header), PoseVal(m.pose)) }
  function TransformStampedVal(m: TransformStamped): (val: Val)
    ensures Shaped(TransformStampedTy(), val)
  {
    Both(HeaderVal(m.header), Both(TextVal(m.childFrameId), TransformVal(m.transform)))
  }
  function TFMessageVal(m: TFMessage): (val: Val)
    ensures Shaped(TFMessageTy(), val)
  { List(Vals(TransformStampedVal, m.transforms)) }
  function OdometryVal(m: Odometry): (val: Val)
    ensures Shaped(OdometryTy(), val)
  {
    Both(HeaderVal(m.header), Both(TextVal(m.childFrameId),
      Both(PoseVal(m.pose), Both(DoublesVal(m.poseCovariance),
        Both(TwistVal(m.twist), DoublesVal(m.twistCovariance))))))
  }
  function PathVal(m: Path): (val: Val)
    ensures Shaped(PathTy(), val)
  { Both(HeaderVal(m.header), List(Vals(PoseStampedVal, m.poses))) }
  function ImuVal(m: Imu): (val: Val)
    ensures Shaped(ImuTy(), val)
  {
    Both(HeaderVal(m.header),
      Both(QuaternionVal(m.orientation), Both(DoublesVal(m.orientationCovariance),
        Both(Vector3Val(m.angularVelocity), Both(DoublesVal(m.angularVelocityCovariance),
          Both(Vector3Val(m.linearAcceleration), DoublesVal(m.linearAccelerationCovariance)))))))
  }
  function ImageVal(m: Image): (val: Val)
    ensures Shaped(ImageTy(), val)
  {
    Both(HeaderVal(m.header), Both(IntVal(m.height), Both(IntVal(m.width), Both(TextVal(m.encoding),
      Both(OctetVal(m.isBigendian), Both(IntVal(m.step), BlobVal(m.data)))))))
  }
  function CompressedImageVal(m: CompressedImage): (val: Val)
    ensures Shaped(CompressedImageTy(), val)
  {
    Both(HeaderVal(m.header), Both(TextVal(m.format), BlobVal(m.data)))
  }
  function BinningVal(x: i32, y: i32, roi: RegionOfInterest): (val: Val)
    ensures Shaped(BinningTy(), val)
  {
    Both(IntVal(x), Both(IntVal(y), RoiVal(roi)))
  }
  function CloudTailVal(isBigendian: bool, pointStep: i32, rowStep: i32, data: seq<byte>, isDense: bool): (val: Val)
    ensures Shaped(CloudTailTy(), val)
  {
    Both(FlagVal(isBigendian), Both(IntVal(pointStep), Both(IntVal(rowStep), Both(BlobVal(data), FlagVal(isDense)))))
  }
  function CameraInfoVal(m: CameraInfo): (val: Val)
    ensures Shaped(CameraInfoTy(), val)
  {
    Both(HeaderVal(m.header), Both(IntVal(m.height), Both(IntVal(m.width), Both(TextVal(m.distortionModel),
      LensVal(m.d, m.k, m.r, m.p, BinningVal(m.binningX, m.binningY, m.roi))))))
  }
  function LensVal(d: seq<f64>, k: F64x9, r: F64x9, p: F64x12, binning: Val): (val: Val)
    requires Shaped(BinningTy(), binning)
    ensures Shaped(LensTy(), val)
  {
    Both(DoublesVal(d), Both(DoublesVal(k), Both(DoublesVal(r), Both(DoublesVal(p), binning))))
  }
  function PointCloud2Val(m: PointCloud2): (val: Val)
    ensures Shaped(PointCloud2Ty(), val)
  {
    Both(HeaderVal(m.header), Both(IntVal(m.height), Both(IntVal(m.width), Both(List(Vals(FieldVal, m.fields)),
      CloudTailVal(m.isBigendian, m.pointStep, m.rowStep, m.data, m.isDense)))))
  }
  function JointStateVal(m: JointState): (val: Val)
    ensures Shaped(JointStateTy(), val)
  {
    Both(HeaderVal(m.header), Both(List(Vals(TextVal, m.name)),
      Both(DoublesVal(m.position), Both(DoublesVal(m.velocity), DoublesVal(m.effort)))))
  }
  function ScanTailVal(scanTime: f32, rangeMin: f32, rangeMax: f32, ranges: seq<f32>, intensities: seq<f32>): (val: Val)
    ensures Shaped(ScanTailTy(), val)
  {
    Both(WordVal(scanTime), Both(WordVal(rangeMin), Both(WordVal(rangeMax),
      Both(WordsVal(ranges), WordsVal(intensities)))))
  }
  function LaserScanVal(m: LaserScan): (val: Val)
    ensures Shaped(LaserScanTy(), val)
  {
    Both(HeaderVal(m.header),
      Both(WordVal(m.angleMin), Both(WordVal(m.angleMax), Both(WordVal(m.angleIncrement), Both(WordVal(m.timeIncrement),
        ScanTailVal(m.scanTime, m.rangeMin, m.rangeMax, m.ranges, m.intensities))))))
  }

  // ------------------------------------------------------------ the twelve types together

  /** The types `supports` names, in its order (src/cdr.rs:27-43). */
  datatype MsgType =
    | GeometryPoseStamped | GeometryTransformStamped | NavOdometry | NavPath
    | SensorCameraInfo | SensorCompressedImage | SensorImage | SensorImu
    | SensorJointState | SensorLaserScan | SensorPointCloud2 | Tf2TFMessage

  datatype Msg =
    | MPoseStamped(poseStamped: PoseStamped)
    | MTransformStamped(transformStamped: TransformStamped)
    | MOdometry(odometry: Odometry)
    | MPath(path: Path)
    | MCameraInfo(cameraInfo: CameraInfo)
    | MCompressedImage(compressedImage: CompressedImage)
    | MImage(image: Image)
    | MImu(imu: Imu)
    | MJointState(jointState: JointState)
    | MLaserScan(laserScan: LaserScan)
    | MPointCloud2(pointCloud2: PointCloud2)
    | MTFMessage(tfMessage: TFMessage)

  function TypeOf(m: Msg): MsgType {
    match m
    case MPoseStamped(_) => GeometryPoseStamped
    case MTransformStamped(_) => GeometryTransformStamped
    case MOdometry(_) => NavOdometry
    case MPath(_) => NavPath
    case MCameraInfo(_) => SensorCameraInfo
    case MCompressedImage(_) => SensorCompressedImage
    case MImage(_) => SensorImage
    case MImu(_) => SensorImu
    case MJointState(_) => SensorJointState
    case MLaserScan(_) => SensorLaserScan
    case MPointCloud2(_) => SensorPointCloud2
    case MTFMessage(_) => Tf2TFMessage
  }

  function Schema(t: MsgType): Ty {
    match t
    case GeometryPoseStamped => PoseStampedTy()
    case GeometryTransformStamped => TransformStampedTy()
    case NavOdometry => OdometryTy()
    case NavPath => PathTy()
    case SensorCameraInfo => CameraInfoTy()
    case SensorCompressedImage => CompressedImageTy()
    case SensorImage => ImageTy()
    case SensorImu => ImuTy()
    case SensorJointState => JointStateTy()
    case SensorLaserScan => LaserScanTy()
    case SensorPointCloud2 => PointCloud2Ty()
    case Tf2TFMessage => TFMessageTy()
  }

  function MsgVal(m: Msg): (val: Val)
    ensures var isShaped := Shaped(Schema(TypeOf(m)), val); isShaped
  {
    hide Shaped, PoseStampedTy, TransformStampedTy, OdometryTy, PathTy, CameraInfoTy, CompressedImageTy,
      ImageTy, ImuTy, JointStateTy, LaserScanTy, PointCloud2Ty, TFMessageTy,
      PoseStampedVal, TransformStampedVal, OdometryVal, PathVal, CameraInfoVal, CompressedImageVal,
      ImageVal, ImuVal, JointStateVal, LaserScanVal, PointCloud2Val, TFMessageVal;
    match m
    case MPoseStamped(x) => PoseStampedVal(x)
    case MTransformStamped(x) => TransformStampedVal(x)
    case MOdometry(x) => OdometryVal(x)
    case MPath(x) => PathVal(x)
    case MCameraInfo(x) => CameraInfoVal(x)
    case MCompressedImage(x) => CompressedImageVal(x)
    case MImage(x) => ImageVal(x)
    case MImu(x) => ImuVal(x)
    case MJointState(x) => JointStateVal(x)
    case MLaserScan(x) => LaserScanVal(x)
    case MPointCloud2(x) => PointCloud2Val(x)
    case MTFMessage(x) => TFMessageVal(x)
  }

  function NoSeq(h: Header): Header { h.(seqNo := 0) }

  function Each<T>(f: T -> T, xs: seq<T>): (r: seq<T>)
    ensures |r| == |xs|
    ensures forall i :: 0 <= i < |xs| ==> r[i] == f(xs[i])
  {
    seq(|xs|, i requires 0 <= i < |xs| => f(xs[i]))
  }

  function PoseStampedNoSeq(m: PoseStamped): PoseStamped { m.(header := NoSeq(m.header)) }
  function TransformStampedNoSeq(m: TransformStamped): TransformStamped { m.(header := NoSeq(m.header)) }

  /** The message with every `header.seq` it holds set to 0. */
  function WithoutSeq(m: Msg): Msg {
    match m
    case MPoseStamped(x) => MPoseStamped(PoseStampedNoSeq(x))
    case MTransformStamped(x) => MTransformStamped(TransformStampedNoSeq(x))
    case MOdometry(x) => MOdometry(x.(header := NoSeq(x.header)))
    case MPath(x) => MPath(Path(NoSeq(x.header), Each(PoseStampedNoSeq, x.poses)))
    case MCameraInfo(x) => MCameraInfo(x.(header := NoSeq(x.header)))
    case MCompressedImage(x) => MCompressedImage(x.(header := NoSeq(x.header)))
    case MImage(x) => MImage(x.(header := NoSeq(x.header)))
    case MImu(x) => MImu(x.(header := NoSeq(x.header)))
    case MJointState(x) => MJointState(x.(header := NoSeq(x.header)))
    case MLaserScan(x) => MLaserScan(x.(header := NoSeq(x.header)))
    case MPointCloud2(x) => MPointCloud2(x.(header := NoSeq(x.header)))
    case MTFMessage(x) => MTFMessage(TFMessage(Each(TransformStampedNoSeq, x.transforms)))
  }

  // ------------------------------------------------------------ a schema value names one message

  lemma SameVals<T>(f: T -> Val, xs: seq<T>, ys: seq<T>)
    requires Vals(f, xs) == Vals(f, ys)
    ensures |xs| == |ys|
    ensures forall i :: 0 <= i < |xs| ==> f(xs[i]) == f(ys[i])
  {
    assert |Vals(f, xs)| == |Vals(f, ys)|;
    forall i | 0 <= i < |xs|
      ensures f(xs[i]) == f(ys[i])
    {
      assert Vals(f, xs)[i] == Vals(f, ys)[i];
    }
  }

  lemma SameDoubles(xs: seq<f64>, ys: seq<f64>)
    requires DoublesVal(xs) == DoublesVal(ys)
    ensures xs == ys
  {
    SameVals(DoubleVal, xs, ys);
  }

  lemma SameWords(xs: seq<f32>, ys: seq<f32>)
    requires WordsVal(xs) == WordsVal(ys)
    ensures xs == ys
  {
    SameVals(WordVal, xs, ys);
  }

  lemma SameHeader(a: Header, b: Header)
    requires HeaderVal(a) == HeaderVal(b)
    ensures NoSeq(a) == NoSeq(b)
  {
  }

  lemma SamePoseStamped(a: PoseStamped, b: PoseStamped)
    requires PoseStampedVal(a) == PoseStampedVal(b)
    ensures PoseStampedNoSeq(a) == PoseStampedNoSeq(b)
  {
    SameHeader(a.header, b.header);
  }

  lemma SameTransformStamped(a: TransformStamped, b: TransformStamped)
    requires TransformStampedVal(a) == TransformStampedVal(b)
    ensures TransformStampedNoSeq(a) == TransformStampedNoSeq(b)
  {
    SameHeader(a.header, b.header);
  }

  predicate IsPicture(m: Msg) { m.MCameraInfo? || m.MCompressedImage? || m.MImage? || m.MPointCloud2? }

  predicate IsReading(m: Msg) { m.MImu? || m.MJointState? || m.MLaserScan? }

  lemma PictureValueDetermines(a: Msg, b: Msg)
    requires IsPicture(a) && TypeOf(a) == TypeOf(b) && MsgVal(a) == MsgVal(b)
    ensures WithoutSeq(a) == WithoutSeq(b)
  {
    hide Shaped, Valid, Vals, Each, PoseStampedVal, TransformStampedVal, OdometryVal, PathVal, CameraInfoVal,
      CompressedImageVal, ImageVal, ImuVal, JointStateVal, LaserScanVal, PointCloud2Val;
    match a
    case MCameraInfo(x) =>
      SameCameraInfo(x, b.cameraInfo);
      assert WithoutSeq(a) == WithoutSeq(b);
    case MCompressedImage(x) =>
      SameCompressedImage(x, b.compressedImage);
      assert WithoutSeq(a) == WithoutSeq(b);
    case MImage(x) =>
      SameImage(x, b.image);
      assert WithoutSeq(a) == WithoutSeq(b);
    case MPointCloud2(x) =>
      SamePointCloud2(x, b.pointCloud2);
      assert WithoutSeq(a) == WithoutSeq(b);
  }

  lemma ReadingValueDetermines(a: Msg, b: Msg)
    requires IsReading(a) && TypeOf(a) == TypeOf(b) && MsgVal(a) == MsgVal(b)
    ensures WithoutSeq(a) == WithoutSeq(b)
  {
    hide Shaped, Valid, Vals, Each, PoseStampedVal, TransformStampedVal, OdometryVal, PathVal, CameraInfoVal,
      CompressedImageVal, ImageVal, ImuVal, JointStateVal, LaserScanVal, PointCloud2Val;
    match a
    case MImu(x) =>
      SameImu(x, b.imu);
      assert WithoutSeq(a) == WithoutSeq(b);
    case MJointState(x) =>
      SameJointState(x, b.jointState);
      assert WithoutSeq(a) == WithoutSeq(b);
    case MLaserScan(x) =>
      SameLaserScan(x, b.laserScan);
      assert WithoutSeq(a) == WithoutSeq(b);
  }

  lemma OtherValueDetermines(a: Msg, b: Msg)
    requires !IsPicture(a) && !IsReading(a) && TypeOf(a) == TypeOf(b) && MsgVal(a) == MsgVal(b)
    ensures WithoutSeq(a) == WithoutSeq(b)
  {
    hide Shaped, Vals, Each, PoseStampedVal, TransformStampedVal, OdometryVal, PathVal, CameraInfoVal,
      CompressedImageVal, ImageVal, ImuVal, JointStateVal, LaserScanVal, PointCloud2Val;
    match a
    case MPoseStamped(x) =>
      SamePoseStamped(x, b.poseStamped);
      assert WithoutSeq(a) == WithoutSeq(b);
    case MTransformStamped(x) =>
      SameTransformStamped(x, b.transformStamped);
      assert WithoutSeq(a) == WithoutSeq(b);
    case MOdometry(x) =>
      SameOdometry(x, b.odometry);
      assert WithoutSeq(a) == WithoutSeq(b);
    case MPath(x) =>
      SamePath(x, b.path);
      assert WithoutSeq(a) == WithoutSeq(b);
    case MTFMessage(x) =>
      SameTransforms(x.transforms, b.tfMessage.transforms);
      assert WithoutSeq(a) == WithoutSeq(b);
  }

  /** Two messages of one type with the same schema value differ in `header.seq` at most. */
  lemma ValueDetermines(a: Msg, b: Msg)
    requires TypeOf(a) == TypeOf(b) && MsgVal(a) == MsgVal(b)
    ensures WithoutSeq(a) == WithoutSeq(b)
  {
    hide MsgVal, WithoutSeq, TypeOf;
    if IsPicture(a) {
      PictureValueDetermines(a, b);
    } else if IsReading(a) {
      ReadingValueDetermines(a, b);
    } else {
      OtherValueDetermines(a, b);
    }
  }

  lemma SamePath(a: Path, b: Path)
    requires PathVal(a) == PathVal(b)
    ensures NoSeq(a.header) == NoSeq(b.header)
    ensures Each(PoseStampedNoSeq, a.poses) == Each(PoseStampedNoSeq, b.poses)
  {
    hide HeaderVal, Vals, Shaped;
    SameHeader(a.header, b.header);
    SamePoses(a.poses, b.poses);
  }

  lemma SameImage(a: Image, b: Image)
    requires ImageVal(a) == ImageVal(b)
    ensures a.(header := NoSeq(a.header)) == b.(header := NoSeq(b.header))
  {
    hide HeaderVal, Shaped;
    SameHeader(a.header, b.header);
  }

  lemma SameCompressedImage(a: CompressedImage, b: CompressedImage)
    requires CompressedImageVal(a) == CompressedImageVal(b)
    ensures a.(header := NoSeq(a.header)) == b.(header := NoSeq(b.header))
  {
    hide HeaderVal, Shaped;
    SameHeader(a.header, b.header);
  }

  lemma SameJointState(a: JointState, b: JointState)
    requires JointStateVal(a) == JointStateVal(b)
    ensures a.(header := NoSeq(a.header)) == b.(header := NoSeq(b.header))
  {
    hide HeaderVal, DoublesVal, Vals, Shaped;
    SameHeader(a.header, b.header);
    SameNames(a.name, b.name);
    SameDoubles(a.position, b.position);
    SameDoubles(a.velocity, b.velocity);
    SameDoubles(a.effort, b.effort);
  }

  lemma SamePointCloud2(a: PointCloud2, b: PointCloud2)
    requires PointCloud2Val(a) == PointCloud2Val(b)
    ensures a.(header := NoSeq(a.header)) == b.(header := NoSeq(b.header))
  {
    hide HeaderVal, Vals, Shaped;
    SameHeader(a.header, b.header);
    SameFields(a.fields, b.fields);
  }

  lemma SameOdometry(a: Odometry, b: Odometry)
    requires OdometryVal(a) == OdometryVal(b)
    ensures a.(header := NoSeq(a.header)) == b.(header := NoSeq(b.header))
  {
    hide HeaderVal, DoublesVal, Shaped;
    SameHeader(a.header, b.header);
    SameDoubles(a.poseCovariance, b.poseCovariance);
    SameDoubles(a.twistCovariance, b.twistCovariance);
  }

  lemma SameImu(a: Imu, b: Imu)
    requires ImuVal(a) == ImuVal(b)
    ensures a.(header := NoSeq(a.header)) == b.(header := NoSeq(b.header))
  {
    hide HeaderVal, DoublesVal, Shaped;
    SameHeader(a.header, b.header);
    SameDoubles(a.orientationCovariance, b.orientationCovariance);
    SameDoubles(a.angularVelocityCovariance, b.angularVelocityCovariance);
    SameDoubles(a.linearAccelerationCovariance, b.linearAccelerationCovariance);
  }

  lemma SameLaserScan(a: LaserScan, b: LaserScan)
    requires LaserScanVal(a) == LaserScanVal(b)
    ensures a.(header := NoSeq(a.header)) == b.(header := NoSeq(b.header))
  {
    hide HeaderVal, WordsVal, Shaped;
    SameHeader(a.header, b.header);
    SameWords(a.ranges, b.ranges);
    SameWords(a.intensities, b.intensities);
  }

  lemma SameCameraInfo(a: CameraInfo, b: CameraInfo)
    requires CameraInfoVal(a) == CameraInfoVal(b)
    ensures a.(header := NoSeq(a.header)) == b.(header := NoSeq(b.header))
  {
    hide HeaderVal, DoublesVal, Shaped;
    SameHeader(a.header, b.header);
    SameDoubles(a.d, b.d);
    SameDoubles(a.k, b.k);
    SameDoubles(a.r, b.r);
    SameDoubles(a.p, b.p);
  }

  lemma SamePoses(xs: seq<PoseStamped>, ys: seq<PoseStamped>)
    requires Vals(PoseStampedVal, xs) == Vals(PoseStampedVal, ys)
    ensures Each(PoseStampedNoSeq, xs) == Each(PoseStampedNoSeq, ys)
  {
    hide PoseStampedVal;
    SameVals(PoseStampedVal, xs, ys);
    forall i | 0 <= i < |xs|
      ensures PoseStampedNoSeq(xs[i]) == PoseStampedNoSeq(ys[i])
    {
      SamePoseStamped(xs[i], ys[i]);
    }
  }

  lemma SameTransforms(xs: seq<TransformStamped>, ys: seq<TransformStamped>)
    requires Vals(TransformStampedVal, xs) == Vals(TransformStampedVal, ys)
    ensures Each(TransformStampedNoSeq, xs) == Each(TransformStampedNoSeq, ys)
  {
    hide TransformStampedVal;
    SameVals(TransformStampedVal, xs, ys);
    forall i | 0 <= i < |xs|
      ensures TransformStampedNoSeq(xs[i]) == TransformStampedNoSeq(ys[i])
    {
      SameTransformStamped(xs[i], ys[i]);
    }
  }

  lemma SameFields(xs: seq<PointField>, ys: seq<PointField>)
    requires Vals(FieldVal, xs) == Vals(FieldVal, ys)
    ensures xs == ys
  {
    SameVals(FieldVal, xs, ys);
  }

  lemma SameNames(xs: seq<Utf8String>, ys: seq<Utf8String>)
    requires Vals(TextVal, xs) == Vals(TextVal, ys)
    ensures xs == ys
  {
    SameVals(TextVal, xs, ys);
  }

  /** `header.seq` has no place in a ROS 2 message: dropping it changes no schema value. */
  lemma SeqIsNotPrinted(m: Msg)
    ensures TypeOf(WithoutSeq(m)) == TypeOf(m)
    ensures MsgVal(WithoutSeq(m)) == MsgVal(m)
  {
    hide Shaped, HeaderVal, NoSeq, Vals, Each;
    match m
    case MPoseStamped(x) => SeqNotInHeader(x.header);
    case MTransformStamped(x) => SeqNotInHeader(x.header);
    case MOdometry(x) => SeqNotInHeader(x.header);
    case MPath(x) =>
      SeqNotInHeader(x.header);
      SeqNotInPoses(x.poses);
    case MCameraInfo(x) => SeqNotInHeader(x.header);
    case MCompressedImage(x) => SeqNotInHeader(x.header);
    case MImage(x) => SeqNotInHeader(x.header);
    case MImu(x) => SeqNotInHeader(x.header);
    case MJointState(x) => SeqNotInHeader(x.header);
    case MLaserScan(x) => SeqNotInHeader(x.header);
    case MPointCloud2(x) => SeqNotInHeader(x.header);
    case MTFMessage(x) => SeqNotInTransforms(x.transforms);
  }

  lemma SeqNotInHeader(h: Header)
    ensures HeaderVal(NoSeq(h)) == HeaderVal(h)
  {
  }

  lemma SeqIsDroppedOnce(m: Msg)
    ensures WithoutSeq(WithoutSeq(m)) == WithoutSeq(m)
  {
    hide Each;
    match m
    case MPath(x) =>
      SeqNotInPoses(x.poses);
      assert WithoutSeq(WithoutSeq(m)) == WithoutSeq(m);
    case MTFMessage(x) =>
      SeqNotInTransforms(x.transforms);
      assert WithoutSeq(WithoutSeq(m)) == WithoutSeq(m);
    case _ =>
  }

  lemma SeqNotInPoses(xs: seq<PoseStamped>)
    ensures Vals(PoseStampedVal, Each(PoseStampedNoSeq, xs)) == Vals(PoseStampedVal, xs)
    ensures Each(PoseStampedNoSeq, Each(PoseStampedNoSeq, xs)) == Each(PoseStampedNoSeq, xs)
  {
  }

  lemma SeqNotInTransforms(xs: seq<TransformStamped>)
    ensures Vals(TransformStampedVal, Each(TransformStampedNoSeq, xs)) == Vals(TransformStampedVal, xs)
    ensures Each(TransformStampedNoSeq, Each(TransformStampedNoSeq, xs)) == Each(TransformStampedNoSeq, xs)
  {
  }
}
