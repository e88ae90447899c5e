/**
  The twelve types as their ROS 2 definitions lay them out (src/schema.rs), field by field and by
  name, and the proof that what src/cdr.rs prints and reads follows them: the definition stored
  beside a CDR channel describes the bytes on it.
 */
module Layouts {
  import opened Prelude
  import opened Utf8
  import opened Wire
  import opened Messages
  import opened TypeNames
  import opened Cdr
  import opened Stamps

  /** A field of a definition: one value, the fields of another type in its place, or rows of them. */
  datatype Column =
    | Column(name: string, ty: Ty)
    | Nested(name: string, columns: seq<Column>)
    | Rows(name: string, columns: seq<Column>)

  /** A field of a message under its name, and what it holds. */
  datatype Field =
    | Field(name: string, ty: Ty, val: Val)
    | Nest(name: string, fields: seq<Field>)
    | Table(name: string, columns: seq<Column>, lines: seq<Line>)

  datatype Line = Line(fields: seq<Field>)

  // ------------------------------------------------------------ one value after another

  /** What stands on the wire, nesting forgotten: the values in order, and rows of them behind a count. */
  datatype Kind = Plain(ty: Ty) | Grid(kinds: seq<Kind>)
  datatype Cell = One(val: Val) | Many(rows: seq<seq<Cell>>)

  function KindsOf(c: Column): seq<Kind>
    decreases c
  {
    match c
    case Column(_, ty) => [Plain(ty)]
    case Nested(_, columns) => AllKinds(columns)
    case Rows(_, columns) => [Grid(AllKinds(columns))]
  }

  function AllKinds(columns: seq<Column>): seq<Kind>
    decreases columns
  {
    if columns == [] then [] else KindsOf(columns[0]) + AllKinds(columns[1..])
  }

  function CellsOf(f: Field): seq<Cell>
    decreases f
  {
    match f
    case Field(_, _, val) => [One(val)]
    case Nest(_, fields) => AllCells(fields)
    case Table(_, _, lines) => [Many(seq(|lines|, i requires 0 <= i < |lines| => AllCells(lines[i].fields)))]
  }

  function AllCells(fields: seq<Field>): seq<Cell>
    decreases fields
  {
    if fields == [] then [] else CellsOf(fields[0]) + AllCells(fields[1..])
  }

  function ColumnOf(f: Field): Column
    decreases f
  {
    match f
    case Field(name, ty, _) => Column(name, ty)
    case Nest(name, fields) => Nested(name, ColumnsOf(fields))
    case Table(name, columns, _) => Rows(name, columns)
  }

  function ColumnsOf(fields: seq<Field>): seq<Column>
    decreases fields
  {
    seq(|fields|, i requires 0 <= i < |fields| => ColumnOf(fields[i]))
  }

  /** One more column in front. */
  function Also(c: Column, rest: seq<Column>): (r: seq<Column>)
    ensures r == [c] + rest
    ensures AllKinds(r) == KindsOf(c) + AllKinds(rest)
    ensures rest == [] ==> AllKinds(r) == KindsOf(c)
  {
    assert ([c] + rest)[1..] == rest;
    [c] + rest
  }

  /** One more field in front. */
  function Then(f: Field, rest: seq<Field>): (r: seq<Field>)
    ensures r == [f] + rest
    ensures AllCells(r) == CellsOf(f) + AllCells(rest)
    ensures rest == [] ==> AllCells(r) == CellsOf(f)
    ensures ColumnsOf(r) == [ColumnOf(f)] + ColumnsOf(rest)
    ensures rest == [] ==> ColumnsOf(r) == [ColumnOf(f)]
  {
    assert ([f] + rest)[1..] == rest;
    [f] + rest
  }

  // ------------------------------------------------------------ the same, of a schema

  function Kinds(ty: Ty): (kinds: seq<Kind>)
    ensures kinds != []
  {
    match ty
    case Pair(t, u) => Kinds(t) + Kinds(u)
    case Sequence(e) => if e.Pair? then [Grid(Kinds(e))] else [Plain(ty)]
    case _ => [Plain(ty)]
  }

  function Cells(ty: Ty, v: Val): (cells: seq<Cell>)
    ensures |cells| == |Kinds(ty)|
    decreases ty
  {
    match ty
    case Pair(t, u) =>
      Cells(t, if v.Both? then v.a else v) + Cells(u, if v.Both? then v.b else v)
    case Sequence(e) =>
      if e.Pair? && v.List? then [Many(seq(|v.items|, i requires 0 <= i < |v.items| => Cells(e, v.items[i])))]
      else [One(v)]
    case _ => [One(v)]
  }

  // ------------------------------------------------------------ printing and reading field by field

  ghost function PutCells(little: bool, kinds: seq<Kind>, cells: seq<Cell>, body: seq<byte>): seq<byte>
    decreases kinds, 0
  {
    if kinds == [] || cells == [] then body
    else PutCells(little, kinds[1..], cells[1..], PutCell(little, kinds[0], cells[0], body))
  }

  ghost function PutCell(little: bool, kind: Kind, cell: Cell, body: seq<byte>): seq<byte>
    decreases kind, 0
  {
    match (kind, cell)
    case (Plain(ty), One(val)) => if Shaped(ty, val) then Put(little, ty, val, body) else body
    case (Grid(kinds), Many(rows)) => PutRows(little, kinds, rows, PutWord(little, Truncated(|rows|), body))
    case _ => body
  }

  ghost function PutRows(little: bool, kinds: seq<Kind>, rows: seq<seq<Cell>>, body: seq<byte>): seq<byte>
    decreases kinds, |rows| + 1
  {
    if rows == [] then body
    else PutCells(little, kinds, rows[|rows| - 1], PutRows(little, kinds, rows[..|rows| - 1], body))
  }

  function ReadCells(little: bool, kinds: seq<Kind>, body: seq<byte>, pos: nat): Option<(seq<Cell>, nat)>
    decreases kinds, 0
  {
    if kinds == [] then Some(([], pos))
    else
      match ReadCell(little, kinds[0], body, pos)
      case None => None
      case Some((cell, at)) =>
        match ReadCells(little, kinds[1..], body, at)
        case None => None
        case Some((cells, end)) => Some(([cell] + cells, end))
  }

  function ReadCell(little: bool, kind: Kind, body: seq<byte>, pos: nat): Option<(Cell, nat)>
    decreases kind, 0
  {
    match kind
    case Plain(ty) =>
      (match Parse(little, ty, body, pos)
       case None => None
       case Some((v, end)) => Some((One(v), end)))
    case Grid(kinds) =>
      (match TakeNumber(little, body, pos, 4)
       case None => None
       case Some((n, at)) =>
         match ReadRows(little, kinds, n, body, at)
         case None => None
         case Some((rows, end)) => Some((Many(rows), end)))
  }

  function ReadRows(little: bool, kinds: seq<Kind>, n: nat, body: seq<byte>, pos: nat): Option<(seq<seq<Cell>>, nat)>
    decreases kinds, n + 1
  {
    if n == 0 then Some(([], pos))
    else
      match ReadRows(little, kinds, n - 1, body, pos)
      case None => None
      case Some((rows, at)) =>
        match ReadCells(little, kinds, body, at)
        case None => None
        case Some((row, end)) => Some((rows + [row], end))
  }

  lemma {:induction false} PutBoth(little: bool, k: seq<Kind>, l: seq<Kind>, a: seq<Cell>, b: seq<Cell>,
      body: seq<byte>)
    requires |k| == |a|
    ensures PutCells(little, k + l, a + b, body) == PutCells(little, l, b, PutCells(little, k, a, body))
    decreases |k|
  {
    if k == [] {
      assert k + l == l && a + b == b;
    } else {
      assert (k + l)[1..] == k[1..] + l && (a + b)[1..] == a[1..] + b;
      PutBoth(little, k[1..], l, a[1..], b, PutCell(little, k[0], a[0], body));
    }
  }

  lemma {:induction false} ReadBoth(little: bool, k: seq<Kind>, l: seq<Kind>, body: seq<byte>, pos: nat)
    ensures ReadCells(little, k + l, body, pos)
         == match ReadCells(little, k, body, pos)
            case None => None
            case Some((a, at)) =>
              match ReadCells(little, l, body, at)
              case None => None
              case Some((b, end)) => Some((a + b, end))
    decreases |k|
  {
    if k == [] {
      assert k + l == l;
      assert forall b: seq<Cell> :: [] + b == b;
    } else {
      assert (k + l)[1..] == k[1..] + l;
      var first := ReadCell(little, k[0], body, pos);
      if first.Some? {
        var (cell, at) := first.value;
        ReadBoth(little, k[1..], l, body, at);
        var rest := ReadCells(little, k[1..], body, at);
        if rest.Some? {
          var last := ReadCells(little, l, body, rest.value.1);
          if last.Some? { assert [cell] + rest.value.0 + last.value.0 == [cell] + (rest.value.0 + last.value.0); }
        }
      }
    }
  }

  /** Printing a value is printing what it consists of, one after another, as its type lists it. */
  lemma {:induction false} PutsCells(little: bool, ty: Ty, v: Val, body: seq<byte>)
    requires Shaped(ty, v)
    ensures Put(little, ty, v, body) == PutCells(little, Kinds(ty), Cells(ty, v), body)
    decreases ty, 0
  {
    match ty
    case Pair(t, u) =>
      PutsCells(little, t, v.a, body);
      PutsCells(little, u, v.b, Put(little, t, v.a, body));
      PutBoth(little, Kinds(t), Kinds(u), Cells(t, v.a), Cells(u, v.b), body);
    case Sequence(e) =>
      if e.Pair? { PutsRows(little, e, v.items, PutWord(little, Truncated(|v.items|), body)); }
      OnePut(little, Kinds(ty)[0], Cells(ty, v)[0], body);
    case _ => OnePut(little, Kinds(ty)[0], Cells(ty, v)[0], body);
  }

  lemma OnePut(little: bool, kind: Kind, cell: Cell, body: seq<byte>)
    ensures PutCells(little, [kind], [cell], body) == PutCell(little, kind, cell, body)
  {
  }

  function RowsOf(e: Ty, items: seq<Val>): seq<seq<Cell>> {
    seq(|items|, i requires 0 <= i < |items| => Cells(e, items[i]))
  }

  lemma {:induction false} PutsRows(little: bool, e: Ty, items: seq<Val>, body: seq<byte>)
    requires AllShaped(e, items)
    ensures PutAll(little, e, items, body) == PutRows(little, Kinds(e), RowsOf(e, items), body)
    decreases e, |items| + 1
  {
    hide Kinds, Cells, Put, PutCells;
    if items != [] {
      var front, last := items[..|items| - 1], items[|items| - 1];
      assert RowsOf(e, items)[..|items| - 1] == RowsOf(e, front);
      PutsRows(little, e, front, body);
      PutsCells(little, e, last, PutAll(little, e, front, body));
    }
  }

  /** And so is reading it: both fail together, end together and find the same. */
  lemma {:induction false} ReadsCells(little: bool, ty: Ty, body: seq<byte>, pos: nat)
    ensures ReadCells(little, Kinds(ty), body, pos)
         == match Parse(little, ty, body, pos)
            case None => None
            case Some((v, end)) => Some((Cells(ty, v), end))
    decreases ty, 0
  {
    match ty
    case Pair(t, u) =>
      ReadsCells(little, t, body, pos);
      ReadBoth(little, Kinds(t), Kinds(u), body, pos);
      var first := Parse(little, t, body, pos);
      if first.Some? { ReadsCells(little, u, body, first.value.1); }
    case Sequence(e) =>
      OneRead(little, Kinds(ty)[0], body, pos);
      if e.Pair? {
        var counted := TakeNumber(little, body, pos, 4);
        if counted.Some? { ReadsRows(little, e, counted.value.0, body, counted.value.1); }
      }
    case _ => OneRead(little, Kinds(ty)[0], body, pos);
  }

  lemma OneRead(little: bool, kind: Kind, body: seq<byte>, pos: nat)
    ensures ReadCells(little, [kind], body, pos)
         == match ReadCell(little, kind, body, pos)
            case None => None
            case Some((cell, end)) => Some(([cell], end))
  {
    assert [kind][1..] == [];
    var one := ReadCell(little, kind, body, pos);
    if one.Some? {
      assert ReadCells(little, [], body, one.value.1) == Some(([], one.value.1));
      assert [one.value.0] + [] == [one.value.0];
    }
  }

  lemma {:induction false} ReadsRows(little: bool, e: Ty, n: nat, body: seq<byte>, pos: nat)
    ensures ReadRows(little, Kinds(e), n, body, pos)
         == match ParseAll(little, e, n, body, pos)
            case None => None
            case Some((items, end)) => Some((RowsOf(e, items), end))
    decreases e, n + 1
  {
    hide Kinds, Cells, Parse, ReadCells;
    if n == 0 {
      assert RowsOf(e, []) == [];
    } else {
      ReadsRows(little, e, n - 1, body, pos);
      var front := ParseAll(little, e, n - 1, body, pos);
      if front.Some? {
        ReadsCells(little, e, body, front.value.1);
        var last := Parse(little, e, body, front.value.1);
        if last.Some? {
          assert RowsOf(e, front.value.0 + [last.value.0]) == RowsOf(e, front.value.0) + [Cells(e, last.value.0)];
        }
      }
    }
  }

  // ------------------------------------------------------------ the definitions, as src/schema.rs spells them

  function TimeDef(): seq<Column> {
    Also(Column("sec", Word), Also(Column("nanosec", Word), []))
  }

  function HeaderDef(): seq<Column> {
    Also(Nested("stamp", TimeDef()), Also(Column("frame_id", Text), []))
  }

  function Vector3Def(): seq<Column> {
    Also(Column("x", Double), Also(Column("y", Double), Also(Column("z", Double), [])))
  }

  function PointDef(): seq<Column> {
    Also(Column("x", Double), Also(Column("y", Double), Also(Column("z", Double), [])))
  }

  function QuaternionDef(): seq<Column> {
    Also(Column("x", Double), Also(Column("y", Double), Also(Column("z", Double), Also(Column("w", Double), []))))
  }

  function PoseDef(): seq<Column> {
    Also(Nested("position", PointDef()), Also(Nested("orientation", QuaternionDef()), []))
  }

  function TwistDef(): seq<Column> {
    Also(Nested("linear", Vector3Def()), Also(Nested("angular", Vector3Def()), []))
  }

  function TransformDef(): seq<Column> {
    Also(Nested("translation", Vector3Def()), Also(Nested("rotation", QuaternionDef()), []))
  }

  function RegionOfInterestDef(): seq<Column> {
    Also(Column("x_offset", Word), Also(Column("y_offset", Word), Also(Column("height", Word),
      Also(Column("width", Word), Also(Column("do_rectify", Flag), [])))))
  }

  function PointFieldDef(): seq<Column> {
    Also(Column("name", Text), Also(Column("offset", Word), Also(Column("datatype", Octet),
      Also(Column("count", Word), []))))
  }

  function PoseStampedDef(): seq<Column> {
    Also(Nested("header", HeaderDef()), Also(Nested("pose", PoseDef()), []))
  }

  function TransformStampedDef(): seq<Column> {
    Also(Nested("header", HeaderDef()), Also(Column("child_frame_id", Text),
      Also(Nested("transform", TransformDef()), [])))
  }

  function PoseWithCovarianceDef(): seq<Column> {
    Also(Nested("pose", PoseDef()), Also(Column("covariance", Array(36, Double)), []))
  }

  function TwistWithCovarianceDef(): seq<Column> {
    Also(Nested("twist", TwistDef()), Also(Column("covariance", Array(36, Double)), []))
  }

  function OdometryDef(): seq<Column> {
    Also(Nested("header", HeaderDef()), Also(Column("child_frame_id", Text),
      Also(Nested("pose", PoseWithCovarianceDef()), Also(Nested("twist", TwistWithCovarianceDef()), []))))
  }

  function PathDef(): seq<Column> {
    Also(Nested("header", HeaderDef()), Also(Rows("poses", PoseStampedDef()), []))
  }

  function ImuDef(): seq<Column> {
    Also(Nested("header", HeaderDef()), Also(Nested("orientation", QuaternionDef()),
      Also(Column("orientation_covariance", Array(9, Double)), Also(Nested("angular_velocity", Vector3Def()),
      Also(Column("angular_velocity_covariance", Array(9, Double)),
      Also(Nested("linear_acceleration", Vector3Def()),
      Also(Column("linear_acceleration_covariance", Array(9, Double)), [])))))))
  }

  function ImageDef(): seq<Column> {
    Also(Nested("header", HeaderDef()), Also(Column("height", Word), Also(Column("width", Word),
      Also(Column("encoding", Text), Also(Column("is_bigendian", Octet), Also(Column("step", Word),
      Also(Column("data", Blob), [])))))))
  }

  function CompressedImageDef(): seq<Column> {
    Also(Nested("header", HeaderDef()), Also(Column("format", Text), Also(Column("data", Blob), [])))
  }

  function LensDef(): seq<Column> {
    Also(Column("d", Sequence(Double)), Also(Column("k", Array(9, Double)), Also(Column("r", Array(9, Double)),
      Also(Column("p", Array(12, Double)), Also(Column("binning_x", Word), Also(Column("binning_y", Word),
      Also(Nested("roi", RegionOfInterestDef()), [])))))))
  }

  function CameraInfoDef(): seq<Column> {
    Also(Nested("header", HeaderDef()), Also(Column("height", Word), Also(Column("width", Word),
      Also(Column("distortion_model", Text), LensDef()))))
  }

  function CloudTailDef(): seq<Column> {
    Also(Column("is_bigendian", Flag), Also(Column("point_step", Word), Also(Column("row_step", Word),
      Also(Column("data", Blob), Also(Column("is_dense", Flag), [])))))
  }

  function PointCloud2Def(): seq<Column> {
    Also(Nested("header", HeaderDef()), Also(Column("height", Word), Also(Column("width", Word),
      Also(Rows("fields", PointFieldDef()), CloudTailDef()))))
  }

  function JointStateDef(): seq<Column> {
    Also(Nested("header", HeaderDef()), Also(Column("name", Sequence(Text)),
      Also(Column("position", Sequence(Double)), Also(Column("velocity", Sequence(Double)),
      Also(Column("effort", Sequence(Double)), [])))))
  }

  function LaserScanDef(): seq<Column> {
    Also(Nested("header", HeaderDef()), Also(Column("angle_min", Word), Also(Column("angle_max", Word),
      Also(Column("angle_increment", Word), Also(Column("time_increment", Word), ScanTailDef())))))
  }

  function ScanTailDef(): seq<Column> {
    Also(Column("scan_time", Word), Also(Column("range_min", Word), Also(Column("range_max", Word),
      Also(Column("ranges", Sequence(Word)), Also(Column("intensities", Sequence(Word)), [])))))
  }

  function TFMessageDef(): seq<Column> {
    Also(Rows("transforms", TransformStampedDef()), [])
  }

  /** The definition of each of the twelve types. */
  function Definition(t: MsgType): seq<Column> {
    match t
    case GeometryPoseStamped => PoseStampedDef()
    case GeometryTransformStamped => TransformStampedDef()
    case NavOdometry => OdometryDef()
    case NavPath => PathDef()
    case SensorCameraInfo => CameraInfoDef()
    case SensorCompressedImage => CompressedImageDef()
    case SensorImage => ImageDef()
    case SensorImu => ImuDef()
    case SensorJointState => JointStateDef()
    case SensorLaserScan => LaserScanDef()
    case SensorPointCloud2 => PointCloud2Def()
    case Tf2TFMessage => TFMessageDef()
  }

  // ------------------------------------------------------------ the fields of a message, by name

  function Lines<T>(f: T -> seq<Field>, xs: seq<T>): (lines: seq<Line>)
    ensures |lines| == |xs|
    ensures forall i :: 0 <= i < |xs| ==> lines[i] == Line(f(xs[i]))
  {
    seq(|xs|, i requires 0 <= i < |xs| => Line(f(xs[i])))
  }

  function TimeFields(m: Time): seq<Field> {
    Then(Field("sec", Word, IntVal(m.sec)), Then(Field("nanosec", Word, IntVal(m.nsec)), []))
  }

  function HeaderFields(m: Header): seq<Field> {
    Then(Nest("stamp", TimeFields(m.stamp)), Then(Field("frame_id", Text, TextVal(m.frameId)), []))
  }

  function Vector3Fields(m: Vector3): seq<Field> {
    Then(Field("x", Double, DoubleVal(m.x)), Then(Field("y", Double, DoubleVal(m.y)),
      Then(Field("z", Double, DoubleVal(m.z)), [])))
  }

  function PointFields(m: Point): seq<Field> {
    Then(Field("x", Double, DoubleVal(m.x)), Then(Field("y", Double, DoubleVal(m.y)),
      Then(Field("z", Double, DoubleVal(m.z)), [])))
  }

  function QuaternionFields(m: Quaternion): seq<Field> {
    Then(Field("x", Double, DoubleVal(m.x)), Then(Field("y", Double, DoubleVal(m.y)),
      Then(Field("z", Double, DoubleVal(m.z)), Then(Field("w", Double, DoubleVal(m.w)), []))))
  }

  function PoseFields(m: Pose): seq<Field> {
    Then(Nest("position", PointFields(m.position)), Then(Nest("orientation", QuaternionFields(m.orientation)), []))
  }

  function TwistFields(m: Twist): seq<Field> {
    Then(Nest("linear", Vector3Fields(m.linear)), Then(Nest("angular", Vector3Fields(m.angular)), []))
  }

  function TransformFields(m: Transform): seq<Field> {
    Then(Nest("translation", Vector3Fields(m.translation)),
      Then(Nest("rotation", QuaternionFields(m.rotation)), []))
  }

  function RegionOfInterestFields(m: RegionOfInterest): seq<Field> {
    Then(Field("x_offset", Word, IntVal(m.xOffset)), Then(Field("y_offset", Word, IntVal(m.yOffset)),
      Then(Field("height", Word, IntVal(m.height)), Then(Field("width", Word, IntVal(m.width)),
      Then(Field("do_rectify", Flag, FlagVal(m.doRectify)), [])))))
  }

  function PointFieldFields(m: PointField): seq<Field> {
    Then(Field("name", Text, TextVal(m.name)), Then(Field("offset", Word, IntVal(m.offset)),
      Then(Field("datatype", Octet, OctetVal(m.datatype_)), Then(Field("count", Word, IntVal(m.count)), []))))
  }

  function PoseStampedFields(m: PoseStamped): seq<Field> {
    Then(Nest("header", HeaderFields(m.header)), Then(Nest("pose", PoseFields(m.pose)), []))
  }

  function TransformStampedFields(m: TransformStamped): seq<Field> {
    Then(Nest("header", HeaderFields(m.header)), Then(Field("child_frame_id", Text, TextVal(m.childFrameId)),
      Then(Nest("transform", TransformFields(m.transform)), [])))
  }

  function PoseWithCovarianceFields(m: Odometry): seq<Field> {
    Then(Nest("pose", PoseFields(m.pose)),
      Then(Field("covariance", Array(36, Double), DoublesVal(m.poseCovariance)), []))
  }

  function TwistWithCovarianceFields(m: Odometry): seq<Field> {
    Then(Nest("twist", TwistFields(m.twist)),
      Then(Field("covariance", Array(36, Double), DoublesVal(m.twistCovariance)), []))
  }

  function OdometryFields(m: Odometry): seq<Field> {
    Then(Nest("header", HeaderFields(m.header)), Then(Field("child_frame_id", Text, TextVal(m.childFrameId)),
      Then(Nest("pose", PoseWithCovarianceFields(m)), Then(Nest("twist", TwistWithCovarianceFields(m)), []))))
  }

  function PathFields(m: Path): seq<Field> {
    Then(Nest("header", HeaderFields(m.header)),
      Then(Table("poses", PoseStampedDef(), Lines(PoseStampedFields, m.poses)), []))
  }

  function ImuFields(m: Imu): seq<Field> {
    Then(Nest("header", HeaderFields(m.header)), Then(Nest("orientation", QuaternionFields(m.orientation)),
      Then(Field("orientation_covariance", Array(9, Double), DoublesVal(m.orientationCovariance)),
      Then(Nest("angular_velocity", Vector3Fields(m.angularVelocity)),
      Then(Field("angular_velocity_covariance", Array(9, Double), DoublesVal(m.angularVelocityCovariance)),
      Then(Nest("linear_acceleration", Vector3Fields(m.linearAcceleration)),
      Then(Field("linear_acceleration_covariance", Array(9, Double), DoublesVal(m.linearAccelerationCovariance)),
          [])))))))
  }

  function ImageFields(m: Image): seq<Field> {
    Then(Nest("header", HeaderFields(m.header)), Then(Field("height", Word, IntVal(m.height)),
      Then(Field("width", Word, IntVal(m.width)), Then(Field("encoding", Text, TextVal(m.encoding)),
      Then(Field("is_bigendian", Octet, OctetVal(m.isBigendian)), Then(Field("step", Word, IntVal(m.step)),
      Then(Field("data", Blob, BlobVal(m.data)), [])))))))
  }

  function CompressedImageFields(m: CompressedImage): seq<Field> {
    Then(Nest("header", HeaderFields(m.header)), Then(Field("format", Text, TextVal(m.format)),
      Then(Field("data", Blob, BlobVal(m.data)), [])))
  }

  function LensFields(m: CameraInfo): seq<Field> {
    Then(Field("d", Sequence(Double), DoublesVal(m.d)), Then(Field("k", Array(9, Double), DoublesVal(m.k)),
      Then(Field("r", Array(9, Double), DoublesVal(m.r)), Then(Field("p", Array(12, Double), DoublesVal(m.p)),
      Then(Field("binning_x", Word, IntVal(m.binningX)), Then(Field("binning_y", Word, IntVal(m.binningY)),
      Then(Nest("roi", RegionOfInterestFields(m.roi)), [])))))))
  }

  function CameraInfoFields(m: CameraInfo): seq<Field> {
    Then(Nest("header", HeaderFields(m.header)), Then(Field("height", Word, IntVal(m.height)),
      Then(Field("width", Word, IntVal(m.width)),
      Then(Field("distortion_model", Text, TextVal(m.distortionModel)), LensFields(m)))))
  }

  function CloudTailFields(m: PointCloud2): seq<Field> {
    Then(Field("is_bigendian", Flag, FlagVal(m.isBigendian)),
      Then(Field("point_step", Word, IntVal(m.pointStep)), Then(Field("row_step", Word, IntVal(m.rowStep)),
      Then(Field("data", Blob, BlobVal(m.data)), Then(Field("is_dense", Flag, FlagVal(m.isDense)), [])))))
  }

  function PointCloud2Fields(m: PointCloud2): seq<Field> {
    Then(Nest("header", HeaderFields(m.header)), Then(Field("height", Word, IntVal(m.height)),
      Then(Field("width", Word, IntVal(m.width)),
      Then(Table("fields", PointFieldDef(), Lines(PointFieldFields, m.fields)), CloudTailFields(m)))))
  }

  function JointStateFields(m: JointState): seq<Field> {
    Then(Nest("header", HeaderFields(m.header)),
      Then(Field("name", Sequence(Text), List(Vals(TextVal, m.name))),
      Then(Field("position", Sequence(Double), DoublesVal(m.position)),
      Then(Field("velocity", Sequence(Double), DoublesVal(m.velocity)),
      Then(Field("effort", Sequence(Double), DoublesVal(m.effort)), [])))))
  }

  function LaserScanFields(m: LaserScan): seq<Field> {
    Then(Nest("header", HeaderFields(m.header)), Then(Field("angle_min", Word, WordVal(m.angleMin)),
      Then(Field("angle_max", Word, WordVal(m.angleMax)),
      Then(Field("angle_increment", Word, WordVal(m.angleIncrement)),
      Then(Field("time_increment", Word, WordVal(m.timeIncrement)), ScanTailFields(m))))))
  }

  function ScanTailFields(m: LaserScan): seq<Field> {
    Then(Field("scan_time", Word, WordVal(m.scanTime)), Then(Field("range_min", Word, WordVal(m.rangeMin)),
      Then(Field("range_max", Word, WordVal(m.rangeMax)),
      Then(Field("ranges", Sequence(Word), WordsVal(m.ranges)),
      Then(Field("intensities", Sequence(Word), WordsVal(m.intensities)), [])))))
  }

  function TFMessageFields(m: TFMessage): seq<Field> {
    Then(Table("transforms", TransformStampedDef(), Lines(TransformStampedFields, m.transforms)), [])
  }

  function FieldsOf(m: Msg): seq<Field> {
    match m
    case MPoseStamped(x) => PoseStampedFields(x)
    case MTransformStamped(x) => TransformStampedFields(x)
    case MOdometry(x) => OdometryFields(x)
    case MPath(x) => PathFields(x)
    case MCameraInfo(x) => CameraInfoFields(x)
    case MCompressedImage(x) => CompressedImageFields(x)
    case MImage(x) => ImageFields(x)
    case MImu(x) => ImuFields(x)
    case MJointState(x) => JointStateFields(x)
    case MLaserScan(x) => LaserScanFields(x)
    case MPointCloud2(x) => PointCloud2Fields(x)
    case MTFMessage(x) => TFMessageFields(x)
  }

  // ------------------------------------------------------------ type by type

  lemma TableLaidOut<T>(e: Ty, val: T -> Val, fields: T -> seq<Field>, name: string, columns: seq<Column>, xs: seq<T>)
    requires e.Pair?
    requires forall i :: 0 <= i < |xs| ==> Cells(e, val(xs[i])) == AllCells(fields(xs[i]))
    ensures Cells(Sequence(e), List(Vals(val, xs))) == CellsOf(Table(name, columns, Lines(fields, xs)))
  {
    var lines, items := Lines(fields, xs), Vals(val, xs);
    assert seq(|items|, i requires 0 <= i < |items| => Cells(e, items[i]))
        == seq(|lines|, i requires 0 <= i < |lines| => AllCells(lines[i].fields));
  }

  lemma TimeKinds()
    ensures AllKinds(TimeDef()) == Kinds(Pair(Word, Word))
  {
    hide AllKinds, Also;
  }

  lemma TimeNames(m: Time)
    ensures ColumnsOf(TimeFields(m)) == TimeDef()
  {
    hide AllKinds, AllCells, CellsOf, ColumnsOf;
  }

  lemma TimeCells(m: Time)
    ensures Cells(Pair(Word, Word), Both(IntVal(m.sec), IntVal(m.nsec))) == AllCells(TimeFields(m))
  {
    hide Shaped, Valid, Kinds, ColumnsOf, AllCells, Then;
  }

  lemma HeaderKinds()
    ensures AllKinds(HeaderDef()) == Kinds(HeaderTy())
  {
    TimeKinds();
    hide TimeDef, AllKinds, Also;
  }

  lemma HeaderNames(m: Header)
    ensures ColumnsOf(HeaderFields(m)) == HeaderDef()
  {
    TimeNames(m.stamp);
    hide TimeDef, TimeFields, AllKinds, AllCells, CellsOf, ColumnsOf;
  }

  lemma HeaderCells(m: Header)
    ensures Cells(HeaderTy(), HeaderVal(m)) == AllCells(HeaderFields(m))
  {
    TimeCells(m.stamp);
    hide TimeFields, Shaped, Valid, Kinds, ColumnsOf, AllCells, Then;
  }

  lemma Vector3Kinds()
    ensures AllKinds(Vector3Def()) == Kinds(Vector3Ty())
  {
    hide AllKinds, Also;
  }

  lemma Vector3Names(m: Vector3)
    ensures ColumnsOf(Vector3Fields(m)) == Vector3Def()
  {
    hide AllKinds, AllCells, CellsOf, ColumnsOf;
  }

  lemma Vector3Cells(m: Vector3)
    ensures Cells(Vector3Ty(), Vector3Val(m)) == AllCells(Vector3Fields(m))
  {
    hide Shaped, Valid, Kinds, ColumnsOf, AllCells, Then;
  }

  lemma PointKinds()
    ensures AllKinds(PointDef()) == Kinds(Vector3Ty())
  {
    hide AllKinds, Also;
  }

  lemma PointNames(m: Point)
    ensures ColumnsOf(PointFields(m)) == PointDef()
  {
    hide AllKinds, AllCells, CellsOf, ColumnsOf;
  }

  lemma PointCells(m: Point)
    ensures Cells(Vector3Ty(), PointVal(m)) == AllCells(PointFields(m))
  {
    hide Shaped, Valid, Kinds, ColumnsOf, AllCells, Then;
  }

  lemma QuaternionKinds()
    ensures AllKinds(QuaternionDef()) == Kinds(QuaternionTy())
  {
    hide AllKinds, Also;
  }

  lemma QuaternionNames(m: Quaternion)
    ensures ColumnsOf(QuaternionFields(m)) == QuaternionDef()
  {
    hide AllKinds, AllCells, CellsOf, ColumnsOf;
  }

  lemma QuaternionCells(m: Quaternion)
    ensures Cells(QuaternionTy(), QuaternionVal(m)) == AllCells(QuaternionFields(m))
  {
    hide Shaped, Valid, Kinds, ColumnsOf, AllCells, Then;
  }

  lemma PoseKinds()
    ensures AllKinds(PoseDef()) == Kinds(PoseTy())
  {
    PointKinds();
    QuaternionKinds();
    hide PointDef, QuaternionDef, Vector3Ty, QuaternionTy, AllKinds, Also;
  }

  lemma PoseNames(m: Pose)
    ensures ColumnsOf(PoseFields(m)) == PoseDef()
  {
    PointNames(m.position);
    QuaternionNames(m.orientation);
    hide PointDef, QuaternionDef, PointFields, QuaternionFields, AllKinds, AllCells, CellsOf, ColumnsOf;
  }

  lemma PoseCells(m: Pose)
    ensures Cells(PoseTy(), PoseVal(m)) == AllCells(PoseFields(m))
  {
    PointCells(m.position);
    QuaternionCells(m.orientation);
    hide PointFields, QuaternionFields, Vector3Ty, QuaternionTy, PointVal, QuaternionVal, Shaped, Valid, Kinds,
      ColumnsOf,
      AllCells, Then;
  }

  lemma TwistKinds()
    ensures AllKinds(TwistDef()) == Kinds(TwistTy())
  {
    Vector3Kinds();
    hide Vector3Def, Vector3Ty, AllKinds, Also;
  }

  lemma TwistNames(m: Twist)
    ensures ColumnsOf(TwistFields(m)) == TwistDef()
  {
    Vector3Names(m.linear);
    Vector3Names(m.angular);
    hide Vector3Def, Vector3Fields, AllKinds, AllCells, CellsOf, ColumnsOf;
  }

  lemma TwistCells(m: Twist)
    ensures Cells(TwistTy(), TwistVal(m)) == AllCells(TwistFields(m))
  {
    Vector3Cells(m.linear);
    Vector3Cells(m.angular);
    hide Vector3Fields, Vector3Ty, Vector3Val, Shaped, Valid, Kinds, ColumnsOf, AllCells, Then;
  }

  lemma TransformKinds()
    ensures AllKinds(TransformDef()) == Kinds(TransformTy())
  {
    Vector3Kinds();
    QuaternionKinds();
    hide Vector3Def, QuaternionDef, Vector3Ty, QuaternionTy, AllKinds, Also;
  }

  lemma TransformNames(m: Transform)
    ensures ColumnsOf(TransformFields(m)) == TransformDef()
  {
    Vector3Names(m.translation);
    QuaternionNames(m.rotation);
    hide Vector3Def, QuaternionDef, Vector3Fields, QuaternionFields, AllKinds, AllCells, CellsOf, ColumnsOf;
  }

  lemma TransformCells(m: Transform)
    ensures Cells(TransformTy(), TransformVal(m)) == AllCells(TransformFields(m))
  {
    Vector3Cells(m.translation);
    QuaternionCells(m.rotation);
    hide Vector3Fields, QuaternionFields, Vector3Ty, QuaternionTy, Vector3Val, QuaternionVal, Shaped, Valid, Kinds,
      ColumnsOf,
      AllCells, Then;
  }

  lemma RegionOfInterestKinds()
    ensures AllKinds(RegionOfInterestDef()) == Kinds(RoiTy())
  {
    hide AllKinds, Also;
  }

  lemma RegionOfInterestNames(m: RegionOfInterest)
    ensures ColumnsOf(RegionOfInterestFields(m)) == RegionOfInterestDef()
  {
    hide AllKinds, AllCells, CellsOf, ColumnsOf;
  }

  lemma RegionOfInterestCells(m: RegionOfInterest)
    ensures Cells(RoiTy(), RoiVal(m)) == AllCells(RegionOfInterestFields(m))
  {
    hide Shaped, Valid, Kinds, ColumnsOf, AllCells, Then;
  }

  lemma PointFieldKinds()
    ensures AllKinds(PointFieldDef()) == Kinds(FieldTy())
  {
    hide AllKinds, Also;
  }

  lemma PointFieldNames(m: PointField)
    ensures ColumnsOf(PointFieldFields(m)) == PointFieldDef()
  {
    hide AllKinds, AllCells, CellsOf, ColumnsOf;
  }

  lemma PointFieldCells(m: PointField)
    ensures Cells(FieldTy(), FieldVal(m)) == AllCells(PointFieldFields(m))
  {
    hide Shaped, Valid, Kinds, ColumnsOf, AllCells, Then;
  }

  lemma PoseStampedKinds()
    ensures AllKinds(PoseStampedDef()) == Kinds(PoseStampedTy())
  {
    HeaderKinds();
    PoseKinds();
    hide HeaderDef, PoseDef, HeaderTy, PoseTy, AllKinds, Also;
  }

  lemma PoseStampedNames(m: PoseStamped)
    ensures ColumnsOf(PoseStampedFields(m)) == PoseStampedDef()
  {
    HeaderNames(m.header);
    PoseNames(m.pose);
    hide HeaderDef, PoseDef, HeaderFields, PoseFields, AllKinds, AllCells, CellsOf, ColumnsOf;
  }

  lemma PoseStampedCells(m: PoseStamped)
    ensures Cells(PoseStampedTy(), PoseStampedVal(m)) == AllCells(PoseStampedFields(m))
  {
    HeaderCells(m.header);
    PoseCells(m.pose);
    hide HeaderFields, PoseFields, HeaderTy, PoseTy, HeaderVal, PoseVal, Shaped, Valid, Kinds, ColumnsOf, AllCells,
      Then;
  }

  lemma TransformStampedKinds()
    ensures AllKinds(TransformStampedDef()) == Kinds(TransformStampedTy())
  {
    HeaderKinds();
    TransformKinds();
    hide HeaderDef, TransformDef, HeaderTy, TransformTy, AllKinds, Also;
  }

  lemma TransformStampedNames(m: TransformStamped)
    ensures ColumnsOf(TransformStampedFields(m)) == TransformStampedDef()
  {
    HeaderNames(m.header);
    TransformNames(m.transform);
    hide HeaderDef, TransformDef, HeaderFields, TransformFields, AllKinds, AllCells, CellsOf, ColumnsOf;
  }

  lemma TransformStampedCells(m: TransformStamped)
    ensures Cells(TransformStampedTy(), TransformStampedVal(m)) == AllCells(TransformStampedFields(m))
  {
    HeaderCells(m.header);
    TransformCells(m.transform);
    hide HeaderFields, TransformFields, HeaderTy, TransformTy, HeaderVal, TransformVal, Shaped, Valid, Kinds, ColumnsOf,
      AllCells,
      Then;
  }

  lemma PoseWithCovarianceKinds()
    ensures AllKinds(PoseWithCovarianceDef()) == Kinds(Pair(PoseTy(), Array(36, Double)))
  {
    PoseKinds();
    hide PoseDef, PoseTy, AllKinds, Also;
  }

  lemma PoseWithCovarianceNames(m: Odometry)
    ensures ColumnsOf(PoseWithCovarianceFields(m)) == PoseWithCovarianceDef()
  {
    PoseNames(m.pose);
    hide PoseDef, PoseFields, AllKinds, AllCells, CellsOf, ColumnsOf;
  }

  lemma PoseWithCovarianceCells(m: Odometry)
    ensures Cells(Pair(PoseTy(), Array(36, Double)), Both(PoseVal(m.pose), DoublesVal(m.poseCovariance)))
        == AllCells(PoseWithCovarianceFields(m))
  {
    PoseCells(m.pose);
    hide PoseFields, PoseTy, PoseVal, Shaped, Valid, Kinds, ColumnsOf, AllCells, Then;
  }

  lemma TwistWithCovarianceKinds()
    ensures AllKinds(TwistWithCovarianceDef()) == Kinds(Pair(TwistTy(), Array(36, Double)))
  {
    TwistKinds();
    hide TwistDef, TwistTy, AllKinds, Also;
  }

  lemma TwistWithCovarianceNames(m: Odometry)
    ensures ColumnsOf(TwistWithCovarianceFields(m)) == TwistWithCovarianceDef()
  {
    TwistNames(m.twist);
    hide TwistDef, TwistFields, AllKinds, AllCells, CellsOf, ColumnsOf;
  }

  lemma TwistWithCovarianceCells(m: Odometry)
    ensures Cells(Pair(TwistTy(), Array(36, Double)), Both(TwistVal(m.twist), DoublesVal(m.twistCovariance)))
        == AllCells(TwistWithCovarianceFields(m))
  {
    TwistCells(m.twist);
    hide TwistFields, TwistTy, TwistVal, Shaped, Valid, Kinds, ColumnsOf, AllCells, Then;
  }

  lemma OdometryKinds()
    ensures AllKinds(OdometryDef()) == Kinds(OdometryTy())
  {
    HeaderKinds();
    PoseWithCovarianceKinds();
    TwistWithCovarianceKinds();
    PairKinds(PoseTy(), Array(36, Double));
    PairKinds(TwistTy(), Array(36, Double));
    OdometrySchema();
    hide HeaderDef, PoseWithCovarianceDef, TwistWithCovarianceDef, HeaderTy, PoseTy, TwistTy, OdometryTy, AllKinds,
      Also, Kinds;
  }

  lemma PairKinds(t: Ty, u: Ty)
    ensures Kinds(Pair(t, u)) == Kinds(t) + Kinds(u)
  {
  }

  lemma TextKinds()
    ensures Kinds(Text) == [Plain(Text)]
  {
  }

  lemma OdometrySchema()
    ensures Kinds(OdometryTy())
         == Kinds(HeaderTy()) + ([Plain(Text)] + (Kinds(Pair(PoseTy(), Array(36, Double)))
                                                  + Kinds(Pair(TwistTy(), Array(36, Double)))))
  {
    hide HeaderTy, PoseTy, TwistTy, Kinds;
    var pose, twist, covariance := Kinds(PoseTy()), Kinds(TwistTy()), Kinds(Array(36, Double));
    PairKinds(PoseTy(), Array(36, Double));
    PairKinds(TwistTy(), Array(36, Double));
    PairKinds(PoseTy(), Pair(Array(36, Double), Pair(TwistTy(), Array(36, Double))));
    PairKinds(Array(36, Double), Pair(TwistTy(), Array(36, Double)));
    var tail := Pair(PoseTy(), Pair(Array(36, Double), Pair(TwistTy(), Array(36, Double))));
    PairKinds(Text, tail);
    PairKinds(HeaderTy(), Pair(Text, tail));
    TextKinds();
    assert pose + covariance + (twist + covariance) == pose + (covariance + (twist + covariance));
  }

  lemma OdometryNames(m: Odometry)
    ensures ColumnsOf(OdometryFields(m)) == OdometryDef()
  {
    HeaderNames(m.header);
    PoseWithCovarianceNames(m);
    TwistWithCovarianceNames(m);
    hide HeaderDef, PoseWithCovarianceDef, TwistWithCovarianceDef, HeaderFields, PoseWithCovarianceFields,
      TwistWithCovarianceFields, AllKinds, AllCells, CellsOf, ColumnsOf;
  }

  lemma OdometryCells(m: Odometry)
    ensures Cells(OdometryTy(), OdometryVal(m)) == AllCells(OdometryFields(m))
  {
    HeaderCells(m.header);
    PoseWithCovarianceCells(m);
    TwistWithCovarianceCells(m);
    OdometryValue(m);
    hide HeaderFields, PoseWithCovarianceFields, TwistWithCovarianceFields, HeaderTy, PoseTy, TwistTy, OdometryTy,
      HeaderVal, PoseVal, TwistVal, OdometryVal, Shaped, Valid, ColumnsOf, AllCells, Then, Cells, Kinds;
  }

  lemma PairCells(t: Ty, u: Ty, a: Val, b: Val)
    ensures Cells(Pair(t, u), Both(a, b)) == Cells(t, a) + Cells(u, b)
  {
  }

  lemma TextCells(v: Val)
    ensures Cells(Text, v) == [One(v)]
  {
  }

  lemma OdometryValue(m: Odometry)
    ensures Cells(OdometryTy(), OdometryVal(m))
         == Cells(HeaderTy(), HeaderVal(m.header)) + ([One(TextVal(m.childFrameId))]
            + (Cells(Pair(PoseTy(), Array(36, Double)), Both(PoseVal(m.pose), DoublesVal(m.poseCovariance)))
               + Cells(Pair(TwistTy(), Array(36, Double)), Both(TwistVal(m.twist), DoublesVal(m.twistCovariance)))))
  {
    hide HeaderTy, PoseTy, TwistTy, HeaderVal, PoseVal, TwistVal, DoublesVal, Cells, Kinds, Shaped, Valid;
    var covariance := Array(36, Double);
    var poseVal, twistVal := DoublesVal(m.poseCovariance), DoublesVal(m.twistCovariance);
    var pose, twist := Cells(PoseTy(), PoseVal(m.pose)), Cells(TwistTy(), TwistVal(m.twist));
    var last, lastVal := Pair(TwistTy(), covariance), Both(TwistVal(m.twist), twistVal);
    var tail, tailVal := Pair(PoseTy(), Pair(covariance, last)), Both(PoseVal(m.pose), Both(poseVal, lastVal));
    TextCells(TextVal(m.childFrameId));
    PairCells(PoseTy(), covariance, PoseVal(m.pose), poseVal);
    PairCells(TwistTy(), covariance, TwistVal(m.twist), twistVal);
    PairCells(covariance, last, poseVal, lastVal);
    PairCells(PoseTy(), Pair(covariance, last), PoseVal(m.pose), Both(poseVal, lastVal));
    PairCells(Text, tail, TextVal(m.childFrameId), tailVal);
    PairCells(HeaderTy(), Pair(Text, tail), HeaderVal(m.header), Both(TextVal(m.childFrameId), tailVal));
    var a, b := Cells(covariance, poseVal), Cells(covariance, twistVal);
    assert pose + a + (twist + b) == pose + (a + (twist + b));
  }

  lemma PathKinds()
    ensures AllKinds(PathDef()) == Kinds(PathTy())
  {
    HeaderKinds();
    PoseStampedKinds();
    hide HeaderDef, PoseStampedDef, HeaderTy, AllKinds, Also;
  }

  lemma PathNames(m: Path)
    ensures ColumnsOf(PathFields(m)) == PathDef()
  {
    HeaderNames(m.header);
    hide HeaderDef, PoseStampedDef, HeaderFields, PoseStampedFields, AllKinds, AllCells, CellsOf, ColumnsOf;
  }

  lemma PathCells(m: Path)
    ensures Cells(PathTy(), PathVal(m)) == AllCells(PathFields(m))
  {
    HeaderCells(m.header);
    forall i | 0 <= i < |m.poses|
      ensures Cells(PoseStampedTy(), PoseStampedVal(m.poses[i])) == AllCells(PoseStampedFields(m.poses[i]))
    {
      PoseStampedCells(m.poses[i]);
    }
    TableLaidOut(PoseStampedTy(), PoseStampedVal, PoseStampedFields, "poses", PoseStampedDef(), m.poses);
    hide HeaderFields, PoseStampedFields, HeaderTy, HeaderVal, PoseStampedVal, Shaped, Valid, Kinds, ColumnsOf,
      AllCells, Then;
  }

  lemma ImuKinds()
    ensures AllKinds(ImuDef()) == Kinds(ImuTy())
  {
    HeaderKinds();
    QuaternionKinds();
    Vector3Kinds();
    hide HeaderDef, QuaternionDef, Vector3Def, HeaderTy, QuaternionTy, Vector3Ty, AllKinds, Also;
  }

  lemma ImuNames(m: Imu)
    ensures ColumnsOf(ImuFields(m)) == ImuDef()
  {
    HeaderNames(m.header);
    QuaternionNames(m.orientation);
    Vector3Names(m.angularVelocity);
    Vector3Names(m.linearAcceleration);
    hide HeaderDef, QuaternionDef, Vector3Def, HeaderFields, QuaternionFields, Vector3Fields, AllKinds, AllCells,
      CellsOf, ColumnsOf;
  }

  lemma ImuCells(m: Imu)
    ensures Cells(ImuTy(), ImuVal(m)) == AllCells(ImuFields(m))
  {
    HeaderCells(m.header);
    QuaternionCells(m.orientation);
    Vector3Cells(m.angularVelocity);
    Vector3Cells(m.linearAcceleration);
    hide HeaderFields, QuaternionFields, Vector3Fields, HeaderTy, QuaternionTy, Vector3Ty, HeaderVal, QuaternionVal,
      Vector3Val, Shaped, Valid, Kinds, ColumnsOf, AllCells, Then;
  }

  lemma ImageKinds()
    ensures AllKinds(ImageDef()) == Kinds(ImageTy())
  {
    HeaderKinds();
    hide HeaderDef, HeaderTy, AllKinds, Also;
  }

  lemma ImageNames(m: Image)
    ensures ColumnsOf(ImageFields(m)) == ImageDef()
  {
    HeaderNames(m.header);
    hide HeaderDef, HeaderFields, AllKinds, AllCells, CellsOf, ColumnsOf;
  }

  lemma ImageCells(m: Image)
    ensures Cells(ImageTy(), ImageVal(m)) == AllCells(ImageFields(m))
  {
    HeaderCells(m.header);
    hide HeaderFields, HeaderTy, HeaderVal, Shaped, Valid, Kinds, ColumnsOf, AllCells, Then;
  }

  lemma CompressedImageKinds()
    ensures AllKinds(CompressedImageDef()) == Kinds(CompressedImageTy())
  {
    HeaderKinds();
    hide HeaderDef, HeaderTy, AllKinds, Also;
  }

  lemma CompressedImageNames(m: CompressedImage)
    ensures ColumnsOf(CompressedImageFields(m)) == CompressedImageDef()
  {
    HeaderNames(m.header);
    hide HeaderDef, HeaderFields, AllKinds, AllCells, CellsOf, ColumnsOf;
  }

  lemma CompressedImageCells(m: CompressedImage)
    ensures Cells(CompressedImageTy(), CompressedImageVal(m)) == AllCells(CompressedImageFields(m))
  {
    HeaderCells(m.header);
    hide HeaderFields, HeaderTy, HeaderVal, Shaped, Valid, Kinds, ColumnsOf, AllCells, Then;
  }

  lemma LensKinds()
    ensures AllKinds(LensDef()) == Kinds(LensTy())
  {
    RegionOfInterestKinds();
    hide RegionOfInterestDef, RoiTy, AllKinds, Also;
  }

  lemma LensNames(m: CameraInfo)
    ensures ColumnsOf(LensFields(m)) == LensDef()
  {
    RegionOfInterestNames(m.roi);
    hide RegionOfInterestDef, RegionOfInterestFields, AllKinds, AllCells, CellsOf, ColumnsOf;
  }

  lemma LensCells(m: CameraInfo)
    ensures Cells(LensTy(), LensVal(m.d, m.k, m.r, m.p, BinningVal(m.binningX, m.binningY, m.roi)))
        == AllCells(LensFields(m))
  {
    RegionOfInterestCells(m.roi);
    hide RegionOfInterestFields, RoiTy, RoiVal, Shaped, Valid, Kinds, ColumnsOf, AllCells, Then;
  }

  lemma CameraInfoKinds()
    ensures AllKinds(CameraInfoDef()) == Kinds(CameraInfoTy())
  {
    HeaderKinds();
    LensKinds();
    hide HeaderDef, LensDef, HeaderTy, LensTy, AllKinds, Also;
  }

  lemma CameraInfoNames(m: CameraInfo)
    ensures ColumnsOf(CameraInfoFields(m)) == CameraInfoDef()
  {
    HeaderNames(m.header);
    LensNames(m);
    hide HeaderDef, LensDef, HeaderFields, LensFields, AllKinds, AllCells, CellsOf, ColumnsOf;
  }

  lemma CameraInfoCells(m: CameraInfo)
    ensures Cells(CameraInfoTy(), CameraInfoVal(m)) == AllCells(CameraInfoFields(m))
  {
    HeaderCells(m.header);
    LensCells(m);
    hide HeaderFields, LensFields, HeaderTy, LensTy, HeaderVal, LensVal, BinningVal, Shaped, Valid, Kinds,
      ColumnsOf, AllCells,
      Then;
  }

  lemma CloudTailKinds()
    ensures AllKinds(CloudTailDef()) == Kinds(CloudTailTy())
  {
    hide AllKinds, Also;
  }

  lemma CloudTailNames(m: PointCloud2)
    ensures ColumnsOf(CloudTailFields(m)) == CloudTailDef()
  {
    hide AllKinds, AllCells, CellsOf, ColumnsOf;
  }

  lemma CloudTailCells(m: PointCloud2)
    ensures Cells(CloudTailTy(), CloudTailVal(m.isBigendian, m.pointStep, m.rowStep, m.data, m.isDense))
        == AllCells(CloudTailFields(m))
  {
    hide Shaped, Valid, Kinds, ColumnsOf, AllCells, Then;
  }

  lemma PointCloud2Kinds()
    ensures AllKinds(PointCloud2Def()) == Kinds(PointCloud2Ty())
  {
    HeaderKinds();
    PointFieldKinds();
    CloudTailKinds();
    hide HeaderDef, PointFieldDef, CloudTailDef, HeaderTy, CloudTailTy, AllKinds, Also;
  }

  lemma PointCloud2Names(m: PointCloud2)
    ensures ColumnsOf(PointCloud2Fields(m)) == PointCloud2Def()
  {
    HeaderNames(m.header);
    CloudTailNames(m);
    hide HeaderDef, PointFieldDef, CloudTailDef, HeaderFields, PointFieldFields, CloudTailFields, AllKinds,
      AllCells, CellsOf, ColumnsOf;
  }

  lemma PointCloud2Cells(m: PointCloud2)
    ensures Cells(PointCloud2Ty(), PointCloud2Val(m)) == AllCells(PointCloud2Fields(m))
  {
    HeaderCells(m.header);
    forall i | 0 <= i < |m.fields|
      ensures Cells(FieldTy(), FieldVal(m.fields[i])) == AllCells(PointFieldFields(m.fields[i]))
    {
      PointFieldCells(m.fields[i]);
    }
    TableLaidOut(FieldTy(), FieldVal, PointFieldFields, "fields", PointFieldDef(), m.fields);
    CloudTailCells(m);
    hide HeaderFields, PointFieldFields, CloudTailFields, HeaderTy, CloudTailTy, HeaderVal, FieldVal, CloudTailVal,
      Shaped, Valid, Kinds, ColumnsOf, AllCells, Then;
  }

  lemma JointStateKinds()
    ensures AllKinds(JointStateDef()) == Kinds(JointStateTy())
  {
    HeaderKinds();
    hide HeaderDef, HeaderTy, AllKinds, Also;
  }

  lemma JointStateNames(m: JointState)
    ensures ColumnsOf(JointStateFields(m)) == JointStateDef()
  {
    HeaderNames(m.header);
    hide HeaderDef, HeaderFields, AllKinds, AllCells, CellsOf, ColumnsOf;
  }

  lemma JointStateCells(m: JointState)
    ensures Cells(JointStateTy(), JointStateVal(m)) == AllCells(JointStateFields(m))
  {
    HeaderCells(m.header);
    hide HeaderFields, HeaderTy, HeaderVal, Shaped, Valid, Kinds, ColumnsOf, AllCells, Then;
  }

  lemma ScanTailKinds()
    ensures AllKinds(ScanTailDef()) == Kinds(ScanTailTy())
  {
    hide AllKinds, Also;
  }

  lemma ScanTailNames(m: LaserScan)
    ensures ColumnsOf(ScanTailFields(m)) == ScanTailDef()
  {
    hide AllKinds, AllCells, CellsOf, ColumnsOf;
  }

  lemma ScanTailCells(m: LaserScan)
    ensures Cells(ScanTailTy(), ScanTailVal(m.scanTime, m.rangeMin, m.rangeMax, m.ranges, m.intensities))
         == AllCells(ScanTailFields(m))
  {
    hide Shaped, Valid, Kinds, ColumnsOf, AllCells, Then;
  }

  lemma LaserScanKinds()
    ensures AllKinds(LaserScanDef()) == Kinds(LaserScanTy())
  {
    HeaderKinds();
    ScanTailKinds();
    hide HeaderDef, ScanTailDef, HeaderTy, ScanTailTy, AllKinds, Also;
  }

  lemma LaserScanNames(m: LaserScan)
    ensures ColumnsOf(LaserScanFields(m)) == LaserScanDef()
  {
    HeaderNames(m.header);
    ScanTailNames(m);
    hide HeaderDef, ScanTailDef, HeaderFields, ScanTailFields, AllKinds, AllCells, CellsOf, ColumnsOf;
  }

  lemma LaserScanCells(m: LaserScan)
    ensures Cells(LaserScanTy(), LaserScanVal(m)) == AllCells(LaserScanFields(m))
  {
    HeaderCells(m.header);
    ScanTailCells(m);
    hide HeaderFields, ScanTailFields, HeaderTy, ScanTailTy, HeaderVal, ScanTailVal, Shaped, Valid, Kinds, ColumnsOf,
      AllCells, Then;
  }

  lemma TFMessageKinds()
    ensures AllKinds(TFMessageDef()) == Kinds(TFMessageTy())
  {
    TransformStampedKinds();
    hide TransformStampedDef, AllKinds, Also;
  }

  lemma TFMessageNames(m: TFMessage)
    ensures ColumnsOf(TFMessageFields(m)) == TFMessageDef()
  {
    hide TransformStampedDef, TransformStampedFields, AllKinds, AllCells, CellsOf, ColumnsOf;
  }

  lemma TFMessageCells(m: TFMessage)
    ensures Cells(TFMessageTy(), TFMessageVal(m)) == AllCells(TFMessageFields(m))
  {
    forall i | 0 <= i < |m.transforms|
      ensures Cells(TransformStampedTy(), TransformStampedVal(m.transforms[i]))
          == AllCells(TransformStampedFields(m.transforms[i]))
    {
      TransformStampedCells(m.transforms[i]);
    }
    TableLaidOut(TransformStampedTy(), TransformStampedVal, TransformStampedFields, "transforms",
        TransformStampedDef(), m.transforms);
    hide TransformStampedFields, TransformStampedVal, Shaped, Valid, Kinds, ColumnsOf, AllCells, Then;
  }

  // ------------------------------------------------------------ the twelve types together

  lemma PoseFieldsFollowDefinition(m: Msg)
    requires m.MPoseStamped? || m.MTransformStamped? || m.MOdometry? || m.MPath?
    ensures ColumnsOf(FieldsOf(m)) == Definition(TypeOf(m))
  {
    hide ColumnsOf, Also, Then, PoseStampedFields, TransformStampedFields, OdometryFields, PathFields,
      CameraInfoFields, CompressedImageFields, ImageFields, ImuFields, JointStateFields, LaserScanFields,
      PointCloud2Fields, TFMessageFields, PoseStampedDef, TransformStampedDef, OdometryDef, PathDef, CameraInfoDef,
      CompressedImageDef, ImageDef, ImuDef, JointStateDef, LaserScanDef, PointCloud2Def, TFMessageDef;
    if m.MPoseStamped? {
      PoseStampedNames(m.poseStamped);
    } else if m.MTransformStamped? {
      TransformStampedNames(m.transformStamped);
    } else if m.MOdometry? {
      OdometryNames(m.odometry);
    } else {
      PathNames(m.path);
    }
  }

  lemma ImageFieldsFollowDefinition(m: Msg)
    requires m.MCameraInfo? || m.MCompressedImage? || m.MImage? || m.MPointCloud2?
    ensures ColumnsOf(FieldsOf(m)) == Definition(TypeOf(m))
  {
    hide ColumnsOf, Also, Then, PoseStampedFields, TransformStampedFields, OdometryFields, PathFields,
      CameraInfoFields, CompressedImageFields, ImageFields, ImuFields, JointStateFields, LaserScanFields,
      PointCloud2Fields, TFMessageFields, PoseStampedDef, TransformStampedDef, OdometryDef, PathDef, CameraInfoDef,
      CompressedImageDef, ImageDef, ImuDef, JointStateDef, LaserScanDef, PointCloud2Def, TFMessageDef;
    if m.MCameraInfo? {
      CameraInfoNames(m.cameraInfo);
    } else if m.MCompressedImage? {
      CompressedImageNames(m.compressedImage);
    } else if m.MImage? {
      ImageNames(m.image);
    } else {
      PointCloud2Names(m.pointCloud2);
    }
  }

  lemma StateFieldsFollowDefinition(m: Msg)
    requires m.MImu? || m.MJointState?
    ensures ColumnsOf(FieldsOf(m)) == Definition(TypeOf(m))
  {
    hide ColumnsOf, Also, Then, PoseStampedFields, TransformStampedFields, OdometryFields, PathFields,
      CameraInfoFields, CompressedImageFields, ImageFields, ImuFields, JointStateFields, LaserScanFields,
      PointCloud2Fields, TFMessageFields, PoseStampedDef, TransformStampedDef, OdometryDef, PathDef, CameraInfoDef,
      CompressedImageDef, ImageDef, ImuDef, JointStateDef, LaserScanDef, PointCloud2Def, TFMessageDef;
    if m.MImu? {
      ImuNames(m.imu);
    } else {
      JointStateNames(m.jointState);
    }
  }

  lemma ScanFieldsFollowDefinition(m: Msg)
    requires m.MLaserScan? || m.MTFMessage?
    ensures ColumnsOf(FieldsOf(m)) == Definition(TypeOf(m))
  {
    hide ColumnsOf, Also, Then, PoseStampedFields, TransformStampedFields, OdometryFields, PathFields,
      CameraInfoFields, CompressedImageFields, ImageFields, ImuFields, JointStateFields, LaserScanFields,
      PointCloud2Fields, TFMessageFields, PoseStampedDef, TransformStampedDef, OdometryDef, PathDef, CameraInfoDef,
      CompressedImageDef, ImageDef, ImuDef, JointStateDef, LaserScanDef, PointCloud2Def, TFMessageDef;
    if m.MLaserScan? {
      LaserScanNames(m.laserScan);
    } else {
      TFMessageNames(m.tfMessage);
    }
  }

  /** A message has the fields its type's definition lists, by name, by type and in that order. */
  lemma FieldsFollowDefinition(m: Msg)
    ensures ColumnsOf(FieldsOf(m)) == Definition(TypeOf(m))
  {
    hide ColumnsOf, FieldsOf, Definition, TypeOf;
    if m.MPoseStamped? || m.MTransformStamped? || m.MOdometry? || m.MPath? {
      PoseFieldsFollowDefinition(m);
    } else if m.MCameraInfo? || m.MCompressedImage? || m.MImage? || m.MPointCloud2? {
      ImageFieldsFollowDefinition(m);
    } else if m.MImu? || m.MJointState? {
      StateFieldsFollowDefinition(m);
    } else {
      ScanFieldsFollowDefinition(m);
    }
  }

  lemma PoseSchemaIsDefinition(t: MsgType)
    requires t.GeometryPoseStamped? || t.GeometryTransformStamped? || t.NavOdometry? || t.NavPath?
    ensures AllKinds(Definition(t)) == Kinds(Schema(t))
  {
    hide AllKinds, Kinds, PoseStampedTy, TransformStampedTy, OdometryTy, PathTy, CameraInfoTy, CompressedImageTy,
      ImageTy, ImuTy, JointStateTy, LaserScanTy, PointCloud2Ty, TFMessageTy, PoseStampedDef, TransformStampedDef,
      OdometryDef, PathDef, CameraInfoDef, CompressedImageDef, ImageDef, ImuDef, JointStateDef, LaserScanDef,
      PointCloud2Def, TFMessageDef;
    if t.GeometryPoseStamped? {
      PoseStampedKinds();
    } else if t.GeometryTransformStamped? {
      TransformStampedKinds();
    } else if t.NavOdometry? {
      OdometryKinds();
    } else {
      PathKinds();
    }
  }

  lemma ImageSchemaIsDefinition(t: MsgType)
    requires t.SensorCameraInfo? || t.SensorCompressedImage? || t.SensorImage? || t.SensorPointCloud2?
    ensures AllKinds(Definition(t)) == Kinds(Schema(t))
  {
    hide AllKinds, Kinds, PoseStampedTy, TransformStampedTy, OdometryTy, PathTy, CameraInfoTy, CompressedImageTy,
      ImageTy, ImuTy, JointStateTy, LaserScanTy, PointCloud2Ty, TFMessageTy, PoseStampedDef, TransformStampedDef,
      OdometryDef, PathDef, CameraInfoDef, CompressedImageDef, ImageDef, ImuDef, JointStateDef, LaserScanDef,
      PointCloud2Def, TFMessageDef;
    if t.SensorCameraInfo? {
      CameraInfoKinds();
    } else if t.SensorCompressedImage? {
      CompressedImageKinds();
    } else if t.SensorImage? {
      ImageKinds();
    } else {
      PointCloud2Kinds();
    }
  }

  lemma StateSchemaIsDefinition(t: MsgType)
    requires t.SensorImu? || t.SensorJointState?
    ensures AllKinds(Definition(t)) == Kinds(Schema(t))
  {
    hide AllKinds, Kinds, PoseStampedTy, TransformStampedTy, OdometryTy, PathTy, CameraInfoTy, CompressedImageTy,
      ImageTy, ImuTy, JointStateTy, LaserScanTy, PointCloud2Ty, TFMessageTy, PoseStampedDef, TransformStampedDef,
      OdometryDef, PathDef, CameraInfoDef, CompressedImageDef, ImageDef, ImuDef, JointStateDef, LaserScanDef,
      PointCloud2Def, TFMessageDef;
    if t.SensorImu? {
      ImuKinds();
    } else {
      JointStateKinds();
    }
  }

  lemma ScanSchemaIsDefinition(t: MsgType)
    requires t.SensorLaserScan? || t.Tf2TFMessage?
    ensures AllKinds(Definition(t)) == Kinds(Schema(t))
  {
    hide AllKinds, Kinds, PoseStampedTy, TransformStampedTy, OdometryTy, PathTy, CameraInfoTy, CompressedImageTy,
      ImageTy, ImuTy, JointStateTy, LaserScanTy, PointCloud2Ty, TFMessageTy, PoseStampedDef, TransformStampedDef,
      OdometryDef, PathDef, CameraInfoDef, CompressedImageDef, ImageDef, ImuDef, JointStateDef, LaserScanDef,
      PointCloud2Def, TFMessageDef;
    if t.SensorLaserScan? {
      LaserScanKinds();
    } else {
      TFMessageKinds();
    }
  }

  lemma SchemaIsDefinition(t: MsgType)
    ensures AllKinds(Definition(t)) == Kinds(Schema(t))
  {
    hide AllKinds, Kinds, Definition, Schema;
    if t.GeometryPoseStamped? || t.GeometryTransformStamped? || t.NavOdometry? || t.NavPath? {
      PoseSchemaIsDefinition(t);
    } else if t.SensorCameraInfo? || t.SensorCompressedImage? || t.SensorImage? || t.SensorPointCloud2? {
      ImageSchemaIsDefinition(t);
    } else if t.SensorImu? || t.SensorJointState? {
      StateSchemaIsDefinition(t);
    } else {
      ScanSchemaIsDefinition(t);
    }
  }

  lemma PoseValueIsFields(m: Msg)
    requires m.MPoseStamped? || m.MTransformStamped? || m.MOdometry? || m.MPath?
    ensures Cells(Schema(TypeOf(m)), MsgVal(m)) == AllCells(FieldsOf(m))
  {
    hide AllCells, Cells, Kinds, Shaped, Valid, PoseStampedTy, TransformStampedTy, OdometryTy, PathTy, CameraInfoTy,
      CompressedImageTy, ImageTy, ImuTy, JointStateTy, LaserScanTy, PointCloud2Ty, TFMessageTy, PoseStampedFields,
      TransformStampedFields, OdometryFields, PathFields, CameraInfoFields, CompressedImageFields, ImageFields,
      ImuFields, JointStateFields, LaserScanFields, PointCloud2Fields, TFMessageFields, PoseStampedVal,
      TransformStampedVal, OdometryVal, PathVal, CameraInfoVal, CompressedImageVal, ImageVal, ImuVal, JointStateVal,
      LaserScanVal, PointCloud2Val, TFMessageVal;
    if m.MPoseStamped? {
      PoseStampedCells(m.poseStamped);
    } else if m.MTransformStamped? {
      TransformStampedCells(m.transformStamped);
    } else if m.MOdometry? {
      OdometryCells(m.odometry);
    } else {
      PathCells(m.path);
    }
  }

  lemma ImageValueIsFields(m: Msg)
    requires m.MCameraInfo? || m.MCompressedImage? || m.MImage? || m.MPointCloud2?
    ensures Cells(Schema(TypeOf(m)), MsgVal(m)) == AllCells(FieldsOf(m))
  {
    hide AllCells, Cells, Kinds, Shaped, Valid, PoseStampedTy, TransformStampedTy, OdometryTy, PathTy, CameraInfoTy,
      CompressedImageTy, ImageTy, ImuTy, JointStateTy, LaserScanTy, PointCloud2Ty, TFMessageTy, PoseStampedFields,
      TransformStampedFields, OdometryFields, PathFields, CameraInfoFields, CompressedImageFields, ImageFields,
      ImuFields, JointStateFields, LaserScanFields, PointCloud2Fields, TFMessageFields, PoseStampedVal,
      TransformStampedVal, OdometryVal, PathVal, CameraInfoVal, CompressedImageVal, ImageVal, ImuVal, JointStateVal,
      LaserScanVal, PointCloud2Val, TFMessageVal;
    if m.MCameraInfo? {
      CameraInfoCells(m.cameraInfo);
    } else if m.MCompressedImage? {
      CompressedImageCells(m.compressedImage);
    } else if m.MImage? {
      ImageCells(m.image);
    } else {
      PointCloud2Cells(m.pointCloud2);
    }
  }

  lemma StateValueIsFields(m: Msg)
    requires m.MImu? || m.MJointState?
    ensures Cells(Schema(TypeOf(m)), MsgVal(m)) == AllCells(FieldsOf(m))
  {
    hide AllCells, Cells, Kinds, Shaped, Valid, PoseStampedTy, TransformStampedTy, OdometryTy, PathTy, CameraInfoTy,
      CompressedImageTy, ImageTy, ImuTy, JointStateTy, LaserScanTy, PointCloud2Ty, TFMessageTy, PoseStampedFields,
      TransformStampedFields, OdometryFields, PathFields, CameraInfoFields, CompressedImageFields, ImageFields,
      ImuFields, JointStateFields, LaserScanFields, PointCloud2Fields, TFMessageFields, PoseStampedVal,
      TransformStampedVal, OdometryVal, PathVal, CameraInfoVal, CompressedImageVal, ImageVal, ImuVal, JointStateVal,
      LaserScanVal, PointCloud2Val, TFMessageVal;
    if m.MImu? {
      ImuCells(m.imu);
    } else {
      JointStateCells(m.jointState);
    }
  }

  lemma ScanValueIsFields(m: Msg)
    requires m.MLaserScan? || m.MTFMessage?
    ensures Cells(Schema(TypeOf(m)), MsgVal(m)) == AllCells(FieldsOf(m))
  {
    hide AllCells, Cells, Kinds, Shaped, Valid, PoseStampedTy, TransformStampedTy, OdometryTy, PathTy, CameraInfoTy,
      CompressedImageTy, ImageTy, ImuTy, JointStateTy, LaserScanTy, PointCloud2Ty, TFMessageTy, PoseStampedFields,
      TransformStampedFields, OdometryFields, PathFields, CameraInfoFields, CompressedImageFields, ImageFields,
      ImuFields, JointStateFields, LaserScanFields, PointCloud2Fields, TFMessageFields, PoseStampedVal,
      TransformStampedVal, OdometryVal, PathVal, CameraInfoVal, CompressedImageVal, ImageVal, ImuVal, JointStateVal,
      LaserScanVal, PointCloud2Val, TFMessageVal;
    if m.MLaserScan? {
      LaserScanCells(m.laserScan);
    } else {
      TFMessageCells(m.tfMessage);
    }
  }

  lemma ValueIsFields(m: Msg)
    ensures Cells(Schema(TypeOf(m)), MsgVal(m)) == AllCells(FieldsOf(m))
  {
    hide AllCells, Cells, Schema, MsgVal, FieldsOf, TypeOf;
    if m.MPoseStamped? || m.MTransformStamped? || m.MOdometry? || m.MPath? {
      PoseValueIsFields(m);
    } else if m.MCameraInfo? || m.MCompressedImage? || m.MImage? || m.MPointCloud2? {
      ImageValueIsFields(m);
    } else if m.MImu? || m.MJointState? {
      StateValueIsFields(m);
    } else {
      ScanValueIsFields(m);
    }
  }

  /** The little-endian payload that carries these fields, one after another along a definition. */
  ghost function FieldBytes(definition: seq<Column>, fields: seq<Field>): seq<byte> {
    [0, 1, 0, 0] + PutCells(true, AllKinds(definition), AllCells(fields), [])
  }

  /** What stands in a payload along a definition; None where a field of it cannot be read. */
  ghost function CellsIn(definition: seq<Column>, payload: seq<byte>): Option<(seq<Cell>, nat)> {
    if |payload| < 4 then None else ReadCells(LittleFlag(payload), AllKinds(definition), payload[4..], 0)
  }

  /**
    Every message is printed behind the little-endian encapsulation header field by field, each
    named field of its definition in the order the definition lists it.
   */
  lemma PrintedAsDefined(m: Msg)
    ensures ColumnsOf(FieldsOf(m)) == Definition(TypeOf(m))
    ensures Payload(m) == FieldBytes(Definition(TypeOf(m)), FieldsOf(m))
  {
    hide ColumnsOf, AllKinds, AllCells, Kinds, Cells, Schema, MsgVal, FieldsOf, Definition, Put, PutCells;
    FieldsFollowDefinition(m);
    SchemaIsDefinition(TypeOf(m));
    ValueIsFields(m);
    PutsCells(true, Schema(TypeOf(m)), MsgVal(m), []);
  }

  /**
    A payload of any type is read along that type's definition: it is refused exactly when a field
    of the definition cannot be read, and otherwise what is found under each name is the field of
    that name in the message it decodes to.
   */
  lemma ReadAsDefined(t: MsgType, payload: seq<byte>, m: Msg)
    ensures ParsePayload(t, payload).None? <==> CellsIn(Definition(t), payload).None?
    ensures Decodes(t, payload, m) ==>
              && ColumnsOf(FieldsOf(m)) == Definition(t)
              && CellsIn(Definition(t), payload) == Some((AllCells(FieldsOf(m)), ParsePayload(t, payload).value.1))
  {
    hide ColumnsOf, AllKinds, AllCells, Kinds, Cells, Schema, MsgVal, FieldsOf, Definition, Parse, ReadCells,
      WithoutSeq;
    if |payload| >= 4 {
      SchemaIsDefinition(t);
      ReadsCells(LittleFlag(payload), Schema(t), payload[4..], 0);
      if Decodes(t, payload, m) {
        FieldsFollowDefinition(m);
        ValueIsFields(m);
      }
    }
  }

  // ------------------------------------------------------------ the header, in bytes

  /** The header a payload opens with: the message's own, or that of the first transform. */
  function HeaderOf(m: Msg): Option<Header> {
    match m
    case MPoseStamped(x) => Some(x.header)
    case MTransformStamped(x) => Some(x.header)
    case MOdometry(x) => Some(x.header)
    case MPath(x) => Some(x.header)
    case MCameraInfo(x) => Some(x.header)
    case MCompressedImage(x) => Some(x.header)
    case MImage(x) => Some(x.header)
    case MImu(x) => Some(x.header)
    case MJointState(x) => Some(x.header)
    case MLaserScan(x) => Some(x.header)
    case MPointCloud2(x) => Some(x.header)
    case MTFMessage(x) => if x.transforms == [] then None else Some(x.transforms[0].header)
  }

  /** Where it stands: behind the encapsulation header, and behind the count of the transforms. */
  function HeaderAt(m: Msg): nat { if m.MTFMessage? then 8 else 4 }

  /** Four bytes are the two's complement of `n`, lowest byte first. */
  predicate Spells(b: seq<byte>, n: i32) {
    && |b| == 4
    && b[0] as int + 0x100 * (b[1] as int) + 0x1_0000 * (b[2] as int) + 0x100_0000 * (b[3] as int)
       == if n >= 0 then n as int else n as int + 0x1_0000_0000
  }

  lemma WordIsSpelt(n: i32, body: seq<byte>)
    requires |body| % 4 == 0
    ensures var r := Put(true, Word, IntVal(n), body);
            |r| == |body| + 4 && body <= r && Spells(r[|body|..], n)
  {
    LittleBytesAre(AsUnsigned(n));
    var r := Put(true, Word, IntVal(n), body);
    assert r[|body|..] == ToLittle(AsUnsigned(n), 4);
  }

  ghost predicate HeaderSpelt(payload: seq<byte>, at: nat, h: Header) {
    && at + 8 <= |payload|
    && Spells(payload[at..at + 4], h.stamp.sec) && Spells(payload[at + 4..at + 8], h.stamp.nsec)
  }

  lemma HeaderIsSpelt(h: Header, body: seq<byte>)
    requires |body| % 4 == 0
    ensures HeaderSpelt(Put(true, HeaderTy(), HeaderVal(h), body), |body|, h)
  {
    hide Put, Spells, Shaped, Valid, IntVal, TextVal;
    WordIsSpelt(h.stamp.sec, body);
    var one := Put(true, Word, IntVal(h.stamp.sec), body);
    WordIsSpelt(h.stamp.nsec, one);
    var two := Put(true, Word, IntVal(h.stamp.nsec), one);
    TwoWordsFirst(IntVal(h.stamp.sec), IntVal(h.stamp.nsec), TextVal(h.frameId), body);
    WordsOf(one, two, Put(true, HeaderTy(), HeaderVal(h), body), |body|);
  }

  lemma WordsOf(one: seq<byte>, two: seq<byte>, all: seq<byte>, n: nat)
    requires one <= two <= all && |one| == n + 4 && |two| == n + 8
    ensures all[n..n + 4] == one[n..] && all[n + 4..n + 8] == two[n + 4..]
  {
  }

  lemma TwoWordsFirst(a: Val, b: Val, c: Val, body: seq<byte>)
    requires Shaped(Word, a) && Shaped(Word, b) && Shaped(Text, c)
    ensures Put(true, Word, b, Put(true, Word, a, body))
         <= Put(true, Pair(Word, Pair(Word, Text)), Both(a, Both(b, c)), body)
  {
  }

  lemma HeaderPrefix(small: seq<byte>, all: seq<byte>, at: nat, h: Header)
    requires small <= all && HeaderSpelt(small, at, h)
    ensures HeaderSpelt([0, 1, 0, 0] + all, at + 4, h)
  {
    hide Spells;
    var payload := [0, 1, 0, 0] + all;
    assert payload[at + 4..at + 8] == small[at..at + 4];
    assert payload[at + 8..at + 12] == small[at + 4..at + 8];
  }

  lemma FirstInPair(t: Ty, u: Ty, v: Val, body: seq<byte>)
    requires Shaped(Pair(t, u), v)
    ensures Put(true, t, v.a, body) <= Put(true, Pair(t, u), v, body)
  {
  }

  lemma {:induction false} FirstOfAll(e: Ty, items: seq<Val>, body: seq<byte>)
    requires AllShaped(e, items) && items != []
    ensures Put(true, e, items[0], body) <= PutAll(true, e, items, body)
    decreases |items|
  {
    if |items| == 1 {
      assert items[..0] == [];
    } else {
      FirstOfAll(e, items[..|items| - 1], body);
    }
  }

  /** A schema that opens with a header, and the message's header in front of its value. */
  lemma OpensWithHeader(m: Msg)
    requires !m.MTFMessage?
    ensures Schema(TypeOf(m)).Pair? && Schema(TypeOf(m)).first == HeaderTy()
    ensures MsgVal(m).Both? && MsgVal(m).a == HeaderVal(HeaderOf(m).value)
  {
    hide Shaped, Valid, HeaderVal, HeaderTy;
  }

  lemma TransformOpensWithHeader(t: TransformStamped, body: seq<byte>)
    requires |body| % 4 == 0
    ensures HeaderSpelt(Put(true, TransformStampedTy(), TransformStampedVal(t), body), |body|, t.header)
  {
    hide HeaderVal, HeaderTy, Put, Spells, Shaped;
    HeaderIsSpelt(t.header, body);
    var val := TransformStampedVal(t);
    FirstInPair(HeaderTy(), Pair(Text, TransformTy()), val, body);
    var small, all := Put(true, HeaderTy(), HeaderVal(t.header), body), Put(true, TransformStampedTy(), val, body);
    assert small[|body|..|body| + 4] == all[|body|..|body| + 4];
    assert small[|body| + 4..|body| + 8] == all[|body| + 4..|body| + 8];
  }

  /**
    In bytes: every payload that carries a header shows its seconds in four bytes, lowest first, and
    its nanoseconds in the next four, right behind the encapsulation header or a TFMessage's count.
   */
  lemma StampInBytes(m: Msg)
    requires HeaderOf(m).Some?
    ensures HeaderSpelt(Payload(m), HeaderAt(m), HeaderOf(m).value)
  {
    hide HeaderSpelt, Schema, MsgVal, Put, Shaped, HeaderTy, HeaderVal, PutAll;
    var h := HeaderOf(m).value;
    if m.MTFMessage? {
      FirstTransformInBytes(m.tfMessage.transforms);
    } else {
      OpensWithHeader(m);
      var ty, val := Schema(TypeOf(m)), MsgVal(m);
      HeaderIsSpelt(h, []);
      FirstInPair(ty.first, ty.second, val, []);
      HeaderPrefix(Put(true, HeaderTy(), HeaderVal(h), []), Put(true, ty, val, []), 0, h);
    }
  }

  lemma FirstTransformInBytes(transforms: seq<TransformStamped>)
    requires transforms != []
    ensures HeaderSpelt(Payload(MTFMessage(TFMessage(transforms))), 8, transforms[0].header)
  {
    hide HeaderSpelt, TransformStampedVal, TransformStampedTy, Put, PutAll, PutWord;
    var items := Vals(TransformStampedVal, transforms);
    var counted := PutWord(true, Truncated(|items|), []);
    assert |counted| == 4 by { CountIsAWord(|items|); }
    var small := Put(true, TransformStampedTy(), items[0], counted);
    var all := Put(true, TFMessageTy(), TFMessageVal(TFMessage(transforms)), []);
    assert all == PutAll(true, TransformStampedTy(), items, counted) by {
      CountedFirst(TransformStampedTy(), items);
    }
    FirstOfAll(TransformStampedTy(), items, counted);
    TransformOpensWithHeader(transforms[0], counted);
    HeaderPrefix(small, all, 4, transforms[0].header);
  }

  lemma CountIsAWord(n: nat)
    ensures |PutWord(true, Truncated(n), [])| == 4
  {
  }

  lemma CountedFirst(e: Ty, items: seq<Val>)
    requires AllShaped(e, items)
    ensures Put(true, Sequence(e), List(items), []) == PutAll(true, e, items, PutWord(true, Truncated(|items|), []))
  {
  }

  // ------------------------------------------------------------ where a type's stamp stands in LCM

  /** Columns of variable length, each of whose lengths LCM declares ahead of the header. */
  function LengthFields(columns: seq<Column>): nat {
    if columns == [] then 0
    else (if columns[0].Rows? || (columns[0].Column? && (columns[0].ty.Sequence? || columns[0].ty.Blob?)) then 1 else 0)
         + LengthFields(columns[1..])
  }

  lemma PoseStampedLengths()
    ensures LengthFields(PoseStampedDef()) == 0
  {
    hide HeaderDef, PoseDef, AllKinds, KindsOf;
  }

  lemma TransformStampedLengths()
    ensures LengthFields(TransformStampedDef()) == 0
  {
    hide HeaderDef, TransformDef, AllKinds, KindsOf;
  }

  lemma OdometryLengths()
    ensures LengthFields(OdometryDef()) == 0
  {
    hide HeaderDef, PoseWithCovarianceDef, TwistWithCovarianceDef, AllKinds, KindsOf;
  }

  lemma PathLengths()
    ensures LengthFields(PathDef()) == 1
  {
    hide HeaderDef, PoseStampedDef, AllKinds, KindsOf;
  }

  lemma LensLengths()
    ensures LengthFields(LensDef()) == 1
  {
    hide RegionOfInterestDef, AllKinds, KindsOf;
  }

  lemma CameraInfoLengths()
    ensures LengthFields(CameraInfoDef()) == 1
  {
    LensLengths();
    hide HeaderDef, LensDef, AllKinds, KindsOf;
  }

  lemma CompressedImageLengths()
    ensures LengthFields(CompressedImageDef()) == 1
  {
    hide HeaderDef, AllKinds, KindsOf;
  }

  lemma ImageLengths()
    ensures LengthFields(ImageDef()) == 1
  {
    hide HeaderDef, AllKinds, KindsOf;
  }

  lemma ImuLengths()
    ensures LengthFields(ImuDef()) == 0
  {
    hide HeaderDef, QuaternionDef, Vector3Def, AllKinds, KindsOf;
  }

  lemma JointStateLengths()
    ensures LengthFields(JointStateDef()) == 4
  {
    hide HeaderDef, AllKinds, KindsOf;
  }

  lemma CloudTailLengths()
    ensures LengthFields(CloudTailDef()) == 1
  {
    hide AllKinds, KindsOf;
  }

  lemma PointCloud2Lengths()
    ensures LengthFields(PointCloud2Def()) == 2
  {
    CloudTailLengths();
    hide HeaderDef, PointFieldDef, CloudTailDef, AllKinds, KindsOf;
  }

  /** The table, type by type: the lengths its offset allows for. */
  function Allowed(t: MsgType): nat {
    match t
    case NavPath => 1
    case SensorCameraInfo => 1
    case SensorCompressedImage => 1
    case SensorImage => 1
    case SensorPointCloud2 => 2
    case SensorJointState => 4
    case _ => 0
  }

  lemma PlainEntries(t: MsgType)
    requires !Sensing(t)
    ensures SupportFor(TypeName(t)) == if t == Tf2TFMessage then TfStamps else Fixed(12 + 4 * Allowed(t))
  {
  }

  lemma ImageEntries(t: MsgType)
    requires t.SensorCameraInfo? || t.SensorCompressedImage? || t.SensorImage?
    ensures SupportFor(TypeName(t)) == Fixed(16)
  {
  }

  lemma CloudEntries(t: MsgType)
    requires t.SensorImu? || t.SensorPointCloud2?
    ensures SupportFor(TypeName(t)) == Fixed(12 + 4 * Allowed(t))
  {
  }

  lemma JointStateEntry()
    ensures SupportFor("sensor_msgs.JointState") == Fixed(28)
  {
  }

  lemma LaserScanEntry()
    ensures SupportFor("sensor_msgs.LaserScan") == Unstamped
  {
  }

  lemma SensorEntries(t: MsgType)
    requires Sensing(t)
    ensures SupportFor(TypeName(t)) == if t == SensorLaserScan then Unstamped else Fixed(12 + 4 * Allowed(t))
  {
    hide SupportFor;
    if t.SensorCameraInfo? || t.SensorCompressedImage? || t.SensorImage? {
      ImageEntries(t);
    } else if t.SensorImu? || t.SensorPointCloud2? {
      CloudEntries(t);
    } else {
      JointStateEntry();
      LaserScanEntry();
    }
  }

  lemma PoseDefinitionLengths(t: MsgType)
    requires t.GeometryPoseStamped? || t.GeometryTransformStamped? || t.NavOdometry? || t.NavPath? || t.SensorImu?
    ensures LengthFields(Definition(t)) == Allowed(t)
  {
    hide LengthFields, PoseStampedDef, TransformStampedDef, OdometryDef, PathDef, CameraInfoDef, CompressedImageDef,
      ImageDef, ImuDef, JointStateDef, LaserScanDef, PointCloud2Def, TFMessageDef;
    if t.GeometryPoseStamped? {
      PoseStampedLengths();
    } else if t.GeometryTransformStamped? {
      TransformStampedLengths();
    } else if t.NavOdometry? {
      OdometryLengths();
    } else if t.NavPath? {
      PathLengths();
    } else {
      ImuLengths();
    }
  }

  lemma ImageDefinitionLengths(t: MsgType)
    requires t.SensorCameraInfo? || t.SensorCompressedImage? || t.SensorImage? || t.SensorJointState?
        || t.SensorPointCloud2?
    ensures LengthFields(Definition(t)) == Allowed(t)
  {
    hide LengthFields, PoseStampedDef, TransformStampedDef, OdometryDef, PathDef, CameraInfoDef, CompressedImageDef,
      ImageDef, ImuDef, JointStateDef, LaserScanDef, PointCloud2Def, TFMessageDef;
    if t.SensorCameraInfo? {
      CameraInfoLengths();
    } else if t.SensorCompressedImage? {
      CompressedImageLengths();
    } else if t.SensorImage? {
      ImageLengths();
    } else if t.SensorJointState? {
      JointStateLengths();
    } else {
      PointCloud2Lengths();
    }
  }

  /** Where a type's one stamp stands: behind fingerprint, lengths and `seq`. */
  function StampAt(t: MsgType): nat { 8 + 4 * LengthFields(Definition(t)) + 4 }

  /**
    The stamp table agrees with the definitions: where a type has one fixed stamp it stands behind
    the 8-byte fingerprint, 4 bytes for each length the definition calls for and 4 of `seq`. Of the
    twelve types only LaserScan has a header and no entry: its stamps are never rewritten or shown.
   */
  lemma StampsFollowDefinition(t: MsgType)
    ensures t != Tf2TFMessage && t != SensorLaserScan ==>
              SupportFor(TypeName(t)) == Fixed(StampAt(t))
    ensures SupportFor(TypeName(t)).TfStamps? <==> t == Tf2TFMessage
    ensures SupportFor(TypeName(t)).Unstamped? <==> t == SensorLaserScan
  {
    hide SupportFor, TypeName, LengthFields, Definition;
    if Sensing(t) { SensorEntries(t); } else { PlainEntries(t); }
    if t != Tf2TFMessage && t != SensorLaserScan {
      if t.GeometryPoseStamped? || t.GeometryTransformStamped? || t.NavOdometry? || t.NavPath? || t.SensorImu? {
        PoseDefinitionLengths(t);
      } else {
        ImageDefinitionLengths(t);
      }
    }
  }

  /** A signed word, highest byte first. */
  function SignedAt(buf: seq<byte>, at: nat): int
    requires at + 4 <= |buf|
  {
    var n := 0x100_0000 * (buf[at] as int) + 0x1_0000 * (buf[at + 1] as int) + 0x100 * (buf[at + 2] as int)
             + buf[at + 3] as int;
    if n < 0x8000_0000 then n else n - 0x1_0000_0000
  }

  /** The time two parts are of, unless the seconds say that it is unset. */
  function TimeOf(sec: int, nsec: int): Option<int> {
    if sec > 0 then Some(sec * 1_000_000_000 + nsec) else None
  }

  /** The time a payload of one of the twelve types shows of itself. */
  function TimeShown(lcm: LcmCodec, t: MsgType, payload: seq<byte>): Option<int> {
    if t == SensorLaserScan then None
    else if t == Tf2TFMessage then
      var m := lcm.decode(Tf2TFMessage, payload);
      if m.None? || !m.value.MTFMessage? || m.value.tfMessage.transforms == [] then None
      else var stamp := m.value.tfMessage.transforms[0].header.stamp; TimeOf(stamp.sec as int, stamp.nsec as int)
    else
      var at := StampAt(t);
      if |payload| < at + 8 then None else TimeOf(SignedAt(payload, at), SignedAt(payload, at + 4))
  }

  lemma WordIsSigned(buf: seq<byte>, at: nat)
    requires at + 4 <= |buf|
    ensures ReadI32(buf[at..at + 4]) == SignedAt(buf, at)
  {
    hide ReadI32;
    WordIsBigEndian(buf[at..at + 4]);
  }

  /**
    What a payload is captured and keyed with: the time its bytes show where the definition puts the
    stamp, the first transform's for a TFMessage, and nothing when it is unset or not there.
   */
  lemma StampIsShown(lcm: LcmCodec, t: MsgType, payload: seq<byte>)
    ensures StampOf(lcm, SupportFor(TypeName(t)), payload) == TimeShown(lcm, t, payload)
  {
    hide SupportFor, TypeName, LengthFields, Definition, SignedAt, ReadI32;
    StampsFollowDefinition(t);
    if t != Tf2TFMessage && t != SensorLaserScan {
      var at := StampAt(t);
      if |payload| >= at + 8 {
        WordIsSigned(payload, at);
        WordIsSigned(payload, at + 4);
      }
    }
  }
}
