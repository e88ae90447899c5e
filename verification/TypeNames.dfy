/** The spellings of the twelve transcodable types: dimos names and ROS schema names. */
module TypeNames {
  import opened Prelude
  import opened Messages

  /** The names `to_lcm`, `to_cdr` and `supports` match on. */
  function TypeName(t: MsgType): string {
    match t
    case GeometryPoseStamped => "geometry_msgs.PoseStamped"
    case GeometryTransformStamped => "geometry_msgs.TransformStamped"
    case NavOdometry => "nav_msgs.Odometry"
    case NavPath => "nav_msgs.Path"
    case SensorCameraInfo => "sensor_msgs.CameraInfo"
    case SensorCompressedImage => "sensor_msgs.CompressedImage"
    case SensorImage => "sensor_msgs.Image"
    case SensorImu => "sensor_msgs.Imu"
    case SensorJointState => "sensor_msgs.JointState"
    case SensorLaserScan => "sensor_msgs.LaserScan"
    case SensorPointCloud2 => "sensor_msgs.PointCloud2"
    case Tf2TFMessage => "tf2_msgs.TFMessage"
  }

  function TypeNamed(name: string): (t: Option<MsgType>)
    ensures t.Some? ==> name == TypeName(t.value)
  {
    if name == "geometry_msgs.PoseStamped" then Some(GeometryPoseStamped)
    else if name == "geometry_msgs.TransformStamped" then Some(GeometryTransformStamped)
    else if name == "nav_msgs.Odometry" then Some(NavOdometry)
    else if name == "nav_msgs.Path" then Some(NavPath)
    else if name == "sensor_msgs.CameraInfo" then Some(SensorCameraInfo)
    else if name == "sensor_msgs.CompressedImage" then Some(SensorCompressedImage)
    else if name == "sensor_msgs.Image" then Some(SensorImage)
    else if name == "sensor_msgs.Imu" then Some(SensorImu)
    else if name == "sensor_msgs.JointState" then Some(SensorJointState)
    else if name == "sensor_msgs.LaserScan" then Some(SensorLaserScan)
    else if name == "sensor_msgs.PointCloud2" then Some(SensorPointCloud2)
    else if name == "tf2_msgs.TFMessage" then Some(Tf2TFMessage)
    else None
  }

  /** The ROS schema name written beside a CDR channel. */
  function SchemaName(t: MsgType): string {
    match t
    case GeometryPoseStamped => "geometry_msgs/msg/PoseStamped"
    case GeometryTransformStamped => "geometry_msgs/msg/TransformStamped"
    case NavOdometry => "nav_msgs/msg/Odometry"
    case NavPath => "nav_msgs/msg/Path"
    case SensorCameraInfo => "sensor_msgs/msg/CameraInfo"
    case SensorCompressedImage => "sensor_msgs/msg/CompressedImage"
    case SensorImage => "sensor_msgs/msg/Image"
    case SensorImu => "sensor_msgs/msg/Imu"
    case SensorJointState => "sensor_msgs/msg/JointState"
    case SensorLaserScan => "sensor_msgs/msg/LaserScan"
    case SensorPointCloud2 => "sensor_msgs/msg/PointCloud2"
    case Tf2TFMessage => "tf2_msgs/msg/TFMessage"
  }

  predicate Sensing(t: MsgType) {
    t in {SensorCameraInfo, SensorCompressedImage, SensorImage, SensorImu, SensorJointState, SensorLaserScan,
          SensorPointCloud2}
  }

  lemma NameRoundTrip(t: MsgType)
    ensures TypeNamed(TypeName(t)) == Some(t)
  {
    hide TypeName, TypeNamed;
    if Sensing(t) { SensorNames(t); } else { OtherNames(t); }
  }

  lemma SensorNames(t: MsgType)
    requires Sensing(t)
    ensures TypeNamed(TypeName(t)) == Some(t)
  {
  }

  lemma OtherNames(t: MsgType)
    requires !Sensing(t)
    ensures TypeNamed(TypeName(t)) == Some(t)
  {
  }
}
