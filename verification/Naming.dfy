/**
  How streams and types are spelled: on the wire, in an mcap channel, and back
  (src/sink.rs, src/record.rs, src/source.rs, src/cdr.rs).
 */
module Naming {
  import opened Prelude
  import opened Messages
  import opened Cdr
  import opened Stamps
  import opened TypeNames
  import Layouts

  // ------------------------------------------------------------ strings

  function StripPrefix(s: string, prefix: string): Option<string> {
    if prefix <= s then Some(s[|prefix|..]) else None
  }

  /** The pieces before and after the last `sep`. */
  function RSplitOnce(s: string, sep: char): (r: Option<(string, string)>)
    ensures r.None? <==> sep !in s
    ensures r.Some? ==> s == r.value.0 + [sep] + r.value.1 && sep !in r.value.1
  {
    if s == "" then None
    else
      var front, last := s[..|s| - 1], s[|s| - 1];
      if last == sep then Some((front, ""))
      else
        match RSplitOnce(front, sep)
        case None => None
        case Some((before, after)) => Some((before, after + [last]))
  }

  /** There is one last separator. */
  lemma {:induction false} SplitsAt(before: string, sep: char, after: string)
    requires sep !in after
    ensures RSplitOnce(before + [sep] + after, sep) == Some((before, after))
    decreases |after|
  {
    var s := before + [sep] + after;
    if after == "" {
      assert s[..|s| - 1] == before;
    } else {
      var front := after[..|after| - 1];
      SplitsAt(before, sep, front);
      assert s[..|s| - 1] == before + [sep] + front;
      assert s[|s| - 1] == after[|after| - 1];
      assert front + [after[|after| - 1]] == after;
    }
  }

  predicate EndsWith(s: string, suffix: string) {
    |suffix| <= |s| && s[|s| - |suffix|..] == suffix
  }

  // ------------------------------------------------------------ channels

  /** `topic#msg_name` on LCM, `topic/msg_name` on Zenoh; no suffix for an unknown type. */
  function Name(prefix: string, published: string, msgName: string, separator: char): string {
    if msgName == "" then prefix + published else prefix + published + [separator] + msgName
  }

  function SplitChannel(channel: string, prefix: string, separator: char): (string, string) {
    var rest := match StripPrefix(channel, prefix) case Some(r) => r case None => channel;
    SplitBare(rest, separator)
  }

  /** The split of what is left once the prefix is gone. */
  function SplitBare(rest: string, separator: char): (string, string) {
    var bare := Bare(rest);
    match RSplitOnce(bare, separator)
    case Some((stream, msgName)) => (stream, msgName)
    case None => (bare, "")
  }

  /** One leading slash is dropped. */
  function Bare(rest: string): string {
    match StripPrefix(rest, "/") case Some(r) => r case None => rest
  }

  lemma BareFront(front: string, rest: string)
    requires front != ""
    ensures Bare(front + rest) == Bare(front) + rest
  {
    var s := front + rest;
    assert s[0] == front[0];
    assert s[1..] == front[1..] + rest;
  }

  lemma SplitUntyped(published: string, separator: char)
    requires separator in {'#', '/'}
    ensures SplitBare(published, separator) == (published, "")
       <==> !("/" <= published) && separator !in published
  {
    if separator in published && !("/" <= published) {
      assert RSplitOnce(published, separator).Some?;
    }
  }

  lemma SplitTyped(published: string, msgName: string, separator: char)
    requires separator in {'#', '/'} && separator !in msgName && msgName != ""
    ensures SplitBare(published + [separator] + msgName, separator) == (published, msgName)
       <==> !("/" <= published) && (published == "" ==> separator != '/')
  {
    hide RSplitOnce;
    var typed := published + [separator] + msgName;
    SplitsAt(published, separator, msgName);
    if published == "" {
      assert typed == [separator] + msgName;
      assert separator == '/' ==> typed[1..] == msgName;
    } else {
      assert typed[0] == published[0];
      SplitsAt(published[1..], separator, msgName);
      assert typed[1..] == published[1..] + [separator] + msgName;
    }
  }

  /**
    Splitting a published channel gives back the stream and the type exactly when the stream
    does not lead with a slash, the type holds no separator, an untyped stream holds none
    either, and a typed one is not the empty name on Zenoh.
   */
  lemma SplitInvertsNameIff(prefix: string, published: string, msgName: string, separator: char)
    requires separator in {'#', '/'}
    ensures SplitChannel(Name(prefix, published, msgName, separator), prefix, separator) == (published, msgName)
       <==> && !("/" <= published)
            && separator !in msgName
            && (msgName == "" ==> separator !in published)
            && (msgName != "" && published == "" ==> separator != '/')
  {
    hide RSplitOnce;
    var typed := published + (if msgName == "" then "" else [separator] + msgName);
    assert Name(prefix, published, msgName, separator) == prefix + typed;
    assert StripPrefix(prefix + typed, prefix) == Some(typed);
    if msgName == "" {
      assert typed == published;
      SplitUntyped(published, separator);
    } else if separator !in msgName {
      assert typed == published + [separator] + msgName;
      SplitTyped(published, msgName, separator);
    }
  }

  /** Whatever the name, a typed channel gives its type back when the type holds no separator. */
  lemma TypeComesBack(prefix: string, published: string, msgName: string, separator: char)
    requires separator in {'#', '/'} && separator !in msgName && msgName != "" && published != ""
    ensures SplitChannel(Name(prefix, published, msgName, separator), prefix, separator).1 == msgName
  {
    hide RSplitOnce;
    var typed := published + [separator] + msgName;
    assert Name(prefix, published, msgName, separator) == prefix + typed;
    assert StripPrefix(prefix + typed, prefix) == Some(typed);
    assert typed[0] == published[0];
    SplitsAt(published, separator, msgName);
    SplitsAt(published[1..], separator, msgName);
    assert typed[1..] == published[1..] + [separator] + msgName;
  }

  /** The stamp half of a loopback key: that of the payload under the support of a type, 0 for none. */
  function KeyStamp(lcm: LcmCodec, msgName: string, data: seq<byte>): int {
    var stamp := StampOf(lcm, SupportFor(msgName), data);
    if stamp.Some? then stamp.value else 0
  }

  /** The loopback key a replay notes when it publishes. */
  function KeyWhenPublished(lcm: LcmCodec, prefix: string, published: string, msgName: string,
                            separator: char, data: seq<byte>): (string, int) {
    (Name(prefix, published, msgName, separator), KeyStamp(lcm, msgName, data))
  }

  /** The key the recorder asks about when the same bytes come back on the same channel. */
  function KeyWhenDelivered(lcm: LcmCodec, prefix: string, channel: string,
                            separator: char, data: seq<byte>): (string, int) {
    (channel, KeyStamp(lcm, SplitChannel(channel, prefix, separator).1, data))
  }

  /** A message of one of the twelve types is keyed by the channel and the time its bytes show, 0 for none. */
  lemma KeyIsTimeShown(lcm: LcmCodec, prefix: string, published: string, t: MsgType, separator: char, data: seq<byte>)
    ensures var shown := Layouts.TimeShown(lcm, t, data);
            KeyWhenPublished(lcm, prefix, published, TypeName(t), separator, data)
            == (Name(prefix, published, TypeName(t), separator), if shown.Some? then shown.value else 0)
  {
    hide StampOf, SupportFor, TypeName, Layouts.TimeShown;
    Layouts.StampIsShown(lcm, t, data);
  }

  /** An untyped stream whose name, past one leading slash, seems to end in a type. */
  function MistakenType(published: string, separator: char): Option<string> {
    match RSplitOnce(Bare(published), separator)
    case Some((_, after)) => Some(after)
    case None => None
  }

  /** The type the recorder reads off a published channel. */
  function DeliveredType(published: string, msgName: string, separator: char): string {
    if msgName == "" then match MistakenType(published, separator) case Some(after) => after case None => ""
    else if separator in msgName then RSplitOnce(msgName, separator).value.1
    else if published == "" && separator == '/' then ""
    else msgName
  }

  lemma LastPieceOf(before: string, s: string, separator: char)
    requires separator in s
    ensures RSplitOnce(before + s, separator).Some? && RSplitOnce(s, separator).Some?
    ensures RSplitOnce(before + s, separator).value.1 == RSplitOnce(s, separator).value.1
  {
    var (front, last) := RSplitOnce(s, separator).value;
    SplitsAt(before + front, separator, last);
    assert before + s == before + front + [separator] + last;
  }

  lemma SplitPieces(published: string, msgName: string, separator: char)
    requires separator in msgName
    ensures SplitBare(published + [separator] + msgName, separator).1 == RSplitOnce(msgName, separator).value.1
  {
    hide RSplitOnce, Bare;
    BareFront(published + [separator], msgName);
    LastPieceOf(Bare(published + [separator]), msgName, separator);
  }

  /** Whatever the stream, the type and the prefix. */
  lemma DeliveredTypeIs(prefix: string, published: string, msgName: string, separator: char)
    requires separator in {'#', '/'}
    ensures SplitChannel(Name(prefix, published, msgName, separator), prefix, separator).1
         == DeliveredType(published, msgName, separator)
  {
    hide RSplitOnce;
    var typed := published + (if msgName == "" then "" else [separator] + msgName);
    assert Name(prefix, published, msgName, separator) == prefix + typed;
    assert StripPrefix(prefix + typed, prefix) == Some(typed);
    if msgName == "" {
      assert typed == published;
    } else if separator in msgName {
      assert typed == published + [separator] + msgName;
      SplitPieces(published, msgName, separator);
    } else if published != "" {
      TypeComesBack(prefix, published, msgName, separator);
    } else {
      SplitsAt("", separator, msgName);
      assert typed == "" + [separator] + msgName && typed[1..] == msgName;
    }
  }

  /**
    A message is looked for under the key it was noted under exactly when it shows the same stamp
    under the type read off its channel as under its own. For a named stream whose type holds no
    separator that is: exactly when it is typed, when its name does not seem to end in a type, or
    when the payload shows no stamp under that type.
   */
  lemma KeysAgreeIff(lcm: LcmCodec, prefix: string, published: string, msgName: string,
                     separator: char, data: seq<byte>)
    requires separator in {'#', '/'}
    ensures var agree := KeyWhenDelivered(lcm, prefix, Name(prefix, published, msgName, separator), separator, data)
                      == KeyWhenPublished(lcm, prefix, published, msgName, separator, data);
            && (agree <==>
                  KeyStamp(lcm, DeliveredType(published, msgName, separator), data) == KeyStamp(lcm, msgName, data))
            && (published != "" && separator !in msgName ==>
                  (agree <==> || msgName != ""
                              || MistakenType(published, separator).None?
                              || KeyStamp(lcm, MistakenType(published, separator).value, data) == 0))
  {
    DeliveredTypeIs(prefix, published, msgName, separator);
    UntypedHasNoStamp(lcm, data);
    hide RSplitOnce, KeyStamp, SplitChannel;
  }

  lemma UntypedHasNoStamp(lcm: LcmCodec, data: seq<byte>)
    ensures KeyStamp(lcm, "", data) == 0
  {
  }

  // ------------------------------------------------------------ payload modules

  const MODULES := "dimos.msgs."

  /** `sensor_msgs.Image` -> `dimos.msgs.sensor_msgs.Image.Image`. */
  function PayloadModule(msgName: string): Option<string> {
    var class_ := match RSplitOnce(msgName, '.') case Some((_, last)) => last case None => msgName;
    if class_ == "" then None else Some(MODULES + msgName + "." + class_)
  }

  function MsgNameFromPayloadModule(payloadModule: string): string {
    var path := match StripPrefix(payloadModule, MODULES) case Some(rest) => rest case None => payloadModule;
    match RSplitOnce(path, '.')
    case Some((module_, class_)) => if EndsWith(module_, class_) then module_ else path
    case None => path
  }

  /** The type the reader finds in the metadata the recorder wrote for `msgName`. */
  function ReopenedType(msgName: string): string {
    MsgNameFromPayloadModule(match PayloadModule(msgName) case Some(written) => written case None => "")
  }

  /** A type with a class segment does not end in a dot. */
  lemma EndsInItsClass(msgName: string)
    requires msgName != "" && (RSplitOnce(msgName, '.').Some? ==> RSplitOnce(msgName, '.').value.1 != "")
    ensures !EndsWith(msgName, ".")
  {
    match RSplitOnce(msgName, '.')
    case None => assert msgName[|msgName| - 1] != '.';
    case Some((before, class_)) => assert msgName[|msgName| - 1] == class_[|class_| - 1];
  }

  /** A type survives the metadata exactly when it is unknown or ends in a class name. */
  lemma TypeSurvivesMetadataIff(msgName: string)
    ensures ReopenedType(msgName) == msgName <==> msgName == "" || !EndsWith(msgName, ".")
  {
    var class_ := match RSplitOnce(msgName, '.') case Some((_, last)) => last case None => msgName;
    assert EndsWith(msgName, class_);
    if class_ != "" {
      var path := msgName + "." + class_;
      assert MODULES + msgName + "." + class_ == MODULES + path;
      assert StripPrefix(MODULES + path, MODULES) == Some(path);
      SplitsAt(msgName, '.', class_);
      assert path == msgName + ['.'] + class_;
      EndsInItsClass(msgName);
    } else if msgName != "" {
      assert msgName[|msgName| - 1..] == ".";
      assert ReopenedType(msgName) == "" by { assert !(MODULES <= ""); }
    }
  }

  // ------------------------------------------------------------ schema names

  /** `schema.replace("::", "/")`. */
  function Flattened(s: string): string {
    if s == "" then ""
    else if |s| >= 2 && s[0] == ':' && s[1] == ':' then "/" + Flattened(s[2..])
    else [s[0]] + Flattened(s[1..])
  }

  function SplitAll(s: string, sep: char): (parts: seq<string>)
    ensures parts != []
  {
    if s == "" then [""]
    else
      var rest := SplitAll(s[1..], sep);
      if s[0] == sep then [""] + rest else [[s[0]] + rest[0]] + rest[1..]
  }

  predicate Meaningful(part: string) { part != "msg" && part != "dds_" }

  function Filtered(parts: seq<string>): seq<string> {
    if parts == [] then []
    else (if Meaningful(parts[0]) then [parts[0]] else []) + Filtered(parts[1..])
  }

  function TrimEnd(s: string, c: char): string {
    if s != "" && s[|s| - 1] == c then TrimEnd(s[..|s| - 1], c) else s
  }

  function Dotted(s: string): string {
    seq(|s|, i requires 0 <= i < |s| => if s[i] == '/' then '.' else s[i])
  }

  function MsgNameFromSchema(schema: string): string {
    var flattened := Flattened(schema);
    var parts := Filtered(SplitAll(flattened, '/'));
    if |parts| >= 2 then parts[0] + "." + TrimEnd(parts[1], '_') else Dotted(flattened)
  }

  /** A package or class name: no separators, and not one of the segments that are dropped. */
  predicate Plain(s: string) { ':' !in s && '/' !in s && Meaningful(s) }

  lemma {:induction false} FlattenedPlain(a: string, rest: string)
    requires ':' !in a
    ensures Flattened(a + rest) == a + Flattened(rest)
    decreases |a|
  {
    if a == "" {
      assert a + rest == rest;
    } else {
      FlattenedPlain(a[1..], rest);
      assert (a + rest)[1..] == a[1..] + rest;
    }
  }

  lemma {:induction false} SplitPlain(a: string, rest: string)
    requires '/' !in a
    ensures SplitAll(a + "/" + rest, '/') == [a] + SplitAll(rest, '/')
    decreases |a|
  {
    var s := a + "/" + rest;
    if a == "" {
      assert s[1..] == rest;
    } else {
      SplitPlain(a[1..], rest);
      assert s[1..] == a[1..] + "/" + rest;
      HeadJoins(a, SplitAll(rest, '/'));
    }
  }

  lemma {:induction false} SplitNothing(a: string)
    requires '/' !in a
    ensures SplitAll(a, '/') == [a]
    decreases |a|
  {
    if a != "" {
      SplitNothing(a[1..]);
      HeadJoins(a, []);
      assert [a[1..]] + [] == [a[1..]];
    }
  }

  lemma HeadJoins(a: string, parts: seq<string>)
    requires a != ""
    ensures [[a[0]] + ([a[1..]] + parts)[0]] + ([a[1..]] + parts)[1..] == [a] + parts
  {
    assert [a[0]] + a[1..] == a;
  }

  /** The rosbag2 spelling names the dimos type. */
  lemma RosSpellingNamesType(package: string, class_: string)
    requires Plain(package) && Plain(class_) && !EndsWith(class_, "_")
    ensures MsgNameFromSchema(package + "/msg/" + class_) == package + "." + class_
  {
    var schema := package + "/msg/" + class_;
    FlattenedPlain(schema, "");
    assert schema + "" == schema;
    assert schema == package + "/" + ("msg" + "/" + class_);
    SplitPlain(package, "msg" + "/" + class_);
    SplitPlain("msg", class_);
    SplitNothing(class_);
    assert SplitAll(schema, '/') == [package] + (["msg"] + [class_]);
    OnlyMeaningful(package, ["msg"], class_);
    NothingToTrim(class_);
  }

  /** So does the IDL spelling taken straight off a DDS wire. */
  lemma DdsSpellingNamesType(package: string, class_: string)
    requires Plain(package) && Plain(class_ + "_") && !EndsWith(class_, "_")
    ensures MsgNameFromSchema(package + "::msg::dds_::" + class_ + "_") == package + "." + class_
  {
    hide Flattened, SplitAll, Filtered, TrimEnd;
    var last := class_ + "_";
    DdsFlattens(package, last);
    assert package + "::msg::dds_::" + class_ + "_" == package + "::msg::dds_::" + last;
    SplitPlain(package, "msg" + "/" + ("dds_" + "/" + last));
    SplitPlain("msg", "dds_" + "/" + last);
    SplitPlain("dds_", last);
    SplitNothing(last);
    assert ["msg"] + (["dds_"] + [last]) == ["msg", "dds_"] + [last];
    OnlyMeaningful(package, ["msg", "dds_"], last);
    TrimsOne(class_);
  }

  lemma DdsFlattens(package: string, last: string)
    requires ':' !in package && ':' !in last
    ensures Flattened(package + "::msg::dds_::" + last) == package + "/" + ("msg" + "/" + ("dds_" + "/" + last))
  {
    hide Flattened;
    var fromDds := "dds_" + ("::" + last);
    var fromMsg := "msg" + ("::" + fromDds);
    assert package + "::msg::dds_::" + last == package + ("::" + fromMsg) by { DdsSegments(package, last); }
    SegmentFlattens(package, fromMsg);
    SegmentFlattens("msg", fromDds);
    SegmentFlattens("dds_", last);
    NothingToFlatten(last);
  }

  lemma DdsSegments(package: string, last: string)
    ensures package + "::msg::dds_::" + last == package + ("::" + ("msg" + ("::" + ("dds_" + ("::" + last)))))
  {
    assert "::msg::dds_::" == "::" + ("msg" + ("::" + ("dds_" + "::")));
  }

  lemma SegmentFlattens(a: string, rest: string)
    requires ':' !in a
    ensures Flattened(a + ("::" + rest)) == a + "/" + Flattened(rest)
  {
    hide Flattened;
    FlattenedPlain(a, "::" + rest);
    FlattenedColons(rest);
    assert a + ("/" + Flattened(rest)) == a + "/" + Flattened(rest);
  }

  lemma NothingToFlatten(s: string)
    requires ':' !in s
    ensures Flattened(s) == s
  {
    FlattenedPlain(s, "");
    assert s + "" == s;
  }

  lemma TrimsOne(class_: string)
    requires !EndsWith(class_, "_")
    ensures TrimEnd(class_ + "_", '_') == class_
  {
    assert (class_ + "_")[..|class_|] == class_;
    NothingToTrim(class_);
  }

  lemma FlattenedColons(rest: string)
    ensures Flattened("::" + rest) == "/" + Flattened(rest)
  {
    assert ("::" + rest)[2..] == rest;
  }

  lemma OnlyMeaningful(package: string, dropped: seq<string>, class_: string)
    requires Meaningful(package) && Meaningful(class_)
    requires dropped == ["msg"] || dropped == ["msg", "dds_"]
    ensures Filtered([package] + (dropped + [class_])) == [package, class_]
  {
    var parts := [package] + (dropped + [class_]);
    assert parts[1..] == dropped + [class_];
    FilteredLast(class_);
    if |dropped| == 1 {
      assert (dropped + [class_])[1..] == [class_];
    } else {
      assert (dropped + [class_])[1..] == ["dds_", class_];
      assert ["dds_", class_][1..] == [class_];
      assert Filtered(["dds_", class_]) == [class_];
    }
    assert Filtered(dropped + [class_]) == [class_];
  }

  lemma FilteredLast(class_: string)
    requires Meaningful(class_)
    ensures Filtered([class_]) == [class_]
  {
    assert [class_][1..] == [];
  }

  lemma NothingToTrim(s: string)
    requires !EndsWith(s, "_")
    ensures TrimEnd(s, '_') == s
  {
    assert s != "" ==> s[|s| - 1..] == [s[|s| - 1]];
  }

  /** For each of the twelve types, the schema name the recorder writes is read back as the type. */
  lemma SchemaNamesType(t: MsgType)
    ensures MsgNameFromSchema(SchemaName(t)) == TypeName(t)
  {
    hide MsgNameFromSchema, Plain, EndsWith, SchemaName, TypeName, PackageOf, ClassOf;
    PlainPackages();
    PoseStampedSpelling();
    TransformStampedSpelling();
    OdometrySpelling();
    PathSpelling();
    CameraInfoSpelling();
    CompressedImageSpelling();
    ImageSpelling();
    ImuSpelling();
    JointStateSpelling();
    LaserScanSpelling();
    PointCloud2Spelling();
    TFMessageSpelling();
    RosSpellingNamesType(PackageOf(t), ClassOf(t));
  }

  function PackageOf(t: MsgType): string {
    match t
    case GeometryPoseStamped => "geometry_msgs"
    case GeometryTransformStamped => "geometry_msgs"
    case NavOdometry => "nav_msgs"
    case NavPath => "nav_msgs"
    case Tf2TFMessage => "tf2_msgs"
    case _ => "sensor_msgs"
  }

  function ClassOf(t: MsgType): string {
    match t
    case GeometryPoseStamped => "PoseStamped"
    case GeometryTransformStamped => "TransformStamped"
    case NavOdometry => "Odometry"
    case NavPath => "Path"
    case SensorCameraInfo => "CameraInfo"
    case SensorCompressedImage => "CompressedImage"
    case SensorImage => "Image"
    case SensorImu => "Imu"
    case SensorJointState => "JointState"
    case SensorLaserScan => "LaserScan"
    case SensorPointCloud2 => "PointCloud2"
    case Tf2TFMessage => "TFMessage"
  }

  ghost predicate SpelledBy(t: MsgType) {
    && Plain(ClassOf(t)) && !EndsWith(ClassOf(t), "_")
    && SchemaName(t) == PackageOf(t) + "/msg/" + ClassOf(t)
    && TypeName(t) == PackageOf(t) + "." + ClassOf(t)
  }

  lemma PlainPackages()
    ensures forall t: MsgType :: Plain(PackageOf(t))
  {
    assert Plain("geometry_msgs") && Plain("nav_msgs") && Plain("sensor_msgs") && Plain("tf2_msgs");
  }

  lemma PoseStampedSpelling()
    ensures SpelledBy(GeometryPoseStamped)
  {
  }

  lemma TransformStampedSpelling()
    ensures SpelledBy(GeometryTransformStamped)
  {
    hide Plain, EndsWith;
    TransformStampedIsPlain();
  }

  lemma TransformStampedIsPlain()
    ensures Plain("TransformStamped") && !EndsWith("TransformStamped", "_")
  {
  }

  lemma OdometrySpelling()
    ensures SpelledBy(NavOdometry)
  {
  }

  lemma PathSpelling()
    ensures SpelledBy(NavPath)
  {
  }

  lemma CameraInfoSpelling()
    ensures SpelledBy(SensorCameraInfo)
  {
  }

  lemma CompressedImageSpelling()
    ensures SpelledBy(SensorCompressedImage)
  {
  }

  lemma ImageSpelling()
    ensures SpelledBy(SensorImage)
  {
  }

  lemma ImuSpelling()
    ensures SpelledBy(SensorImu)
  {
  }

  lemma JointStateSpelling()
    ensures SpelledBy(SensorJointState)
  {
  }

  lemma LaserScanSpelling()
    ensures SpelledBy(SensorLaserScan)
  {
  }

  lemma PointCloud2Spelling()
    ensures SpelledBy(SensorPointCloud2)
  {
  }

  lemma TFMessageSpelling()
    ensures SpelledBy(Tf2TFMessage)
  {
  }
}
