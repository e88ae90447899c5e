/**
  Rewriting the timestamp inside an LCM payload (src/stamp.rs). A fixed-offset stamp is
  patched in place; a TFMessage is decoded, restamped and encoded again.
 */
module Stamps {
  import opened Prelude
  import opened Wire
  import opened Messages
  import opened Cdr

  datatype Support = Fixed(offset: nat) | TfStamps | Unstamped

  const NANOS_PER_SEC := 1_000_000_000
  const SAME_CLOCK_NS := 3600 * NANOS_PER_SEC

  /** Nanoseconds a stamp can hold and read back: from 1 s up to 2^31 s. */
  const STAMP_LIMIT := 0x8000_0000 * NANOS_PER_SEC

  function SupportFor(msgName: string): Support {
    if msgName in {"tf2_msgs.TFMessage", "geometry_msgs.Transform"} then TfStamps
    else if msgName in {
      "geometry_msgs.PointStamped", "geometry_msgs.PoseStamped", "geometry_msgs.PoseWithCovarianceStamped",
      "geometry_msgs.TransformStamped", "geometry_msgs.TwistStamped", "geometry_msgs.TwistWithCovarianceStamped",
      "geometry_msgs.WrenchStamped", "nav_msgs.Odometry", "sensor_msgs.Imu",
      "foxglove_msgs.CompressedVideo"} then Fixed(12)
    else if msgName in {
      "nav_msgs.LineSegments3D", "nav_msgs.OccupancyGrid", "nav_msgs.Path", "sensor_msgs.CameraInfo",
      "sensor_msgs.CompressedImage", "sensor_msgs.Image", "vision_msgs.Detection2D",
      "vision_msgs.Detection2DArray", "vision_msgs.Detection3D", "vision_msgs.Detection3DArray"} then Fixed(16)
    else if msgName in {"sensor_msgs.Joy", "sensor_msgs.PointCloud2"} then Fixed(20)
    else if msgName == "sensor_msgs.JointState" then Fixed(28)
    else Unstamped
  }

  // ------------------------------------------------------------ rounding

  /** `f64::round` on reals: to the nearest integer, halves away from zero. */
  function Round(x: real): int {
    if x >= 0.0 then (x + 0.5).Floor else -((0.5 - x).Floor)
  }

  lemma RoundIsNear(x: real)
    ensures -0.5 <= Round(x) as real - x <= 0.5
  {
  }

  lemma RoundIsMonotone(x: real, y: real)
    requires x <= y
    ensures Round(x) <= Round(y)
  {
  }

  function SecondsToNanos(seconds: real): (ns: int)
    ensures ns >= 0
  {
    if seconds <= 0.0 then 0 else Round(seconds * 1_000_000_000.0)
  }

  lemma SecondsToNanosIsNear(s: real)
    requires s >= 0.0
    ensures -0.5 <= SecondsToNanos(s) as real - s * 1_000_000_000.0 <= 0.5
  {
    RoundIsNear(s * 1_000_000_000.0);
  }

  lemma SecondsToNanosIsMonotone(s: real, t: real)
    requires s <= t
    ensures SecondsToNanos(s) <= SecondsToNanos(t)
  {
    if s > 0.0 { RoundIsMonotone(s * 1_000_000_000.0, t * 1_000_000_000.0); }
  }

  // ------------------------------------------------------------ stamps as parts

  /** `sec <= 0` is the unset marker, not a real 1970 timestamp. */
  function NanosFromParts(sec: i32, nsec: i32): Option<int> {
    if sec > 0 then Some(sec * NANOS_PER_SEC + nsec) else None
  }

  function NanosToParts(ns: int): (i32, i32) {
    if ns <= 0 then (0, 0)
    else
      var sec := ns / NANOS_PER_SEC;
      (if sec < TWO_TO_31 then sec else TWO_TO_31 - 1, ns % NANOS_PER_SEC)
  }

  predicate SameClock(stampNs: int, receivedNs: int) {
    receivedNs == 0 || -SAME_CLOCK_NS < stampNs - receivedNs < SAME_CLOCK_NS
  }

  /** The payload's own stamp, if it is set and reads as coming from the recorder's clock. */
  function Believable(stamp: Option<int>, receivedNs: int): Option<int> {
    if stamp.Some? && SameClock(stamp.value, receivedNs) then stamp else None
  }

  /** Exactly the stamps from 1 s up to 2^31 s survive being taken apart. */
  lemma PartsReadBackIff(ns: int)
    ensures NanosFromParts(NanosToParts(ns).0, NanosToParts(ns).1) == Some(ns)
       <==> NANOS_PER_SEC <= ns < STAMP_LIMIT
  {
  }

  // ------------------------------------------------------------ stamps as bytes

  function BigI32(n: i32): seq<byte> { ToBig(AsUnsigned(n), 4) }

  function ReadI32(bytes: seq<byte>): i32
    requires |bytes| == 4
  {
    BytesBound(false, bytes);
    WordAndDoubleSizes();
    AsSigned(FromBig(bytes))
  }

  lemma I32ReadsBack(n: i32)
    ensures ReadI32(BigI32(n)) == n
  {
    WordAndDoubleSizes();
    BytesRoundTrip(false, AsUnsigned(n), 4);
  }

  lemma I32PrintsBack(bytes: seq<byte>)
    requires |bytes| == 4
    ensures BigI32(ReadI32(bytes)) == bytes
  {
    WordAndDoubleSizes();
    BytesBound(false, bytes);
  }

  function ReadNanos(buf: seq<byte>, offset: nat): Option<int>
    requires offset + 8 <= |buf|
  {
    NanosFromParts(ReadI32(buf[offset..offset + 4]), ReadI32(buf[offset + 4..offset + 8]))
  }

  /** `buf` with the eight bytes at `offset` replaced by the stamp `ns`. */
  function Stamped(buf: seq<byte>, offset: nat, ns: int): (r: seq<byte>)
    requires offset + 8 <= |buf|
    ensures |r| == |buf|
  {
    buf[..offset] + BigI32(NanosToParts(ns).0) + BigI32(NanosToParts(ns).1) + buf[offset + 8..]
  }

  lemma StampedParts(buf: seq<byte>, offset: nat, ns: int)
    requires offset + 8 <= |buf|
    ensures var r := Stamped(buf, offset, ns);
            && ReadI32(r[offset..offset + 4]) == NanosToParts(ns).0
            && ReadI32(r[offset + 4..offset + 8]) == NanosToParts(ns).1
  {
    var r := Stamped(buf, offset, ns);
    var (sec, nsec) := NanosToParts(ns);
    assert r[offset..offset + 4] == BigI32(sec);
    assert r[offset + 4..offset + 8] == BigI32(nsec);
    I32ReadsBack(sec);
    I32ReadsBack(nsec);
  }

  /** Patching touches only the eight stamp bytes, and reads back exactly in the stamp's range. */
  lemma StampingIsLocalAndReadsBackIff(buf: seq<byte>, offset: nat, ns: int)
    requires offset + 8 <= |buf|
    ensures forall i :: 0 <= i < |buf| && !(offset <= i < offset + 8) ==> Stamped(buf, offset, ns)[i] == buf[i]
    ensures ReadNanos(Stamped(buf, offset, ns), offset) == Some(ns) <==> NANOS_PER_SEC <= ns < STAMP_LIMIT
  {
    StampedParts(buf, offset, ns);
    PartsReadBackIff(ns);
  }

  // ------------------------------------------------------------ the mapping

  datatype Retimer =
    | Scaled(firstNs: int, startWallNs: int, rate: real)
    | Shifted(deltaNs: int)
    | Original
  {
    predicate Valid() { Scaled? ==> rate > 0.0 }

    function Map(ns: int): int
      requires Valid()
    {
      match this
      case Scaled(first, start, r) => start + Round((ns - first) as real / r)
      case Shifted(delta) => ns + delta
      case Original => ns
    }
  }

  /** Division by a positive rate keeps order, and its rounding costs at most 1 ns per interval. */
  lemma ScaledIsMonotone(r: Retimer, a: int, b: int)
    requires r.Scaled? && r.Valid() && a <= b
    ensures r.Map(a) <= r.Map(b)
    ensures -1.0 <= (r.Map(b) - r.Map(a)) as real - (b - a) as real / r.rate <= 1.0
  {
    var x, y := (a - r.firstNs) as real / r.rate, (b - r.firstNs) as real / r.rate;
    assert y - x == (b - a) as real / r.rate;
    DivideKeepsOrder(0.0, (b - a) as real, r.rate);
    RoundIsMonotone(x, y);
    RoundIsNear(x);
    RoundIsNear(y);
  }

  lemma DivideKeepsOrder(x: real, y: real, r: real)
    requires r > 0.0 && x <= y
    ensures x / r <= y / r
  {
    var d := (y - x) / r;
    assert d * r == y - x;
    if d < 0.0 { NegativeTimesPositive(d, r); }
    assert y / r - x / r == d;
  }

  lemma NegativeTimesPositive(d: real, r: real)
    requires d < 0.0 && r > 0.0
    ensures d * r < 0.0
  {
  }

  // ------------------------------------------------------------ rewriting a payload

  /** What a restamped transform becomes, and whether reception time had to stand in. */
  function Restamped(r: Retimer, t: TransformStamped, receivedNs: int): TransformStamped
    requires r.Valid()
  {
    var stamp := Believable(NanosFromParts(t.header.stamp.sec, t.header.stamp.nsec), receivedNs);
    var (sec, nsec) := NanosToParts(r.Map(if stamp.Some? then stamp.value else receivedNs));
    t.(header := t.header.(stamp := Time(sec, nsec)))
  }

  predicate Substituted(t: TransformStamped, receivedNs: int) {
    Believable(NanosFromParts(t.header.stamp.sec, t.header.stamp.nsec), receivedNs).None?
  }

  /** The bytes after `apply`, and the flag it returns; Err for a payload it cannot restamp. */
  ghost function Retimed(r: Retimer, lcm: LcmCodec, support: Support, buf: seq<byte>, receivedNs: int)
      : Result<(seq<byte>, bool)>
    requires r.Valid() && lcm.Lawful()
  {
    if r.Original? || support.Unstamped? then Ok((buf, false))
    else if support.Fixed? then
      if |buf| < support.offset + 8 then Err
      else
        var stamp := Believable(ReadNanos(buf, support.offset), receivedNs);
        Ok((Stamped(buf, support.offset, r.Map(if stamp.Some? then stamp.value else receivedNs)), stamp.None?))
    else
      var decoded := lcm.decode(Tf2TFMessage, buf);
      if decoded.None? then Err
      else
        var ts := decoded.value.tfMessage.transforms;
        Ok((lcm.encode(MTFMessage(TFMessage(Each(t => Restamped(r, t, receivedNs), ts)))),
            exists t :: t in ts && Substituted(t, receivedNs)))
  }

  /** A `Vec<u8>` that is rewritten in place. */
  class Buffer {
    var bytes: seq<byte>

    constructor (bytes: seq<byte>)
      ensures this.bytes == bytes
    {
      this.bytes := bytes;
    }

    method WriteNanos(offset: nat, ns: int)
      requires offset + 8 <= |bytes|
      modifies this
      ensures bytes == Stamped(old(bytes), offset, ns)
    {
      var (sec, nsec) := NanosToParts(ns);
      bytes := bytes[..offset] + BigI32(sec) + bytes[offset + 4..];
      bytes := bytes[..offset + 4] + BigI32(nsec) + bytes[offset + 8..];
    }

    method Apply(r: Retimer, lcm: LcmCodec, support: Support, receivedNs: int) returns (res: Result<bool>)
      requires r.Valid() && lcm.Lawful()
      modifies this
      ensures match Retimed(r, lcm, support, old(bytes), receivedNs)
              case Err => res == Err && bytes == old(bytes)
              case Ok((out, substituted)) => res == Ok(substituted) && bytes == out
    {
      if r.Original? { return Ok(false); }
      match support {
        case Unstamped => return Ok(false);
        case Fixed(offset) =>
          if |bytes| < offset + 8 { return Err; }
          var recorded := Believable(ReadNanos(bytes, offset), receivedNs);
          WriteNanos(offset, r.Map(if recorded.Some? then recorded.value else receivedNs));
          return Ok(recorded.None?);
        case TfStamps =>
          var decoded := lcm.decode(Tf2TFMessage, bytes);
          if decoded.None? { return Err; }
          var transforms := decoded.value.tfMessage.transforms;
          ghost var before := transforms;
          var substituted := false;
          for i := 0 to |transforms|
            invariant |transforms| == |before|
            invariant forall k :: 0 <= k < i ==> transforms[k] == Restamped(r, before[k], receivedNs)
            invariant forall k :: i <= k < |transforms| ==> transforms[k] == before[k]
            invariant substituted <==> exists k :: 0 <= k < i && Substituted(before[k], receivedNs)
          {
            var stamp := transforms[i].header.stamp;
            var recorded := Believable(NanosFromParts(stamp.sec, stamp.nsec), receivedNs);
            substituted := substituted || recorded.None?;
            var (sec, nsec) := NanosToParts(r.Map(if recorded.Some? then recorded.value else receivedNs));
            transforms := transforms[i := transforms[i].(
              header := transforms[i].header.(stamp := Time(sec, nsec)))];
          }
          assert transforms == Each(t => Restamped(r, t, receivedNs), before);
          bytes := lcm.encode(MTFMessage(TFMessage(transforms)));
          return Ok(substituted);
      }
    }
  }

  // ------------------------------------------------------------ what shifting keeps

  lemma StampedTwice(buf: seq<byte>, offset: nat, a: int, b: int)
    requires offset + 8 <= |buf|
    ensures Stamped(Stamped(buf, offset, a), offset, b) == Stamped(buf, offset, b)
  {
    hide NanosToParts, BigI32;
    var once := Stamped(buf, offset, a);
    assert once[..offset] == buf[..offset];
    assert once[offset + 8..] == buf[offset + 8..];
  }

  lemma StampingChangesNothingIff(buf: seq<byte>, offset: nat, ns: int)
    requires offset + 8 <= |buf|
    ensures Stamped(buf, offset, ns) == buf
       <==> NanosToParts(ns) == (ReadI32(buf[offset..offset + 4]), ReadI32(buf[offset + 4..offset + 8]))
  {
    hide NanosToParts, BigI32, ReadI32;
    var first, second := buf[offset..offset + 4], buf[offset + 4..offset + 8];
    var (sec, nsec) := NanosToParts(ns);
    StampedParts(buf, offset, ns);
    I32PrintsBack(first);
    I32PrintsBack(second);
    assert buf == buf[..offset] + first + second + buf[offset + 8..];
  }

  /**
    Shifting a fixed stamp by `d` and back by `-d` restores the payload byte for byte exactly
    when the shifted stamp still fits, or when it fell to zero and below and `-d` alone spells
    the old stamp again.
   */
  lemma ShiftAndBackIff(lcm: LcmCodec, buf: seq<byte>, offset: nat, d: int)
    requires lcm.Lawful() && offset + 8 <= |buf|
    requires ReadI32(buf[offset..offset + 4]) > 0
    requires 0 <= ReadI32(buf[offset + 4..offset + 8]) < NANOS_PER_SEC
    ensures var s := ReadNanos(buf, offset).value;
            var there := Retimed(Shifted(d), lcm, Fixed(offset), buf, 0).value.0;
            var back := Retimed(Shifted(-d), lcm, Fixed(offset), there, 0).value.0;
            back == buf <==> (NANOS_PER_SEC <= s + d < STAMP_LIMIT
                              || (s + d <= 0 && NanosToParts(-d) == NanosToParts(s)))
  {
    hide Stamped, ReadI32, Retimed, NanosToParts;
    var s := ReadNanos(buf, offset).value;
    var there := Stamped(buf, offset, s + d);
    ShiftedFixed(lcm, buf, offset, d);
    ShiftedFixed(lcm, there, offset, -d);
    PartsOf(ReadI32(buf[offset..offset + 4]), ReadI32(buf[offset + 4..offset + 8]));
    StampedParts(buf, offset, s + d);
    var again := ReadNanos(there, offset);
    var ns := (if again.Some? then again.value else 0) - d;
    StampedTwice(buf, offset, s + d, ns);
    StampingChangesNothingIff(buf, offset, ns);
    RestoredPartsIff(s, d);
  }

  lemma PartsOf(sec: i32, nsec: i32)
    requires sec > 0 && 0 <= nsec < NANOS_PER_SEC
    ensures NANOS_PER_SEC <= sec * NANOS_PER_SEC + nsec < STAMP_LIMIT
    ensures NanosFromParts(sec, nsec) == Some(sec * NANOS_PER_SEC + nsec)
    ensures NanosToParts(sec * NANOS_PER_SEC + nsec) == (sec, nsec)
  {
  }

  lemma ShiftedFixed(lcm: LcmCodec, buf: seq<byte>, offset: nat, d: int)
    requires lcm.Lawful() && offset + 8 <= |buf|
    ensures Retimed(Shifted(d), lcm, Fixed(offset), buf, 0).Ok?
    ensures Retimed(Shifted(d), lcm, Fixed(offset), buf, 0).value.0
         == Stamped(buf, offset, (if ReadNanos(buf, offset).Some? then ReadNanos(buf, offset).value else 0) + d)
  {
    hide Stamped, ReadI32, NanosFromParts;
  }

  lemma RestoredPartsIff(s: int, d: int)
    requires NANOS_PER_SEC <= s < STAMP_LIMIT
    ensures var (sec, nsec) := NanosToParts(s + d);
            var again := NanosFromParts(sec, nsec);
            NanosToParts((if again.Some? then again.value else 0) - d) == NanosToParts(s)
            <==> (NANOS_PER_SEC <= s + d < STAMP_LIMIT || (s + d <= 0 && NanosToParts(-d) == NanosToParts(s)))
  {
  }

  // ------------------------------------------------------------ what a rewritten payload holds

  /** These parts are a set stamp, and within an hour of a known reception. */
  predicate Usable(sec: i32, nsec: i32, receivedNs: int) {
    && sec > 0
    && (receivedNs == 0
        || -3_600_000_000_000 < sec * 1_000_000_000 + nsec - receivedNs < 3_600_000_000_000)
  }

  /** The recording time they are placed at: their own, or the reception where that is unusable. */
  function OwnTime(sec: i32, nsec: i32, receivedNs: int): int {
    if Usable(sec, nsec, receivedNs) then sec * 1_000_000_000 + nsec else receivedNs
  }

  /** These parts are a set stamp of the time `ns`. */
  predicate Shows(sec: i32, nsec: i32, ns: int) {
    sec > 0 && 0 <= nsec < 1_000_000_000 && sec * 1_000_000_000 + nsec == ns
  }

  lemma PartsShowIff(ns: int)
    ensures Shows(NanosToParts(ns).0, NanosToParts(ns).1, ns) <==> NANOS_PER_SEC <= ns < STAMP_LIMIT
  {
  }

  /** A stamp word is read with its highest byte first. */
  lemma WordIsBigEndian(bytes: seq<byte>)
    requires |bytes| == 4
    ensures AsUnsigned(ReadI32(bytes)) == 0x100_0000 * (bytes[0] as int) + 0x1_0000 * (bytes[1] as int)
                                          + 0x100 * (bytes[2] as int) + bytes[3] as int
  {
    WordAndDoubleSizes();
    BytesBound(false, bytes);
    BigBytesAre(bytes);
  }

  /** The eight bytes at `offset` are a set stamp of the time `ns`. */
  predicate ShowsAt(buf: seq<byte>, offset: nat, ns: int) {
    offset + 8 <= |buf| && Shows(ReadI32(buf[offset..offset + 4]), ReadI32(buf[offset + 4..offset + 8]), ns)
  }

  /** The recording time a payload with its stamp at `offset` is placed at. */
  function TimeAt(buf: seq<byte>, offset: nat, receivedNs: int): int
    requires offset + 8 <= |buf|
  {
    OwnTime(ReadI32(buf[offset..offset + 4]), ReadI32(buf[offset + 4..offset + 8]), receivedNs)
  }

  /**
    A rewritten fixed-offset payload differs in its eight stamp bytes at most; they show the
    mapped time exactly when a stamp can hold it, which is the mapping of the own stamp where
    that is usable and of the reception otherwise; and the flag says which of the two it was.
   */
  lemma RetimedFixedPayload(r: Retimer, lcm: LcmCodec, offset: nat, buf: seq<byte>, receivedNs: int)
    requires r.Valid() && lcm.Lawful() && !r.Original? && offset + 8 <= |buf|
    ensures var (out, substituted) := Retimed(r, lcm, Fixed(offset), buf, receivedNs).value;
            var ns := r.Map(TimeAt(buf, offset, receivedNs));
            && |out| == |buf|
            && (forall i :: 0 <= i < |buf| && !(offset <= i < offset + 8) ==> out[i] == buf[i])
            && (ShowsAt(out, offset, ns) <==> NANOS_PER_SEC <= ns < STAMP_LIMIT)
            && (substituted <==>
                !Usable(ReadI32(buf[offset..offset + 4]), ReadI32(buf[offset + 4..offset + 8]), receivedNs))
  {
    hide Stamped, ReadI32, NanosToParts;
    var ns := r.Map(TimeAt(buf, offset, receivedNs));
    StampingIsLocalAndReadsBackIff(buf, offset, ns);
    StampedParts(buf, offset, ns);
    PartsShowIff(ns);
  }

  /** Shifting two payloads keeps the distance between their times to the nanosecond. */
  lemma ShiftedKeepsSpacing(lcm: LcmCodec, d: int, offset: nat, a: seq<byte>, b: seq<byte>, ra: int, rb: int)
    requires lcm.Lawful() && offset + 8 <= |a| && offset + 8 <= |b|
    requires NANOS_PER_SEC <= TimeAt(a, offset, ra) + d < STAMP_LIMIT
    requires NANOS_PER_SEC <= TimeAt(b, offset, rb) + d < STAMP_LIMIT
    ensures var outA := Retimed(Shifted(d), lcm, Fixed(offset), a, ra).value.0;
            var outB := Retimed(Shifted(d), lcm, Fixed(offset), b, rb).value.0;
            && ShowsAt(outA, offset, TimeAt(a, offset, ra) + d) && ShowsAt(outB, offset, TimeAt(b, offset, rb) + d)
            && forall x, y :: ShowsAt(outA, offset, x) && ShowsAt(outB, offset, y) ==>
                 y - x == TimeAt(b, offset, rb) - TimeAt(a, offset, ra)
  {
    hide Retimed, ReadI32, Usable;
    RetimedFixedPayload(Shifted(d), lcm, offset, a, ra);
    RetimedFixedPayload(Shifted(d), lcm, offset, b, rb);
  }

  /** What becomes of one transform: nothing but its stamp changes, and that shows the mapped time. */
  ghost predicate MovedAs(r: Retimer, before: TransformStamped, after: TransformStamped, receivedNs: int)
    requires r.Valid()
  {
    && after.(header := before.header) == before
    && after.header.(stamp := before.header.stamp) == before.header
    && var ns := r.Map(OwnTime(before.header.stamp.sec, before.header.stamp.nsec, receivedNs));
       Shows(after.header.stamp.sec, after.header.stamp.nsec, ns) <==> NANOS_PER_SEC <= ns < STAMP_LIMIT
  }

  lemma RestampedIsMoved(r: Retimer, t: TransformStamped, receivedNs: int)
    requires r.Valid()
    ensures MovedAs(r, t, Restamped(r, t, receivedNs), receivedNs)
    ensures Substituted(t, receivedNs) <==> !Usable(t.header.stamp.sec, t.header.stamp.nsec, receivedNs)
  {
    hide NanosToParts, Retimer.Map;
    PartsShowIff(r.Map(OwnTime(t.header.stamp.sec, t.header.stamp.nsec, receivedNs)));
  }

  /**
    A rewritten TFMessage keeps every transform, in order, each moved like a payload of its own,
    and the flag says whether some stamp was unusable.
   */
  lemma RetimedTfPayload(r: Retimer, lcm: LcmCodec, buf: seq<byte>, receivedNs: int)
    requires r.Valid() && lcm.Lawful() && !r.Original?
    requires lcm.decode(Tf2TFMessage, buf).Some?
    ensures var (out, substituted) := Retimed(r, lcm, TfStamps, buf, receivedNs).value;
            lcm.decode(Tf2TFMessage, out).Some?
    ensures var (out, substituted) := Retimed(r, lcm, TfStamps, buf, receivedNs).value;
            var before := lcm.decode(Tf2TFMessage, buf).value.tfMessage.transforms;
            var after := lcm.decode(Tf2TFMessage, out).value.tfMessage.transforms;
            && |after| == |before|
            && (substituted <==> exists i :: 0 <= i < |before|
                                   && !Usable(before[i].header.stamp.sec, before[i].header.stamp.nsec, receivedNs))
            && forall i :: 0 <= i < |before| ==> MovedAs(r, before[i], after[i], receivedNs)
  {
    hide Restamped, Substituted, MovedAs, Usable;
    var before := lcm.decode(Tf2TFMessage, buf).value.tfMessage.transforms;
    var m := MTFMessage(TFMessage(Each(t => Restamped(r, t, receivedNs), before)));
    assert lcm.decode(TypeOf(m), lcm.encode(m)) == Some(m);
    forall i | 0 <= i < |before|
      ensures MovedAs(r, before[i], Restamped(r, before[i], receivedNs), receivedNs)
      ensures Substituted(before[i], receivedNs)
         <==> !Usable(before[i].header.stamp.sec, before[i].header.stamp.nsec, receivedNs)
    {
      RestampedIsMoved(r, before[i], receivedNs);
    }
  }

  /** The payload's own timestamp: what a recorder publishes, and what a loopback key is made of. */
  function StampOf(lcm: LcmCodec, support: Support, buf: seq<byte>): Option<int> {
    match support
    case Unstamped => None
    case Fixed(offset) => if |buf| >= offset + 8 then ReadNanos(buf, offset) else None
    case TfStamps =>
      match lcm.decode(Tf2TFMessage, buf)
      case None => None
      case Some(m) =>
        if !m.MTFMessage? || m.tfMessage.transforms == [] then None
        else NanosFromParts(m.tfMessage.transforms[0].header.stamp.sec, m.tfMessage.transforms[0].header.stamp.nsec)
  }
}
