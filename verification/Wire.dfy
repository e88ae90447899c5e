/**
  The CDR transfer syntax as a schema-driven codec: one printer `Put` and one parser `Parse`
  for every type description `Ty`. The message printers and readers of src/cdr.rs are written
  out by hand, field by field; they are proved against these two functions, and everything
  the repository promises about the format is proved here once, for every type and every
  starting offset.

  `Put` takes the bytes written so far and returns the longer body, so that alignment is a
  function of the absolute offset and no concatenation law is needed to compose printers.
 */
module Wire {
  import opened Prelude
  import opened Utf8

  datatype Ty =
    | Octet                              // u8
    | Flag                               // bool
    | Word                               // u32, i32, f32
    | Double                             // f64
    | Text                               // string
    | Blob                               // sequence<octet>
    | Array(count: nat, elem: Ty)        // fixed length, no prefix
    | Sequence(elem: Ty)                 // length-prefixed
    | Pair(first: Ty, second: Ty)        // consecutive fields

  datatype Val =
    | Num(n: nat)
    | Str(s: seq<byte>)
    | List(items: seq<Val>)
    | Both(a: Val, b: Val)

  // ------------------------------------------------------------ integers as bytes

  function Pow256(k: nat): nat { if k == 0 then 1 else 256 * Pow256(k - 1) }

  function ToLittle(n: nat, k: nat): (b: seq<byte>)
    ensures |b| == k
  {
    if k == 0 then [] else [n % 256] + ToLittle(n / 256, k - 1)
  }

  function FromLittle(b: seq<byte>): nat {
    if b == [] then 0 else b[0] + 256 * FromLittle(b[1..])
  }

  function ToBig(n: nat, k: nat): (b: seq<byte>)
    ensures |b| == k
  {
    if k == 0 then [] else ToBig(n / 256, k - 1) + [n % 256]
  }

  function FromBig(b: seq<byte>): nat {
    if b == [] then 0 else 256 * FromBig(b[..|b| - 1]) + b[|b| - 1]
  }

  function ToBytes(little: bool, n: nat, k: nat): (b: seq<byte>)
    ensures |b| == k
  {
    if little then ToLittle(n, k) else ToBig(n, k)
  }

  function FromBytes(little: bool, b: seq<byte>): nat {
    if little then FromLittle(b) else FromBig(b)
  }

  lemma {:induction false} BytesRoundTrip(little: bool, n: nat, k: nat)
    requires n < Pow256(k)
    ensures FromBytes(little, ToBytes(little, n, k)) == n
    decreases k
  {
    if k > 0 {
      BytesRoundTrip(little, n / 256, k - 1);
      if little {
        assert ToLittle(n, k)[1..] == ToLittle(n / 256, k - 1);
      } else {
        assert ToBig(n, k)[..k - 1] == ToBig(n / 256, k - 1);
      }
    }
  }

  lemma {:induction false} BytesBound(little: bool, b: seq<byte>)
    ensures FromBytes(little, b) < Pow256(|b|)
    ensures ToBytes(little, FromBytes(little, b), |b|) == b
    decreases |b|
  {
    if b != [] {
      if little {
        BytesBound(little, b[1..]);
        assert (b[0] + 256 * FromLittle(b[1..])) / 256 == FromLittle(b[1..]);
        assert b == [b[0]] + b[1..];
      } else {
        BytesBound(little, b[..|b| - 1]);
        assert (256 * FromBig(b[..|b| - 1]) + b[|b| - 1]) / 256 == FromBig(b[..|b| - 1]);
        assert b == b[..|b| - 1] + [b[|b| - 1]];
      }
    }
  }

  lemma WordAndDoubleSizes()
    ensures Pow256(4) == 0x1_0000_0000 && Pow256(8) == 0x1_0000_0000_0000_0000
  {
    assert Pow256(2) == 0x1_0000;
    assert Pow256(3) == 0x100_0000;
    assert Pow256(5) == 0x100_0000_0000;
    assert Pow256(6) == 0x1_0000_0000_0000;
    assert Pow256(7) == 0x100_0000_0000_0000;
  }

  /** Spelled out for a word: lowest byte first, or highest byte first. */
  lemma LittleBytesAre(n: nat)
    requires n < 0x1_0000_0000
    ensures var b := ToLittle(n, 4);
            n == b[0] as int + 0x100 * (b[1] as int) + 0x1_0000 * (b[2] as int) + 0x100_0000 * (b[3] as int)
  {
    assert ToLittle(n, 4)[1..] == ToLittle(n / 0x100, 3);
    assert ToLittle(n / 0x100, 3)[1..] == ToLittle(n / 0x1_0000, 2);
    assert ToLittle(n / 0x1_0000, 2)[1..] == ToLittle(n / 0x100_0000, 1);
    assert ToLittle(n / 0x100_0000, 1)[0] == n / 0x100_0000 % 256;
  }

  lemma BigBytesAre(b: seq<byte>)
    requires |b| == 4
    ensures FromBig(b) == 0x100_0000 * (b[0] as int) + 0x1_0000 * (b[1] as int) + 0x100 * (b[2] as int) + b[3] as int
  {
    assert FromBig(b[..1]) == b[0] by { assert b[..1][..0] == []; }
    assert FromBig(b[..2]) == 256 * FromBig(b[..1]) + b[1] by { assert b[..2][..1] == b[..1]; }
    assert FromBig(b[..3]) == 256 * FromBig(b[..2]) + b[2] by { assert b[..3][..2] == b[..2]; }
  }

  // ------------------------------------------------------------ well-shaped values

  /** `v` is a value a Rust field of type `ty` can hold. */
  ghost predicate Shaped(ty: Ty, v: Val)
    decreases ty, 0
  {
    match ty
    case Octet => v.Num? && v.n < 256
    case Flag => v.Num? && v.n < 2
    case Word => v.Num? && v.n < 0x1_0000_0000
    case Double => v.Num? && v.n < 0x1_0000_0000_0000_0000
    case Text => v.Str? && Valid(v.s)
    case Blob => v.Str?
    case Array(n, e) => v.List? && |v.items| == n && AllShaped(e, v.items)
    case Sequence(e) => v.List? && AllShaped(e, v.items)
    case Pair(t, u) => v.Both? && Shaped(t, v.a) && Shaped(u, v.b)
  }

  ghost predicate AllShaped(e: Ty, items: seq<Val>)
    decreases e, 1
  {
    forall i :: 0 <= i < |items| ==> Shaped(e, items[i])
  }

  /** Every length in `v` fits the u32 that announces it. */
  ghost predicate Fits(ty: Ty, v: Val)
    requires Shaped(ty, v)
    decreases ty, 0
  {
    match ty
    case Octet => true
    case Flag => true
    case Word => true
    case Double => true
    case Text => |v.s| + 1 < TWO_TO_32
    case Blob => |v.s| < TWO_TO_32
    case Array(_, e) => AllFit(e, v.items)
    case Sequence(e) => |v.items| < TWO_TO_32 && AllFit(e, v.items)
    case Pair(t, u) => Fits(t, v.a) && Fits(u, v.b)
  }

  ghost predicate AllFit(e: Ty, items: seq<Val>)
    requires AllShaped(e, items)
    decreases e, 1
  {
    forall i :: 0 <= i < |items| ==> Fits(e, items[i])
  }

  // ------------------------------------------------------------ printing

  function Padding(length: nat, alignment: nat): nat
    requires alignment > 0
  {
    (alignment - length % alignment) % alignment
  }

  function Zeros(k: nat): seq<byte> { seq(k, _ => 0) }

  function Padded(body: seq<byte>, alignment: nat): seq<byte>
    requires alignment > 0
  {
    body + Zeros(Padding(|body|, alignment))
  }

  function PutWord(little: bool, n: nat, body: seq<byte>): seq<byte> {
    Padded(body, 4) + ToBytes(little, n, 4)
  }

  /** `len as u32`: the truncation that makes an overlong sequence unreadable. */
  function Truncated(n: nat): nat { n % TWO_TO_32 }

  ghost function Put(little: bool, ty: Ty, v: Val, body: seq<byte>): (r: seq<byte>)
    requires Shaped(ty, v)
    ensures body <= r
    decreases ty, 0
  {
    match ty
    case Octet => body + [v.n]
    case Flag => body + [v.n]
    case Word => PutWord(little, v.n, body)
    case Double => Padded(body, 8) + ToBytes(little, v.n, 8)
    case Text => PutWord(little, Truncated(|v.s| + 1), body) + v.s + [0]
    case Blob => PutWord(little, Truncated(|v.s|), body) + v.s
    case Array(_, e) => PutAll(little, e, v.items, body)
    case Sequence(e) => PutAll(little, e, v.items, PutWord(little, Truncated(|v.items|), body))
    case Pair(t, u) => Put(little, u, v.b, Put(little, t, v.a, body))
  }

  ghost function PutAll(little: bool, e: Ty, items: seq<Val>, body: seq<byte>): (r: seq<byte>)
    requires AllShaped(e, items)
    ensures body <= r
    decreases e, |items| + 1
  {
    if items == [] then body
    else Put(little, e, items[|items| - 1], PutAll(little, e, items[..|items| - 1], body))
  }

  // ------------------------------------------------------------ parsing

  /** The next `count` bytes after padding to `alignment`, and the offset just past them. */
  function Take(body: seq<byte>, pos: nat, count: nat, alignment: nat): Option<(seq<byte>, nat)>
    requires alignment > 0
  {
    var start := pos + Padding(pos, alignment);
    if start + count <= |body| then Some((body[start..start + count], start + count)) else None
  }

  function StripNul(bytes: seq<byte>): seq<byte> {
    if bytes != [] && bytes[|bytes| - 1] == 0 then bytes[..|bytes| - 1] else bytes
  }

  function TakeNumber(little: bool, body: seq<byte>, pos: nat, size: nat): Option<(nat, nat)>
    requires size > 0
  {
    match Take(body, pos, size, size)
    case None => None
    case Some((bytes, end)) => Some((FromBytes(little, bytes), end))
  }

  /** A u32 length and that many raw bytes. */
  function TakeCounted(little: bool, body: seq<byte>, pos: nat): Option<(seq<byte>, nat)> {
    match TakeNumber(little, body, pos, 4)
    case None => None
    case Some((length, at)) => Take(body, at, length, 1)
  }

  predicate IsLeaf(ty: Ty) { !ty.Array? && !ty.Sequence? && !ty.Pair? }

  function ParseLeaf(little: bool, ty: Ty, body: seq<byte>, pos: nat): Option<(Val, nat)>
    requires IsLeaf(ty)
  {
    match ty
    case Octet =>
      (match Take(body, pos, 1, 1) case None => None case Some((b, end)) => Some((Num(b[0]), end)))
    case Flag =>
      (match Take(body, pos, 1, 1)
       case None => None
       case Some((b, end)) => Some((Num(if b[0] != 0 then 1 else 0), end)))
    case Word =>
      (match TakeNumber(little, body, pos, 4)
       case None => None
       case Some((n, end)) => Some((Num(n), end)))
    case Double =>
      (match TakeNumber(little, body, pos, 8)
       case None => None
       case Some((n, end)) => Some((Num(n), end)))
    case Text =>
      (match TakeCounted(little, body, pos)
       case None => None
       case Some((bytes, end)) => Some((Str(Lossy(StripNul(bytes))), end)))
    case Blob =>
      (match TakeCounted(little, body, pos)
       case None => None
       case Some((bytes, end)) => Some((Str(bytes), end)))
  }

  function Parse(little: bool, ty: Ty, body: seq<byte>, pos: nat): Option<(Val, nat)>
    decreases ty, 0
  {
    match ty
    case Array(n, e) =>
      (match ParseAll(little, e, n, body, pos)
       case None => None
       case Some((items, end)) => Some((List(items), end)))
    case Sequence(e) =>
      (match TakeNumber(little, body, pos, 4)
       case None => None
       case Some((n, at)) =>
         match ParseAll(little, e, n, body, at)
         case None => None
         case Some((items, end)) => Some((List(items), end)))
    case Pair(t, u) =>
      (match Parse(little, t, body, pos)
       case None => None
       case Some((a, at)) =>
         match Parse(little, u, body, at)
         case None => None
         case Some((b, end)) => Some((Both(a, b), end)))
    case _ => ParseLeaf(little, ty, body, pos)
  }

  function ParseAll(little: bool, e: Ty, n: nat, body: seq<byte>, pos: nat): (r: Option<(seq<Val>, nat)>)
    ensures r.Some? ==> |r.value.0| == n
    decreases e, n + 1
  {
    if n == 0 then Some(([], pos))
    else
      match ParseAll(little, e, n - 1, body, pos)
      case None => None
      case Some((items, at)) =>
        match Parse(little, e, body, at)
        case None => None
        case Some((v, end)) => Some((items + [v], end))
  }

  /** Once an element fails to parse, every longer sequence fails too. */
  lemma {:induction false} ParseAllStaysNone(little: bool, e: Ty, k: nat, n: nat, body: seq<byte>, pos: nat)
    requires k <= n && ParseAll(little, e, k, body, pos) == None
    ensures ParseAll(little, e, n, body, pos) == None
    decreases n
  {
    if k < n { ParseAllStaysNone(little, e, k, n - 1, body, pos); }
  }
}
