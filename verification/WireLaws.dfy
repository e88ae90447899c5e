/** What the CDR format guarantees, for every type description and every starting offset. */
module WireLaws {
  import opened Prelude
  import opened Utf8
  import opened Wire

  // ------------------------------------------------------------ round trip

  lemma TakeBack(full: seq<byte>, body: seq<byte>, bytes: seq<byte>, alignment: nat)
    requires alignment > 0
    requires Padded(body, alignment) + bytes <= full
    ensures Take(full, |body|, |bytes|, alignment)
         == Some((bytes, |Padded(body, alignment) + bytes|))
  {
    var start := |body| + Padding(|body|, alignment);
    assert (Padded(body, alignment) + bytes)[start..] == bytes;
    assert full[start..start + |bytes|] == bytes;
  }

  lemma NumberBack(little: bool, n: nat, size: nat, body: seq<byte>, full: seq<byte>)
    requires size == 4 || size == 8
    requires n < Pow256(size)
    requires Padded(body, size) + ToBytes(little, n, size) <= full
    ensures TakeNumber(little, full, |body|, size)
         == Some((n, |Padded(body, size) + ToBytes(little, n, size)|))
  {
    TakeBack(full, body, ToBytes(little, n, size), size);
    BytesRoundTrip(little, n, size);
  }

  lemma CountedBack(little: bool, bytes: seq<byte>, body: seq<byte>, full: seq<byte>)
    requires |bytes| < TWO_TO_32
    requires PutWord(little, |bytes|, body) + bytes <= full
    ensures TakeCounted(little, full, |body|) == Some((bytes, |PutWord(little, |bytes|, body) + bytes|))
  {
    WordAndDoubleSizes();
    var counted := PutWord(little, |bytes|, body);
    assert counted <= full;
    NumberBack(little, |bytes|, 4, body, full);
    assert Padded(counted, 1) == counted;
    TakeBack(full, counted, bytes, 1);
  }

  /** What printing text leaves behind, seen as a counted run of bytes. */
  lemma TextIsCounted(little: bool, s: seq<byte>, body: seq<byte>)
    requires Valid(s) && |s| + 1 < TWO_TO_32
    ensures Put(little, Text, Str(s), body) == PutWord(little, |s + [0]|, body) + (s + [0])
    ensures StripNul(s + [0]) == s
  {
    assert Truncated(|s| + 1) == |s| + 1;
    var counted := PutWord(little, |s| + 1, body);
    assert counted + s + [0] == counted + (s + [0]);
  }

  lemma BlobIsCounted(little: bool, s: seq<byte>, body: seq<byte>)
    requires |s| < TWO_TO_32
    ensures Put(little, Blob, Str(s), body) == PutWord(little, |s|, body) + s
  {
    assert Truncated(|s|) == |s|;
  }

  lemma SequenceIsCounted(little: bool, e: Ty, items: seq<Val>, body: seq<byte>)
    requires AllShaped(e, items) && |items| < TWO_TO_32
    ensures Put(little, Sequence(e), List(items), body)
         == PutAll(little, e, items, PutWord(little, |items|, body))
  {
    assert Truncated(|items|) == |items|;
  }

  lemma ByteBack(b: byte, body: seq<byte>, full: seq<byte>)
    requires body + [b] <= full
    ensures Take(full, |body|, 1, 1) == Some(([b], |body| + 1))
  {
    assert Padded(body, 1) == body;
    TakeBack(full, body, [b], 1);
  }

  lemma PrefixOfPrefix(a: seq<byte>, b: seq<byte>, c: seq<byte>)
    requires a <= b <= c
    ensures a <= c
  {
  }

  /**
    Reading what was printed returns the value and stops exactly at the end of what was
    printed, whatever precedes it, whatever follows it, in either byte order.
   */
  lemma {:induction false} RoundTrip(little: bool, ty: Ty, v: Val, body: seq<byte>, full: seq<byte>)
    requires Shaped(ty, v) && Fits(ty, v)
    requires Put(little, ty, v, body) <= full
    ensures Parse(little, ty, full, |body|) == Some((v, |Put(little, ty, v, body)|))
    decreases ty, 0
  {
    match ty
    case Octet => ByteBack(v.n, body, full);
    case Flag => ByteBack(v.n, body, full);
    case Word =>
      WordAndDoubleSizes();
      NumberBack(little, v.n, 4, body, full);
    case Double =>
      WordAndDoubleSizes();
      NumberBack(little, v.n, 8, body, full);
    case Text =>
      TextIsCounted(little, v.s, body);
      CountedBack(little, v.s + [0], body, full);
    case Blob =>
      BlobIsCounted(little, v.s, body);
      CountedBack(little, v.s, body, full);
    case Array(_, e) => RoundTripAll(little, e, v.items, body, full);
    case Sequence(e) =>
      SequenceIsCounted(little, e, v.items, body);
      var counted := PutWord(little, |v.items|, body);
      PrefixOfPrefix(counted, PutAll(little, e, v.items, counted), full);
      CountBack(little, |v.items|, body, full);
      RoundTripAll(little, e, v.items, counted, full);
    case Pair(t, u) =>
      var middle := Put(little, t, v.a, body);
      PrefixOfPrefix(middle, Put(little, u, v.b, middle), full);
      RoundTrip(little, t, v.a, body, full);
      RoundTrip(little, u, v.b, middle, full);
  }

  lemma CountBack(little: bool, n: u32, body: seq<byte>, full: seq<byte>)
    requires PutWord(little, n, body) <= full
    ensures TakeNumber(little, full, |body|, 4) == Some((n, |PutWord(little, n, body)|))
  {
    WordAndDoubleSizes();
    NumberBack(little, n, 4, body, full);
  }

  /** The list printed so far, and its last element, are as well shaped as the whole. */
  lemma SplitLast(e: Ty, items: seq<Val>)
    requires items != [] && AllShaped(e, items) && AllFit(e, items)
    ensures var front, last := items[..|items| - 1], items[|items| - 1];
            && AllShaped(e, front) && AllFit(e, front)
            && Shaped(e, last) && Fits(e, last)
            && front + [last] == items
  {
    hide Shaped, Fits;
    var front := items[..|items| - 1];
    assert forall i :: 0 <= i < |front| ==> front[i] == items[i];
  }

  lemma {:induction false} RoundTripAll(little: bool, e: Ty, items: seq<Val>, body: seq<byte>, full: seq<byte>)
    requires AllShaped(e, items) && AllFit(e, items)
    requires PutAll(little, e, items, body) <= full
    ensures ParseAll(little, e, |items|, full, |body|) == Some((items, |PutAll(little, e, items, body)|))
    decreases e, |items| + 1
  {
    hide Put, Parse, Shaped, Fits, AllShaped, AllFit;
    if items != [] {
      SplitLast(e, items);
      var front, last := items[..|items| - 1], items[|items| - 1];
      var before := PutAll(little, e, front, body);
      PrefixOfPrefix(before, Put(little, e, last, before), full);
      RoundTripAll(little, e, front, body, full);
      RoundTrip(little, e, last, before, full);
    }
  }

  // ------------------------------------------------------------ stability and truncation

  lemma TakeStable(body: seq<byte>, full: seq<byte>, pos: nat, count: nat, alignment: nat)
    requires alignment > 0 && body <= full && Take(body, pos, count, alignment).Some?
    ensures Take(full, pos, count, alignment) == Take(body, pos, count, alignment)
    ensures pos + count <= Take(body, pos, count, alignment).value.1 <= |body|
  {
    var start := pos + Padding(pos, alignment);
    assert full[start..start + count] == body[start..start + count];
  }

  lemma NumberStable(little: bool, body: seq<byte>, full: seq<byte>, pos: nat, size: nat)
    requires size == 4 || size == 8
    requires body <= full && TakeNumber(little, body, pos, size).Some?
    ensures TakeNumber(little, full, pos, size) == TakeNumber(little, body, pos, size)
    ensures var (n, end) := TakeNumber(little, body, pos, size).value;
            pos < end <= |body|
            && n < if size == 4 then 0x1_0000_0000 else 0x1_0000_0000_0000_0000
  {
    TakeStable(body, full, pos, size, size);
    BytesBound(little, Take(body, pos, size, size).value.0);
    WordAndDoubleSizes();
  }

  lemma CountedStable(little: bool, body: seq<byte>, full: seq<byte>, pos: nat)
    requires body <= full && TakeCounted(little, body, pos).Some?
    ensures TakeCounted(little, full, pos) == TakeCounted(little, body, pos)
    ensures var (bytes, end) := TakeCounted(little, body, pos).value;
            pos < end <= |body| && |bytes| < TWO_TO_32 && |bytes| <= |body|
  {
    NumberStable(little, body, full, pos, 4);
    var (length, at) := TakeNumber(little, body, pos, 4).value;
    TakeStable(body, full, at, length, 1);
  }

  /** A successful read only depends on the bytes it consumed, and only yields well-shaped values. */
  lemma {:induction false} Stable(little: bool, ty: Ty, body: seq<byte>, full: seq<byte>, pos: nat)
    requires body <= full && pos <= |body|
    requires Parse(little, ty, body, pos).Some?
    ensures Parse(little, ty, full, pos) == Parse(little, ty, body, pos)
    ensures var (v, end) := Parse(little, ty, body, pos).value; Shaped(ty, v) && pos <= end <= |body|
    decreases ty, 0
  {
    match ty
    case Octet => TakeStable(body, full, pos, 1, 1);
    case Flag => TakeStable(body, full, pos, 1, 1);
    case Word => NumberStable(little, body, full, pos, 4);
    case Double => NumberStable(little, body, full, pos, 8);
    case Text => CountedStable(little, body, full, pos);
    case Blob => CountedStable(little, body, full, pos);
    case Array(n, e) => StableAll(little, e, n, body, full, pos);
    case Sequence(e) =>
      NumberStable(little, body, full, pos, 4);
      var (n, at) := TakeNumber(little, body, pos, 4).value;
      StableAll(little, e, n, body, full, at);
    case Pair(t, u) =>
      Stable(little, t, body, full, pos);
      Stable(little, u, body, full, Parse(little, t, body, pos).value.1);
  }

  lemma {:induction false} StableAll(little: bool, e: Ty, n: nat, body: seq<byte>, full: seq<byte>, pos: nat)
    requires body <= full && pos <= |body|
    requires ParseAll(little, e, n, body, pos).Some?
    ensures ParseAll(little, e, n, full, pos) == ParseAll(little, e, n, body, pos)
    ensures var (items, end) := ParseAll(little, e, n, body, pos).value;
            AllShaped(e, items) && pos <= end <= |body|
    decreases e, n + 1
  {
    if n > 0 {
      StableAll(little, e, n - 1, body, full, pos);
      Stable(little, e, body, full, ParseAll(little, e, n - 1, body, pos).value.1);
    }
  }

  /** No strict prefix of an encoding decodes: every truncation is an error. */
  lemma TruncationFails(little: bool, ty: Ty, v: Val, k: nat)
    requires Shaped(ty, v) && Fits(ty, v)
    requires k < |Put(little, ty, v, [])|
    ensures Parse(little, ty, Put(little, ty, v, [])[..k], 0) == None
  {
    var full := Put(little, ty, v, []);
    RoundTrip(little, ty, v, [], full);
    if Parse(little, ty, full[..k], 0).Some? {
      Stable(little, ty, full[..k], full, 0);
      assert false;
    }
  }

  // ------------------------------------------------------------ what fits

  /** A value parsed from fewer than 2^32 / 3 bytes always fits when printed again. */
  lemma {:induction false} ParsedFits(little: bool, ty: Ty, body: seq<byte>, pos: nat)
    requires pos <= |body| && 3 * |body| + 1 < TWO_TO_32
    requires Parse(little, ty, body, pos).Some?
    ensures Shaped(ty, Parse(little, ty, body, pos).value.0)
    ensures Fits(ty, Parse(little, ty, body, pos).value.0)
    ensures pos <= Parse(little, ty, body, pos).value.1 <= |body|
    decreases ty, 0
  {
    Stable(little, ty, body, body, pos);
    match ty
    case Text => CountedStable(little, body, body, pos);
    case Blob => CountedStable(little, body, body, pos);
    case Array(n, e) => ParsedAllFit(little, e, n, body, pos);
    case Sequence(e) =>
      NumberStable(little, body, body, pos, 4);
      var (n, at) := TakeNumber(little, body, pos, 4).value;
      ParsedAllFit(little, e, n, body, at);
    case Pair(t, u) =>
      ParsedFits(little, t, body, pos);
      ParsedFits(little, u, body, Parse(little, t, body, pos).value.1);
    case _ =>
  }

  lemma {:induction false} ParsedAllFit(little: bool, e: Ty, n: nat, body: seq<byte>, pos: nat)
    requires pos <= |body| && 3 * |body| + 1 < TWO_TO_32
    requires ParseAll(little, e, n, body, pos).Some?
    ensures AllShaped(e, ParseAll(little, e, n, body, pos).value.0)
    ensures AllFit(e, ParseAll(little, e, n, body, pos).value.0)
    ensures pos <= ParseAll(little, e, n, body, pos).value.1 <= |body|
    decreases e, n + 1
  {
    if n > 0 {
      ParsedAllFit(little, e, n - 1, body, pos);
      ParsedFits(little, e, body, ParseAll(little, e, n - 1, body, pos).value.1);
    }
  }

  // ------------------------------------------------------------ canonical bytes

  predicate ZeroPadded(body: seq<byte>, pos: nat, alignment: nat)
    requires alignment > 0 && pos + Padding(pos, alignment) <= |body|
  {
    body[pos..pos + Padding(pos, alignment)] == Zeros(Padding(pos, alignment))
  }

  /**
    The bytes read from `pos` are spelled the one way the printer spells them: zero padding,
    flags 0 or 1, text terminated and well formed. Says nothing about the printer itself.
   */
  predicate Canonical(ty: Ty, body: seq<byte>, pos: nat)
    requires pos <= |body| && Parse(true, ty, body, pos).Some?
    decreases ty, 0
  {
    match ty
    case Octet => true
    case Flag => Take(body, pos, 1, 1).value.0[0] < 2
    case Word => ZeroPadded(body, pos, 4)
    case Double => ZeroPadded(body, pos, 8)
    case Text =>
      var raw := TakeCounted(true, body, pos).value.0;
      ZeroPadded(body, pos, 4) && raw != [] && raw[|raw| - 1] == 0 && Valid(raw[..|raw| - 1])
    case Blob => ZeroPadded(body, pos, 4)
    case Array(n, e) => CanonicalAll(e, n, body, pos)
    case Sequence(e) =>
      var (n, at) := TakeNumber(true, body, pos, 4).value;
      ZeroPadded(body, pos, 4) && CanonicalAll(e, n, body, at)
    case Pair(t, u) =>
      Stable(true, t, body, body, pos);
      Canonical(t, body, pos) && Canonical(u, body, Parse(true, t, body, pos).value.1)
  }

  predicate CanonicalAll(e: Ty, n: nat, body: seq<byte>, pos: nat)
    requires pos <= |body| && ParseAll(true, e, n, body, pos).Some?
    decreases e, n + 1
  {
    n == 0 ||
    (StableAll(true, e, n - 1, body, body, pos);
     CanonicalAll(e, n - 1, body, pos)
     && Canonical(e, body, ParseAll(true, e, n - 1, body, pos).value.1))
  }

  lemma NumberReprints(n: nat, size: nat, body: seq<byte>, pos: nat)
    requires size == 4 || size == 8
    requires pos <= |body| && TakeNumber(true, body, pos, size).Some?
    requires TakeNumber(true, body, pos, size).value.0 == n
    ensures var end := TakeNumber(true, body, pos, size).value.1;
            Padded(body[..pos], size) + ToBytes(true, n, size) == body[..end] <==> ZeroPadded(body, pos, size)
  {
    var k := Padding(pos, size);
    var (bytes, end) := Take(body, pos, size, size).value;
    BytesBound(true, bytes);
    assert body[..end] == body[..pos] + body[pos..pos + k] + bytes;
    assert Padded(body[..pos], size) + bytes == body[..pos] + Zeros(k) + bytes;
    if body[..pos] + Zeros(k) + bytes == body[..end] {
      assert Zeros(k) == (body[..pos] + Zeros(k) + bytes)[pos..pos + k] == body[pos..pos + k];
    }
  }

  lemma CountedReprints(bytes: seq<byte>, body: seq<byte>, pos: nat)
    requires pos <= |body| && TakeCounted(true, body, pos).Some?
    requires |bytes| < TWO_TO_32
    ensures var (raw, end) := TakeCounted(true, body, pos).value;
            PutWord(true, |bytes|, body[..pos]) + bytes == body[..end]
            <==> bytes == raw && ZeroPadded(body, pos, 4)
  {
    var (length, at) := TakeNumber(true, body, pos, 4).value;
    var (raw, end) := TakeCounted(true, body, pos).value;
    NumberReprints(length, 4, body, pos);
    assert body[..end] == body[..at] + raw;
    var counted := PutWord(true, |bytes|, body[..pos]);
    if counted + bytes == body[..end] {
      CountedBack(true, bytes, body[..pos], body);
      assert counted + bytes == body[..at] + bytes;
      assert counted == (counted + bytes)[..at] == body[..at];
    }
  }

  lemma TextReprints(body: seq<byte>, pos: nat)
    requires pos <= |body| && Parse(true, Text, body, pos).Some?
    requires var v := Parse(true, Text, body, pos).value.0; |v.s| + 1 < TWO_TO_32
    ensures var (v, end) := Parse(true, Text, body, pos).value;
            Put(true, Text, v, body[..pos]) == body[..end] <==> Canonical(Text, body, pos)
  {
    hide Valid, Lossy, StripNul, TakeNumber, PutWord, ZeroPadded;
    var raw := TakeCounted(true, body, pos).value.0;
    var v := Parse(true, Text, body, pos).value.0;
    TextIsCounted(true, v.s, body[..pos]);
    CountedReprints(v.s + [0], body, pos);
    TextOfRaw(raw);
  }

  lemma TextOfRaw(raw: seq<byte>)
    ensures Lossy(StripNul(raw)) + [0] == raw
       <==> (raw != [] && raw[|raw| - 1] == 0 && Valid(raw[..|raw| - 1]))
  {
    hide Valid, Lossy;
    var text := Lossy(StripNul(raw));
    if text + [0] == raw {
      assert raw[..|raw| - 1] == text;
    }
    if raw != [] && raw[|raw| - 1] == 0 && Valid(raw[..|raw| - 1]) {
      assert raw[..|raw| - 1] + [0] == raw;
    }
  }

  lemma OctetReprints(ty: Ty, body: seq<byte>, pos: nat)
    requires ty == Octet || ty == Flag
    requires pos <= |body| && Parse(true, ty, body, pos).Some?
    requires Shaped(ty, Parse(true, ty, body, pos).value.0)
    ensures var (v, end) := Parse(true, ty, body, pos).value;
            Put(true, ty, v, body[..pos]) == body[..end] <==> Canonical(ty, body, pos)
  {
    assert Take(body, pos, 1, 1).value.0[0] == body[pos];
    assert body[..pos + 1] == body[..pos] + [body[pos]];
    var n := Parse(true, ty, body, pos).value.0.n;
    assert (body[..pos] + [n])[pos] == n;
  }

  /** Printing what was read reproduces the bytes exactly when those bytes were canonical. */
  lemma {:induction false} ReprintsIffCanonical(ty: Ty, body: seq<byte>, pos: nat)
    requires pos <= |body| && Parse(true, ty, body, pos).Some?
    requires var v := Parse(true, ty, body, pos).value.0; Shaped(ty, v) && Fits(ty, v)
    ensures var (v, end) := Parse(true, ty, body, pos).value;
            end <= |body| && (Put(true, ty, v, body[..pos]) == body[..end] <==> Canonical(ty, body, pos))
    decreases ty, 1
  {
    var (v, end) := Parse(true, ty, body, pos).value;
    Stable(true, ty, body, body, pos);
    match ty
    case Octet => OctetReprints(ty, body, pos);
    case Flag => OctetReprints(ty, body, pos);
    case Word => NumberReprints(v.n, 4, body, pos);
    case Double => NumberReprints(v.n, 8, body, pos);
    case Text => TextReprints(body, pos);
    case Blob =>
      BlobIsCounted(true, v.s, body[..pos]);
      CountedReprints(v.s, body, pos);
    case Array(n, e) => AllReprintIffCanonical(e, n, body, pos);
    case Sequence(e) => SequenceReprints(e, body, pos);
    case Pair(t, u) =>
      var (a, at) := Parse(true, t, body, pos).value;
      PairReprints(t, u, body, pos, a, at, v.b, end);
  }

  lemma {:induction false} PairReprints(t: Ty, u: Ty, body: seq<byte>, pos: nat, a: Val, at: nat, b: Val, end: nat)
    requires pos <= |body|
    requires Parse(true, t, body, pos) == Some((a, at)) && Parse(true, u, body, at) == Some((b, end))
    requires Shaped(t, a) && Fits(t, a) && Shaped(u, b) && Fits(u, b)
    ensures pos <= at <= end <= |body|
    ensures Put(true, u, b, Put(true, t, a, body[..pos])) == body[..end]
       <==> (Canonical(t, body, pos) && Canonical(u, body, at))
    decreases Pair(t, u), 0
  {
    hide Put, Parse, Shaped, Fits, Canonical;
    Stable(true, t, body, body, pos);
    Stable(true, u, body, body, at);
    ReprintsIffCanonical(t, body, pos);
    ReprintsIffCanonical(u, body, at);
    var middle := Put(true, t, a, body[..pos]);
    var printed := Put(true, u, b, middle);
    if printed == body[..end] {
      PrefixOfPrefix(middle, printed, body);
      RoundTrip(true, t, a, body[..pos], body);
      assert middle == body[..at];
    }
  }

  lemma {:induction false} SequenceReprints(e: Ty, body: seq<byte>, pos: nat)
    requires pos <= |body| && Parse(true, Sequence(e), body, pos).Some?
    requires var v := Parse(true, Sequence(e), body, pos).value.0; Shaped(Sequence(e), v) && Fits(Sequence(e), v)
    ensures var (v, end) := Parse(true, Sequence(e), body, pos).value;
            end <= |body| && (Put(true, Sequence(e), v, body[..pos]) == body[..end]
                <==> Canonical(Sequence(e), body, pos))
    decreases Sequence(e), 0
  {
    var (n, at) := TakeNumber(true, body, pos, 4).value;
    var (items, end) := ParseAll(true, e, n, body, at).value;
    NumberStable(true, body, body, pos, 4);
    StableAll(true, e, n, body, body, at);
    SequenceIsCounted(true, e, items, body[..pos]);
    NumberReprints(n, 4, body, pos);
    AllReprintIffCanonical(e, n, body, at);
    var counted := PutWord(true, n, body[..pos]);
    if PutAll(true, e, items, counted) == body[..end] {
      PrefixOfPrefix(counted, PutAll(true, e, items, counted), body);
      CountBack(true, n, body[..pos], body);
      assert counted == body[..at];
    }
  }

  lemma {:induction false} AllReprintIffCanonical(e: Ty, n: nat, body: seq<byte>, pos: nat)
    requires pos <= |body| && ParseAll(true, e, n, body, pos).Some?
    requires var items := ParseAll(true, e, n, body, pos).value.0; AllShaped(e, items) && AllFit(e, items)
    ensures var (items, end) := ParseAll(true, e, n, body, pos).value;
            end <= |body| && (PutAll(true, e, items, body[..pos]) == body[..end] <==> CanonicalAll(e, n, body, pos))
    decreases e, n + 2
  {
    hide Put, Parse, Shaped, Fits, AllShaped, AllFit, Canonical;
    if n > 0 {
      var (items, end) := ParseAll(true, e, n, body, pos).value;
      var (front, at) := ParseAll(true, e, n - 1, body, pos).value;
      var last := items[n - 1];
      SplitLast(e, items);
      assert items[..n - 1] == front;
      StableAll(true, e, n - 1, body, body, pos);
      Stable(true, e, body, body, at);
      AllReprintIffCanonical(e, n - 1, body, pos);
      ReprintsIffCanonical(e, body, at);
      var before := PutAll(true, e, front, body[..pos]);
      var printed := Put(true, e, last, before);
      assert PutAll(true, e, items, body[..pos]) == printed;
      if printed == body[..end] {
        PrefixOfPrefix(before, printed, body);
        RoundTripAll(true, e, front, body[..pos], body);
        assert before == body[..at];
      }
      assert CanonicalAll(e, n, body, pos) <==> before == body[..at] && Canonical(e, body, at);
    }
  }
}
