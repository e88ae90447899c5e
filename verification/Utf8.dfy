/**
  UTF-8 as bytes (Table 3-7 of the Unicode Standard), and the lossy decoding every CDR
  string goes through: each maximal ill-formed chunk becomes U+FFFD.
 */
module Utf8 {
  import opened Prelude

  predicate Continues(b: byte) { 0x80 <= b < 0xC0 }

  /** The second byte a three- or four-byte sequence may carry after its lead. */
  predicate SecondFits(lead: byte, b: byte) {
    if lead == 0xE0 then 0xA0 <= b < 0xC0
    else if lead == 0xED then 0x80 <= b < 0xA0
    else if lead == 0xF0 then 0x90 <= b < 0xC0
    else if lead == 0xF4 then 0x80 <= b < 0x90
    else Continues(b)
  }

  /** The bytes a character starting with `lead` occupies; 0 when none can. */
  function Width(lead: byte): nat {
    if lead < 0x80 then 1
    else if 0xC2 <= lead < 0xE0 then 2
    else if 0xE0 <= lead < 0xF0 then 3
    else if 0xF0 <= lead < 0xF5 then 4
    else 0
  }

  /** How many leading bytes of `s` agree with the character its first byte announces. */
  function Agreeing(s: seq<byte>): (k: nat)
    requires s != []
    ensures 1 <= k <= |s|
    ensures k <= Width(s[0]) || k == 1
  {
    var w := Width(s[0]);
    if w < 2 || |s| < 2 || !(if w == 2 then Continues(s[1]) else SecondFits(s[0], s[1])) then 1
    else if w < 3 || |s| < 3 || !Continues(s[2]) then 2
    else if w < 4 || |s| < 4 || !Continues(s[3]) then 3
    else 4
  }

  /** The first character of `s` is complete and well formed. */
  predicate Starts(s: seq<byte>)
    requires s != []
  {
    Agreeing(s) == Width(s[0])
  }

  predicate Valid(s: seq<byte>) {
    s == [] || (Starts(s) && Valid(s[Agreeing(s)..]))
  }

  const REPLACEMENT: seq<byte> := [0xEF, 0xBF, 0xBD]

  /** `String::from_utf8_lossy`. */
  function Lossy(s: seq<byte>): (r: seq<byte>)
    ensures |r| <= 3 * |s|
    ensures Valid(r)
    ensures Valid(s) ==> r == s
  {
    if s == [] then []
    else
      var k := Agreeing(s);
      var rest := Lossy(s[k..]);
      if Starts(s) then
        CharThenValid(s[..k], rest);
        assert Agreeing(s[..k]) == k;
        assert s[..k] + s[k..] == s;
        s[..k] + rest
      else
        CharThenValid(REPLACEMENT, rest);
        REPLACEMENT + rest
  }

  lemma CharThenValid(c: seq<byte>, rest: seq<byte>)
    requires c != [] && Starts(c) && Agreeing(c) == |c| && Valid(rest)
    ensures Valid(c + rest)
  {
    assert (c + rest)[|c|..] == rest;
    assert (c + rest)[0] == c[0];
    assert Agreeing(c + rest) == |c|;
  }

  // ------------------------------------------------------------ valid text is encoded characters

  /** A Unicode scalar value: any code point but a surrogate. */
  type Scalar = c: int | 0 <= c < 0xD800 || 0xE000 <= c < 0x11_0000

  /** UTF-8 (section 3 of RFC 3629): six bits to a continuation byte, the rest in the lead. */
  function Encoded(c: Scalar): (s: seq<byte>)
    ensures s != []
  {
    if c < 0x80 then [c]
    else if c < 0x800 then [0xC0 + c / 0x40, 0x80 + c % 0x40]
    else if c < 0x1_0000 then [0xE0 + c / 0x1000, 0x80 + c / 0x40 % 0x40, 0x80 + c % 0x40]
    else [0xF0 + c / 0x4_0000, 0x80 + c / 0x1000 % 0x40, 0x80 + c / 0x40 % 0x40, 0x80 + c % 0x40]
  }

  function EncodedAll(text: seq<Scalar>): seq<byte> {
    if text == [] then [] else Encoded(text[0]) + EncodedAll(text[1..])
  }

  /** The scalar value a well-formed character encodes. */
  function Decoded(s: seq<byte>): int
    requires s != [] && Starts(s)
  {
    var w := Width(s[0]);
    if w == 1 then s[0]
    else if w == 2 then (s[0] as int - 0xC0) * 0x40 + (s[1] as int - 0x80)
    else if w == 3 then (s[0] as int - 0xE0) * 0x1000 + (s[1] as int - 0x80) * 0x40 + (s[2] as int - 0x80)
    else
      (s[0] as int - 0xF0) * 0x4_0000 + (s[1] as int - 0x80) * 0x1000 + (s[2] as int - 0x80) * 0x40
        + (s[3] as int - 0x80)
  }

  /** Six bits split off again. */
  lemma SixBits(hi: nat, lo: nat)
    requires lo < 0x40
    ensures (hi * 0x40 + lo) / 0x40 == hi && (hi * 0x40 + lo) % 0x40 == lo
  {
  }

  lemma ThreeParts(a: nat, b: nat, c: nat)
    requires b < 0x40 && c < 0x40
    ensures var n := a * 0x1000 + b * 0x40 + c;
            n / 0x1000 == a && n / 0x40 == a * 0x40 + b && n / 0x40 % 0x40 == b && n % 0x40 == c
  {
    SixBits(a * 0x40 + b, c);
    SixBits(a, b);
  }

  lemma FourParts(a: nat, b: nat, c: nat, d: nat)
    requires b < 0x40 && c < 0x40 && d < 0x40
    ensures var n := a * 0x4_0000 + b * 0x1000 + c * 0x40 + d;
            n / 0x4_0000 == a && n / 0x1000 % 0x40 == b && n / 0x40 % 0x40 == c && n % 0x40 == d
  {
    ThreeParts(a * 0x40 + b, c, d);
    SixBits(a, b);
  }

  ghost predicate Reencodes(s: seq<byte>)
    requires s != [] && Starts(s)
  {
    && (0 <= Decoded(s) < 0xD800 || 0xE000 <= Decoded(s) < 0x11_0000)
    && Encoded(Decoded(s)) == s[..Agreeing(s)]
  }

  lemma DecodedEncodes(s: seq<byte>)
    requires s != [] && Starts(s)
    ensures Reencodes(s)
  {
    hide Reencodes;
    match Width(s[0])
    case 1 => OneReencodes(s);
    case 2 => TwoReencode(s);
    case 3 => ThreeReencode(s);
    case _ => FourReencode(s);
  }

  lemma OneReencodes(s: seq<byte>)
    requires s != [] && Starts(s) && Width(s[0]) == 1
    ensures Reencodes(s)
  {
  }

  lemma TwoReencode(s: seq<byte>)
    requires s != [] && Starts(s) && Width(s[0]) == 2
    ensures Reencodes(s)
  {
    SixBits(s[0] as int - 0xC0, s[1] as int - 0x80);
    assert s[..2] == [s[0], s[1]];
  }

  lemma ThreeReencode(s: seq<byte>)
    requires s != [] && Starts(s) && Width(s[0]) == 3
    ensures Reencodes(s)
  {
    ThreeParts(s[0] as int - 0xE0, s[1] as int - 0x80, s[2] as int - 0x80);
    assert s[..3] == [s[0], s[1], s[2]];
  }

  lemma FourReencode(s: seq<byte>)
    requires s != [] && Starts(s) && Width(s[0]) == 4
    ensures Reencodes(s)
  {
    FourParts(s[0] as int - 0xF0, s[1] as int - 0x80, s[2] as int - 0x80, s[3] as int - 0x80);
    assert s[..4] == [s[0], s[1], s[2], s[3]];
  }

  lemma EncodedStarts(c: Scalar, rest: seq<byte>)
    ensures var s := Encoded(c) + rest; Starts(s) && Agreeing(s) == |Encoded(c)|
  {
    var s := Encoded(c) + rest;
    EncodedFits(c);
    SameCharacter(Encoded(c), s);
  }

  lemma EncodedFits(c: Scalar)
    ensures Starts(Encoded(c)) && Agreeing(Encoded(c)) == |Encoded(c)|
  {
  }

  /** What a string starts with does not depend on what follows the character. */
  lemma SameCharacter(c: seq<byte>, s: seq<byte>)
    requires c != [] && Starts(c) && Agreeing(c) == |c| && c <= s
    ensures Starts(s) && Agreeing(s) == |c|
  {
    assert s[0] == c[0];
    assert |c| > 1 ==> s[1] == c[1];
    assert |c| > 2 ==> s[2] == c[2];
    assert |c| > 3 ==> s[3] == c[3];
  }

  lemma {:induction false} EncodedIsValid(text: seq<Scalar>)
    ensures Valid(EncodedAll(text))
  {
    if text != [] {
      EncodedIsValid(text[1..]);
      EncodedStarts(text[0], EncodedAll(text[1..]));
      var s := EncodedAll(text);
      assert s[|Encoded(text[0])|..] == EncodedAll(text[1..]);
    }
  }

  lemma {:induction false} ValidIsEncoded(s: seq<byte>) returns (text: seq<Scalar>)
    requires Valid(s)
    ensures s == EncodedAll(text)
    decreases |s|
  {
    if s == [] {
      text := [];
    } else {
      var k := Agreeing(s);
      DecodedEncodes(s);
      var rest := ValidIsEncoded(s[k..]);
      text := [Decoded(s)] + rest;
      assert s == s[..k] + s[k..];
      assert text[1..] == rest;
    }
  }

  /** Text is valid exactly when it is the encoding of some Unicode scalar values. */
  lemma ValidIffEncoded(s: seq<byte>)
    ensures Valid(s) <==> exists text :: s == EncodedAll(text)
  {
    hide Valid, EncodedAll;
    if Valid(s) {
      var text := ValidIsEncoded(s);
    }
    forall text | s == EncodedAll(text)
      ensures Valid(s)
    {
      EncodedIsValid(text);
    }
  }
}
