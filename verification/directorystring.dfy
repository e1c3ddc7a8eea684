/** DirectoryString values (name.go:123-134, 246-305): PrintableString test, BMPString and
    UniversalString decoding. */
module DirectoryStrings {
  import opened Prelude

  type Unit = u: int | 0 <= u < 0x1_0000

  predicate IsScalar(s: int) {
    0 <= s < 0xD800 || 0xE000 <= s < 0x11_0000
  }

  type Scalar = s: int | 0 <= s < 0xD800 || 0xE000 <= s < 0x11_0000

  predicate IsLead(u: Unit) {
    0xD800 <= u <= 0xDBFF
  }

  predicate IsTrail(u: Unit) {
    0xDC00 <= u <= 0xDFFF
  }

  // ---------------------------------------------------------------- UTF-16

  /** The test the code makes at unit i. */
  predicate PairedAt(units: seq<Unit>, i: nat)
    requires i < |units|
  {
    && (IsLead(units[i]) ==> i + 1 < |units| && IsTrail(units[i + 1]))
    && (IsTrail(units[i]) ==> i > 0 && IsLead(units[i - 1]))
  }

  /** RFC 2781 section 2.2: single non-surrogate units and lead-trail pairs. */
  predicate WellFormed(units: seq<Unit>) {
    if units == [] then true
    else if !IsLead(units[0]) && !IsTrail(units[0]) then WellFormed(units[1..])
    else IsLead(units[0]) && |units| >= 2 && IsTrail(units[1]) && WellFormed(units[2..])
  }

  /** The unit-by-unit test is the grammar. */
  lemma {:induction false} LocalTestIsGrammar(units: seq<Unit>)
    ensures WellFormed(units) <==> forall i :: 0 <= i < |units| ==> PairedAt(units, i)
  {
    if units != [] {
      var k := if IsLead(units[0]) && |units| >= 2 && IsTrail(units[1]) then 2 else 1;
      var rest := units[k..];
      LocalTestIsGrammar(rest);
      if forall i :: 0 <= i < |units| ==> PairedAt(units, i) {
        assert PairedAt(units, 0);
        forall i | 0 <= i < |rest| ensures PairedAt(rest, i) {
          assert PairedAt(units, i + k);
        }
      }
      if WellFormed(units) {
        forall i | 0 <= i < |units| ensures PairedAt(units, i) {
          if i >= k {
            assert PairedAt(rest, i - k);
          }
        }
      }
    }
  }

  function EncodeScalar(s: Scalar): seq<Unit> {
    if s < 0x1_0000 then [s]
    else [0xD800 + (s - 0x1_0000) / 0x400, 0xDC00 + (s - 0x1_0000) % 0x400]
  }

  function EncodeScalars(scalars: seq<Scalar>): seq<Unit> {
    if scalars == [] then [] else EncodeScalar(scalars[0]) + EncodeScalars(scalars[1..])
  }

  /** utf16.Decode: an unpaired surrogate becomes U+FFFD. */
  function DecodeUnits(units: seq<Unit>): seq<Scalar> {
    if units == [] then []
    else if !IsLead(units[0]) && !IsTrail(units[0]) then [units[0]] + DecodeUnits(units[1..])
    else if IsLead(units[0]) && |units| >= 2 && IsTrail(units[1]) then
      [0x1_0000 + (units[0] - 0xD800) * 0x400 + (units[1] - 0xDC00)] + DecodeUnits(units[2..])
    else [0xFFFD] + DecodeUnits(units[1..])
  }

  lemma {:induction false} DecodeEncode(scalars: seq<Scalar>)
    ensures WellFormed(EncodeScalars(scalars))
    ensures DecodeUnits(EncodeScalars(scalars)) == scalars
  {
    if scalars != [] {
      DecodeEncode(scalars[1..]);
      var head, rest := EncodeScalar(scalars[0]), EncodeScalars(scalars[1..]);
      assert (head + rest)[|head|..] == rest;
      assert [scalars[0]] + scalars[1..] == scalars;
    }
  }

  lemma {:induction false} EncodeDecode(units: seq<Unit>)
    requires WellFormed(units)
    ensures EncodeScalars(DecodeUnits(units)) == units
  {
    if units != [] {
      var k := if IsLead(units[0]) then 2 else 1;
      EncodeDecode(units[k..]);
      var d := DecodeUnits(units);
      assert d[1..] == DecodeUnits(units[k..]);
      assert EncodeScalar(d[0]) == units[..k];
      assert units[..k] + units[k..] == units;
    }
  }

  /** UTF-8, as conversion of runes to a Go string does it. */
  function Utf8(s: Scalar): Bytes {
    if s < 0x80 then [s]
    else if s < 0x800 then [0xC0 + s / 0x40, 0x80 + s % 0x40]
    else if s < 0x1_0000 then [0xE0 + s / 0x1000, 0x80 + s / 0x40 % 0x40, 0x80 + s % 0x40]
    else [0xF0 + s / 0x4_0000, 0x80 + s / 0x1000 % 0x40, 0x80 + s / 0x40 % 0x40, 0x80 + s % 0x40]
  }

  function Utf8All(scalars: seq<Scalar>): Bytes {
    if scalars == [] then [] else Utf8All(scalars[..|scalars| - 1]) + Utf8(scalars[|scalars| - 1])
  }

  predicate IsTail(b: Byte) {
    0x80 <= b <= 0xBF
  }

  function TailBits(b: Byte): int {
    b as int - 0x80
  }

  function Prefixed(s: int, rest: Option<seq<int>>): Option<seq<int>> {
    if rest.None? then None else Some([s] + rest.value)
  }

  /** Reading UTF-8 from left to right, by its lead octets (RFC 3629 section 3). */
  function ReadUtf8(b: Bytes): Option<seq<int>> {
    if b == [] then Some([])
    else if b[0] <= 0x7F then Prefixed(b[0], ReadUtf8(b[1..]))
    else if 0xC2 <= b[0] <= 0xDF && |b| >= 2 && IsTail(b[1]) then
      Prefixed((b[0] as int - 0xC0) * 64 + TailBits(b[1]), ReadUtf8(b[2..]))
    else if 0xE0 <= b[0] <= 0xEF && |b| >= 3 && IsTail(b[1]) && IsTail(b[2]) then
      Prefixed((b[0] as int - 0xE0) * 4096 + TailBits(b[1]) * 64 + TailBits(b[2]), ReadUtf8(b[3..]))
    else if 0xF0 <= b[0] <= 0xF4 && |b| >= 4 && IsTail(b[1]) && IsTail(b[2]) && IsTail(b[3]) then
      Prefixed((b[0] as int - 0xF0) * 262_144 + TailBits(b[1]) * 4096 + TailBits(b[2]) * 64 + TailBits(b[3]),
               ReadUtf8(b[4..]))
    else None
  }

  /** The bits of a scalar, in the octets of each form. */
  lemma Utf8Bits(s: Scalar)
    ensures var b := Utf8(s);
            if s < 0x80 then b == [s]
            else if s < 0x800 then
              && |b| == 2 && 0xC2 <= b[0] <= 0xDF && IsTail(b[1])
              && s == (b[0] as int - 0xC0) * 64 + TailBits(b[1])
            else if s < 0x1_0000 then
              && |b| == 3 && 0xE0 <= b[0] <= 0xEF && IsTail(b[1]) && IsTail(b[2])
              && s == (b[0] as int - 0xE0) * 4096 + TailBits(b[1]) * 64 + TailBits(b[2])
            else
              && |b| == 4 && 0xF0 <= b[0] <= 0xF4 && IsTail(b[1]) && IsTail(b[2]) && IsTail(b[3])
              && s == (b[0] as int - 0xF0) * 262_144 + TailBits(b[1]) * 4096 + TailBits(b[2]) * 64 + TailBits(b[3])
  {
    if 0x800 <= s < 0x1_0000 {
      assert s / 0x40 == s / 0x1000 * 64 + s / 0x40 % 0x40;
    } else if s >= 0x1_0000 {
      assert s / 0x1000 == s / 0x4_0000 * 64 + s / 0x1000 % 0x40;
      assert s / 0x40 == s / 0x1000 * 64 + s / 0x40 % 0x40;
    }
  }

  lemma Utf8Step(s: Scalar, rest: Bytes)
    ensures ReadUtf8(Utf8(s) + rest) == Prefixed(s, ReadUtf8(rest))
  {
    hide Utf8, TailBits, IsTail;
    var head := Utf8(s);
    var b := head + rest;
    Utf8Bits(s);
    assert b[|head|..] == rest;
    assert forall i :: 0 <= i < |head| ==> b[i] == head[i];
  }

  lemma {:induction false} ReadUtf8Concat(scalars: seq<Scalar>, tail: Bytes)
    ensures var rest := ReadUtf8(tail);
            ReadUtf8(Utf8All(scalars) + tail) == if rest.None? then None else Some(scalars + rest.value)
    decreases |scalars|
  {
    hide Utf8, ReadUtf8;
    if scalars == [] {
      assert Utf8All(scalars) + tail == tail;
      assert ReadUtf8(tail).Some? ==> scalars + ReadUtf8(tail).value == ReadUtf8(tail).value;
    } else {
      var front, last := scalars[..|scalars| - 1], scalars[|scalars| - 1];
      assert Utf8All(scalars) + tail == Utf8All(front) + (Utf8(last) + tail);
      ReadUtf8Concat(front, Utf8(last) + tail);
      Utf8Step(last, tail);
      assert ReadUtf8(tail).Some? ==>
          front + ([last] + ReadUtf8(tail).value) == scalars + ReadUtf8(tail).value;
    }
  }

  lemma NothingToRead(scalars: seq<Scalar>)
    ensures ReadUtf8([]) == Some([])
    ensures scalars + [] == scalars
  {
  }

  /** What the decoders write reads back as the scalars, in order. */
  lemma Utf8RoundTrip(scalars: seq<Scalar>)
    ensures ReadUtf8(Utf8All(scalars)) == Some(scalars)
  {
    hide ReadUtf8;
    ReadUtf8Concat(scalars, []);
    NothingToRead(scalars);
    assert Utf8All(scalars) + [] == Utf8All(scalars);
  }

  // ---------------------------------------------------------------- BMPString

  function UnitAt(b: Bytes, i: nat): Unit
    requires 2 * i + 1 < |b|
  {
    b[2 * i] as int * 256 + b[2 * i + 1]
  }

  function UnitsOf(b: Bytes): seq<Unit>
    requires |b| % 2 == 0
  {
    seq(|b| / 2, i requires 0 <= i < |b| / 2 => UnitAt(b, i))
  }

  /** UTF-16BE octets. */
  function UnitBytes(units: seq<Unit>): (b: Bytes)
    ensures |b| == 2 * |units|
  {
    seq(2 * |units|, i requires 0 <= i < 2 * |units| => if i % 2 == 0 then units[i / 2] / 256 else units[i / 2] % 256)
  }

  function DecodedBMPString(b: Bytes): Result<Bytes> {
    if |b| % 2 != 0 || !WellFormed(UnitsOf(b)) then Err(MalformedDER)
    else Ok(Utf8All(DecodeUnits(UnitsOf(b))))
  }

  method DecodeBMPString(b: Bytes) returns (r: Result<Bytes>)
    ensures r == DecodedBMPString(b)
  {
    if |b| % 2 != 0 {
      return Err(MalformedDER);
    }
    var units := new Unit[|b| / 2];
    for i := 0 to units.Length
      invariant forall k :: 0 <= k < i ==> units[k] == UnitAt(b, k)
    {
      units[i] := b[2 * i] as int * 256 + b[2 * i + 1];
    }
    assert units[..] == UnitsOf(b);
    LocalTestIsGrammar(units[..]);
    for i := 0 to units.Length
      invariant units[..] == UnitsOf(b)
      invariant forall k :: 0 <= k < i ==> PairedAt(units[..], k)
    {
      var u := units[i];
      if IsLead(u) && (i + 1 == units.Length || !IsTrail(units[i + 1])) {
        assert !PairedAt(units[..], i);
        return Err(MalformedDER);
      }
      if IsTrail(u) && (i == 0 || !IsLead(units[i - 1])) {
        assert !PairedAt(units[..], i);
        return Err(MalformedDER);
      }
    }
    return Ok(Utf8All(DecodeUnits(units[..])));
  }

  lemma UnitBytesRoundTrip(units: seq<Unit>)
    ensures UnitsOf(UnitBytes(units)) == units
  {
    var b := UnitBytes(units);
    forall i | 0 <= i < |units| ensures UnitAt(b, i) == units[i] {
      assert b[2 * i] == units[i] / 256 && b[2 * i + 1] == units[i] % 256;
    }
  }

  lemma BytesUnitRoundTrip(b: Bytes)
    requires |b| % 2 == 0
    ensures UnitBytes(UnitsOf(b)) == b
  {
    var units := UnitsOf(b);
    forall i | 0 <= i < |b| ensures UnitBytes(units)[i] == b[i] {
      assert units[i / 2] == UnitAt(b, i / 2);
    }
  }

  /** The UTF-16BE form of every scalar sequence decodes to that sequence. */
  lemma BMPStringRoundTrip(scalars: seq<Scalar>)
    ensures DecodedBMPString(UnitBytes(EncodeScalars(scalars))) == Ok(Utf8All(scalars))
  {
    DecodeEncode(scalars);
    UnitBytesRoundTrip(EncodeScalars(scalars));
  }

  /** A BMPString is accepted exactly when it is the UTF-16BE form of some scalar sequence. */
  lemma BMPStringAccepted(b: Bytes)
    ensures DecodedBMPString(b).Ok? <==> exists scalars :: b == UnitBytes(EncodeScalars(scalars))
  {
    if DecodedBMPString(b).Ok? {
      EncodeDecode(UnitsOf(b));
      BytesUnitRoundTrip(b);
      assert b == UnitBytes(EncodeScalars(DecodeUnits(UnitsOf(b))));
    }
    forall scalars | b == UnitBytes(EncodeScalars(scalars))
      ensures DecodedBMPString(b).Ok?
    {
      BMPStringRoundTrip(scalars);
    }
  }

  // ---------------------------------------------------------------- UniversalString

  function Rune(b0: Byte, b1: Byte, b2: Byte, b3: Byte): int {
    ((b0 as int * 256 + b1) * 256 + b2) * 256 + b3
  }

  function RuneAt(b: Bytes, i: nat): int
    requires 4 * i + 3 < |b|
  {
    Rune(b[4 * i], b[4 * i + 1], b[4 * i + 2], b[4 * i + 3])
  }

  predicate RunesValid(b: Bytes, n: nat)
    requires 4 * n <= |b|
  {
    forall i :: 0 <= i < n ==> IsScalar(RuneAt(b, i))
  }

  function Runes(b: Bytes, n: nat): seq<Scalar>
    requires 4 * n <= |b| && RunesValid(b, n)
  {
    seq(n, i requires 0 <= i < n => RuneAt(b, i))
  }

  function DecodedUniversalString(b: Bytes): Result<Bytes> {
    if |b| % 4 != 0 || !RunesValid(b, |b| / 4) then Err(MalformedDER)
    else Ok(Utf8All(Runes(b, |b| / 4)))
  }

  /** UTF-32BE octets. */
  function Utf32(scalars: seq<Scalar>): (b: Bytes)
    ensures |b| == 4 * |scalars|
  {
    if scalars == [] then []
    else Utf32(scalars[..|scalars| - 1]) + ScalarOctets(scalars[|scalars| - 1])
  }

  function ScalarOctets(s: int): (b: Bytes)
    requires 0 <= s < 0x11_0000
    ensures |b| == 4
  {
    [0, s / 0x1_0000, s / 0x100 % 0x100, s % 0x100]
  }

  lemma OctetsOfScalar(s: int)
    requires 0 <= s < 0x11_0000
    ensures var b := ScalarOctets(s); Rune(b[0], b[1], b[2], b[3]) == s
  {
    assert s / 0x1_0000 == s / 0x100 / 0x100;
  }

  lemma {:induction false} Utf32At(scalars: seq<Scalar>, i: nat)
    requires i < |scalars|
    ensures RuneAt(Utf32(scalars), i) == scalars[i]
  {
    hide Rune, ScalarOctets;
    var front, u := Utf32(scalars[..|scalars| - 1]), Utf32(scalars);
    if i < |scalars| - 1 {
      Utf32At(scalars[..|scalars| - 1], i);
      assert u[4 * i] == front[4 * i] && u[4 * i + 1] == front[4 * i + 1];
      assert u[4 * i + 2] == front[4 * i + 2] && u[4 * i + 3] == front[4 * i + 3];
    } else {
      OctetsOfScalar(scalars[i]);
      var b := ScalarOctets(scalars[i]);
      assert u[4 * i] == b[0] && u[4 * i + 1] == b[1] && u[4 * i + 2] == b[2] && u[4 * i + 3] == b[3];
    }
  }

  lemma RuneBytes(b0: Byte, b1: Byte, b2: Byte, b3: Byte)
    requires Rune(b0, b1, b2, b3) < 0x11_0000
    ensures ScalarOctets(Rune(b0, b1, b2, b3)) == [b0, b1, b2, b3]
  {
    var s := Rune(b0, b1, b2, b3);
    assert b0 == 0;
    var high := b1 as int * 256 + b2;
    assert s == high * 256 + b3;
    assert s / 0x100 == high && s % 0x100 == b3;
    assert s / 0x1_0000 == high / 0x100;
  }

  lemma {:induction false} Utf32OfRunes(b: Bytes, n: nat)
    requires 4 * n <= |b| && RunesValid(b, n)
    ensures Utf32(Runes(b, n)) == b[..4 * n]
  {
    hide Rune, ScalarOctets;
    if n > 0 {
      assert IsScalar(RuneAt(b, n - 1));
      var runes := Runes(b, n);
      Utf32OfRunes(b, n - 1);
      assert runes[..n - 1] == Runes(b, n - 1);
      RuneBytes(b[4 * n - 4], b[4 * n - 3], b[4 * n - 2], b[4 * n - 1]);
      assert b[..4 * n] == b[..4 * n - 4] + [b[4 * n - 4], b[4 * n - 3], b[4 * n - 2], b[4 * n - 1]];
    }
  }

  /** A UniversalString is accepted exactly when it is the UTF-32BE form of some scalars, and then
      decodes to them. */
  lemma UniversalStringMeaning(b: Bytes, scalars: seq<Scalar>)
    ensures DecodedUniversalString(Utf32(scalars)) == Ok(Utf8All(scalars))
    ensures DecodedUniversalString(b).Ok? ==> exists s: seq<Scalar> :: b == Utf32(s)
    ensures DecodedUniversalString(b).Err? ==> DecodedUniversalString(b) == Err(MalformedDER)
  {
    var u := Utf32(scalars);
    forall i | 0 <= i < |scalars| ensures RuneAt(u, i) == scalars[i] {
      Utf32At(scalars, i);
    }
    assert Runes(u, |u| / 4) == scalars;
    if DecodedUniversalString(b).Ok? {
      Utf32OfRunes(b, |b| / 4);
      assert b[..4 * (|b| / 4)] == b;
    }
  }

  lemma Utf8Snoc(b: Bytes, k: nat)
    requires 4 * k + 3 < |b| && RunesValid(b, k) && IsScalar(RuneAt(b, k))
    ensures RunesValid(b, k + 1)
    ensures Utf8All(Runes(b, k + 1)) == Utf8All(Runes(b, k)) + Utf8(RuneAt(b, k))
  {
    assert Runes(b, k + 1)[..k] == Runes(b, k);
  }

  method DecodeUniversalString(b: Bytes) returns (r: Result<Bytes>)
    ensures r == DecodedUniversalString(b)
  {
    if |b| % 4 != 0 {
      return Err(MalformedDER);
    }
    hide Utf8, Utf8All, Rune, IsScalar;
    var sb: Bytes := [];
    var i := 0;
    ghost var k := 0;
    while i < |b|
      invariant i == 4 * k <= |b|
      invariant RunesValid(b, k)
      invariant sb == Utf8All(Runes(b, k))
    {
      var rune := Rune(b[i], b[i + 1], b[i + 2], b[i + 3]);
      assert rune == RuneAt(b, k);
      if !IsScalar(rune) {
        assert !RunesValid(b, |b| / 4);
        return Err(MalformedDER);
      }
      Utf8Snoc(b, k);
      sb := sb + Utf8(rune);
      i := i + 4;
      k := k + 1;
    }
    return Ok(sb);
  }

  // ---------------------------------------------------------------- by tag

  const TAG_UTF8_STRING := 12
  const TAG_PRINTABLE_STRING := 19
  const TAG_T61_STRING := 20
  const TAG_IA5_STRING := 22
  const TAG_UNIVERSAL_STRING := 28
  const TAG_BMP_STRING := 30

  /** Only the tag number counts; the class and the constructed bit are not looked at. */
  function ParsedDirectoryString(tag: int, b: Bytes): Result<Bytes> {
    if tag == TAG_PRINTABLE_STRING || tag == TAG_UTF8_STRING || tag == TAG_IA5_STRING || tag == TAG_T61_STRING
    then Ok(b)
    else if tag == TAG_BMP_STRING then DecodedBMPString(b)
    else if tag == TAG_UNIVERSAL_STRING then DecodedUniversalString(b)
    else Err(MalformedDER)
  }

  method ParseDirectoryString(tag: int, b: Bytes) returns (r: Result<Bytes>)
    ensures r == ParsedDirectoryString(tag, b)
    ensures tag == 12 || tag == 19 || tag == 20 || tag == 22 ==> r == Ok(b)
    ensures tag == 30 ==> r == DecodedBMPString(b)
    ensures tag == 28 ==> r == DecodedUniversalString(b)
    ensures tag !in {12, 19, 20, 22, 28, 30} ==> r == Err(MalformedDER)
  {
    if tag == TAG_BMP_STRING {
      r := DecodeBMPString(b);
    } else if tag == TAG_UNIVERSAL_STRING {
      r := DecodeUniversalString(b);
    } else {
      r := ParsedDirectoryString(tag, b);
    }
  }

  predicate IsPrintableByte(c: Byte) {
    || 0x61 <= c <= 0x7A || 0x41 <= c <= 0x5A || 0x30 <= c <= 0x39
    || c in [0x20, 0x27, 0x28, 0x29, 0x2B, 0x2C, 0x2D, 0x2E, 0x2F, 0x3A, 0x3D, 0x3F]
  }

  /** A rune beyond ASCII is never printable, so the test can look at the bytes. */
  predicate IsPrintableString(s: Bytes) {
    forall i :: 0 <= i < |s| ==> IsPrintableByte(s[i])
  }
}
