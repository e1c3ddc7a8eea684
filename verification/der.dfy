/** DER lengths and TLVs: the hand-written codec of name.go, and the reader of
    encoding/asn1 for single-byte tags. */
module Der {
  import opened Prelude

  // ---------------------------------------------------------------- lengths

  /** The shortest big-endian form of v; empty for 0. */
  function BigEndian(v: nat): (r: Bytes)
    ensures v > 0 ==> |r| > 0
  {
    if v == 0 then [] else BigEndian(v / 256) + [v % 256]
  }

  function Pow256(k: nat): (r: nat)
    ensures r > 0
  {
    if k == 0 then 1 else 256 * Pow256(k - 1)
  }

  /** |BigEndian(v)| is the least k with v < 256^k. */
  lemma {:induction false} BigEndianLength(v: nat, k: nat)
    ensures |BigEndian(v)| <= k <==> v < Pow256(k)
  {
    if v > 0 && k > 0 {
      BigEndianLength(v / 256, k - 1);
    }
  }

  /** The definite form of a length: short below 128, else the octet count and the octets. */
  function LengthOctets(l: int): Bytes
    requires l <= MAX_INT
  {
    if l < 128 then [l % 256]
    else
      var octets := BigEndian(l);
      MachineIntOctets(l);
      [128 + |octets|] + octets
  }

  lemma MachineIntOctets(l: nat)
    requires l <= MAX_INT
    ensures |BigEndian(l)| <= 8
  {
    BigEndianLength(l, 8);
    assert Pow256(8) == 0x1_0000_0000_0000_0000 by {
      assert Pow256(4) == 256 * (256 * (256 * (256 * Pow256(0))));
      assert Pow256(8) == 256 * (256 * (256 * (256 * Pow256(4))));
    }
  }

  method MarshalLength(l: int) returns (r: Bytes)
    requires -MAX_INT - 1 <= l <= MAX_INT
    ensures r == LengthOctets(l)
  {
    if l < 0x80 {
      return [l % 256];
    }
    var buf: Bytes := [];
    var v := l;
    while v > 0
      invariant 0 <= v
      invariant BigEndian(v) + buf == BigEndian(l)
    {
      buf := [v % 256] + buf;
      v := v / 256;
    }
    MachineIntOctets(l);
    return [128 + |buf|] + buf;
  }

  /** l = l<<8 | b over the octets, in a 64-bit int. */
  function Accumulate(octets: Bytes): int {
    if octets == [] then 0
    else Wrap64(Accumulate(octets[..|octets| - 1]) * 256 + octets[|octets| - 1])
  }

  function ParseLength(data: Bytes): Result<(int, Bytes)> {
    if |data| == 0 then Err(Other)
    else if data[0] < 128 then Ok((data[0], data[1..]))
    else
      var numBytes := data[0] % 128;
      if numBytes == 0 || |data| < 1 + numBytes then Err(Other)
      else Ok((Accumulate(data[1..1 + numBytes]), data[1 + numBytes..]))
  }

  method ParseDERLength(data: Bytes) returns (r: Result<(int, Bytes)>)
    ensures r == ParseLength(data)
  {
    if |data| == 0 {
      return Err(Other);
    }
    if data[0] / 128 == 0 {
      return Ok((data[0], data[1..]));
    }
    var numBytes := data[0] % 128;
    if numBytes == 0 {
      return Err(Other);
    }
    if |data| < 1 + numBytes {
      return Err(Other);
    }
    var l := 0;
    var octets := data[1..1 + numBytes];
    for i := 0 to |octets|
      invariant l == Accumulate(octets[..i])
    {
      assert octets[..i + 1][..i] == octets[..i];
      l := Wrap64(l * 256 + octets[i]);
    }
    assert octets[..|octets|] == octets;
    return Ok((l, data[1 + numBytes..]));
  }

  lemma {:induction false} AccumulateBigEndian(v: nat)
    requires v <= MAX_INT
    ensures Accumulate(BigEndian(v)) == v
  {
    if v > 0 {
      var b := BigEndian(v);
      assert b[..|b| - 1] == BigEndian(v / 256);
      AccumulateBigEndian(v / 256);
    }
  }

  /** Reading a written length gives it back and leaves the tail, for every machine int. */
  lemma LengthRoundTrip(l: nat, tail: Bytes)
    requires l <= MAX_INT
    ensures ParseLength(LengthOctets(l) + tail) == Ok((l, tail))
  {
    if l < 128 {
      assert ([l] + tail)[1..] == tail;
    } else {
      MachineIntOctets(l);
      AccumulateBigEndian(l);
      LongForm(128 + |BigEndian(l)|, BigEndian(l), tail);
    }
  }

  /** Both readers find the octets of a long form. */
  lemma LongFormParts(head: Byte, octets: Bytes, tail: Bytes)
    requires 0 < |octets| < 128 && head == 128 + |octets|
    ensures var data := [head] + octets + tail;
            && |data| == 1 + |octets| + |tail|
            && data[0] == head && head % 128 == |octets|
            && data[1..1 + |octets|] == octets
            && data[1 + |octets|..] == tail
  {
    var data := [head] + octets + tail;
    assert data[1..1 + |octets|] == octets;
    assert data[1 + |octets|..] == tail;
  }

  lemma LongForm(head: Byte, octets: Bytes, tail: Bytes)
    requires 0 < |octets| < 128 && head == 128 + |octets|
    ensures ParseLength([head] + octets + tail) == Ok((Accumulate(octets), tail))
  {
    LongFormParts(head, octets, tail);
  }

  lemma StrictLongForm(head: Byte, octets: Bytes, tail: Bytes)
    requires 0 < |octets| < 128 && head == 128 + |octets|
    requires StrictAccumulate(octets).Some? && StrictAccumulate(octets).value >= 128
    ensures StrictLength([head] + octets + tail) == Some((StrictAccumulate(octets).value, tail))
  {
    LongFormParts(head, octets, tail);
  }

  lemma {:induction false} AccumulateBound(octets: Bytes)
    requires |octets| <= 7
    ensures 0 <= Accumulate(octets) < Pow256(|octets|) <= 0x100_0000_0000_0000
  {
    if octets == [] {
    } else {
      AccumulateBound(octets[..|octets| - 1]);
      Pow256Small(|octets|);
    }
  }

  lemma {:induction false} Pow256Small(k: nat)
    requires k <= 7
    ensures Pow256(k) <= 0x100_0000_0000_0000
    ensures k < 7 ==> Pow256(k) <= 0x1_0000_0000_0000
  {
    if k == 7 {
      Pow256Small(6);
    } else if k > 0 {
      assert Pow256(0) == 1 && Pow256(1) == 256 && Pow256(2) == 0x1_0000 && Pow256(3) == 0x100_0000;
      assert Pow256(4) == 256 * Pow256(3) && Pow256(5) == 256 * Pow256(4) && Pow256(6) == 256 * Pow256(5);
    }
  }

  /** No definite form that reads as l is shorter than the one written for l. */
  lemma LengthShortest(l: nat, form: Bytes)
    requires l <= MAX_INT && ParseLength(form) == Ok((l, []))
    ensures |LengthOctets(l)| <= |form|
  {
    if l >= 128 {
      var octets := form[1..];
      assert octets == form[1..1 + form[0] % 128];
      if |octets| <= 7 {
        AccumulateBound(octets);
        BigEndianLength(l, |octets|);
      } else {
        MachineIntOctets(l);
      }
    }
  }

  // ---------------------------------------------------------------- lengths that overflow

  /** The unbounded value of the octets. */
  function Magnitude(octets: Bytes): nat {
    if octets == [] then 0 else Magnitude(octets[..|octets| - 1]) * 256 + octets[|octets| - 1]
  }

  lemma WrapStep(x: int, b: Byte)
    ensures Wrap64(Wrap64(x) * 256 + b) == Wrap64(x * 256 + b)
  {
    var m := 0x1_0000_0000_0000_0000;
    var q := (x + 0x8000_0000_0000_0000) / m;
    assert Wrap64(x) == x - q * m;
    WrapMultiple(x * 256 + b, -(q * 256));
  }

  lemma {:induction false} AccumulateWraps(octets: Bytes)
    ensures Accumulate(octets) == Wrap64(Magnitude(octets))
  {
    if octets != [] {
      var front := octets[..|octets| - 1];
      AccumulateWraps(front);
      WrapStep(Magnitude(front), octets[|octets| - 1]);
    }
  }

  lemma {:induction false} MagnitudeBound(octets: Bytes)
    ensures Magnitude(octets) < Pow256(|octets|)
  {
    if octets != [] {
      MagnitudeBound(octets[..|octets| - 1]);
    }
  }

  lemma {:induction false} MagnitudeConcat(a: Bytes, b: Bytes)
    ensures Magnitude(a + b) == Magnitude(a) * Pow256(|b|) + Magnitude(b)
  {
    if b == [] {
      assert a + b == a;
    } else {
      var front, last := b[..|b| - 1], b[|b| - 1];
      assert (a + b)[..|a + b| - 1] == a + front;
      MagnitudeConcat(a, front);
      ShiftDistributes(Magnitude(a), Pow256(|front|), Magnitude(front), last);
    }
  }

  lemma ShiftDistributes(m: nat, p: nat, f: nat, b: Byte)
    ensures (m * p + f) * 256 + b == m * (256 * p) + (f * 256 + b)
  {
    assert m * p * 256 == m * (256 * p);
  }

  /** The octets give a negative int exactly when there are eight or more of them and the eighth
      from the end has its top bit set. */
  predicate Overflows(octets: Bytes) {
    |octets| >= 8 && octets[|octets| - 8] >= 128
  }

  lemma NegativeExactly(octets: Bytes)
    ensures Accumulate(octets) < 0 <==> Overflows(octets)
  {
    hide Accumulate, Magnitude, Pow256;
    if |octets| < 8 {
      AccumulateBound(octets);
    } else {
      var high, low := octets[..|octets| - 8], octets[|octets| - 8..];
      assert high + low == octets;
      MagnitudeConcat(high, low);
      EightOctets(low);
      AccumulateWraps(octets);
      WrapMultiple(Magnitude(low), Magnitude(high));
    }
  }

  lemma EightOctets(low: Bytes)
    requires |low| == 8
    ensures Pow256(8) == 0x1_0000_0000_0000_0000 && Magnitude(low) < Pow256(8)
    ensures low[0] as int * 0x100_0000_0000_0000 <= Magnitude(low) < (low[0] as int + 1) * 0x100_0000_0000_0000
  {
    hide Magnitude, Pow256;
    assert [low[0]] + low[1..] == low;
    MagnitudeConcat([low[0]], low[1..]);
    MagnitudeBound(low[1..]);
    OneOctet(low[0]);
    SevenAndEight();
  }

  lemma OneOctet(b: Byte)
    ensures Magnitude([b]) == b
  {
    assert [b][..0] == [];
  }

  lemma SevenAndEight()
    ensures Pow256(7) == 0x100_0000_0000_0000 && Pow256(8) == 0x1_0000_0000_0000_0000
  {
    assert Pow256(0) == 1 && Pow256(1) == 256 && Pow256(2) == 0x1_0000 && Pow256(3) == 0x100_0000;
    assert Pow256(4) == 256 * Pow256(3) && Pow256(5) == 256 * Pow256(4) && Pow256(6) == 256 * Pow256(5);
    assert Pow256(7) == 256 * Pow256(6) && Pow256(8) == 256 * Pow256(7);
  }

  // ---------------------------------------------------------------- TLV

  const SEQUENCE: Byte := 0x30
  const SET: Byte := 0x31

  function Tlv(tag: Byte, content: Bytes): Bytes
    requires |content| <= MAX_INT
  {
    [tag] + (LengthOctets(|content|) + content)
  }

  method MarshalTagged(tag: Byte, content: Bytes) returns (r: Bytes)
    requires |content| <= MAX_INT
    ensures r == Tlv(tag, content)
  {
    var length := MarshalLength(|content|);
    return [tag] + (length + content);
  }

  /** parseSet and parseSequence, which differ in the tag alone. A negative length, from
      octets that overflow the int, passes the length test and slices out of range. */
  function ParseTagged(tag: Byte, data: Bytes): Result<(Bytes, Bytes)> {
    if |data| < 2 || data[0] != tag then Err(Other)
    else
      var length := ParseLength(data[1..]);
      if length.Err? then Err(length.error)
      else
        var (l, rest) := length.value;
        if |rest| < l then Err(Other)
        else if l < 0 then Err(Panic)
        else Ok((rest[..l], rest[l..]))
  }

  /** A long form whose octets are all there and overflow. */
  predicate LengthOverflows(data: Bytes) {
    && |data| > 0 && data[0] > 128 && |data| >= data[0] - 127
    && Overflows(data[1..data[0] - 127])
  }

  predicate TagOverflows(tag: Byte, data: Bytes) {
    |data| >= 2 && data[0] == tag && LengthOverflows(data[1..])
  }

  /** Reading a SET or SEQUENCE panics exactly on its tag followed by such a length. */
  lemma TaggedPanicsExactly(tag: Byte, data: Bytes)
    ensures ParseTagged(tag, data) == Err(Panic) <==> TagOverflows(tag, data)
  {
    hide Accumulate;
    if |data| >= 2 && data[1] > 128 && |data| >= data[1] - 126 {
      NegativeExactly(data[1..][1..data[1] - 127]);
    }
  }

  lemma TlvRoundTrip(tag: Byte, content: Bytes, tail: Bytes)
    requires |content| <= MAX_INT
    ensures ParseTagged(tag, Tlv(tag, content) + tail) == Ok((content, tail))
  {
    var data := Tlv(tag, content) + tail;
    assert data[1..] == LengthOctets(|content|) + (content + tail);
    LengthRoundTrip(|content|, content + tail);
    assert (content + tail)[..|content|] == content;
    assert (content + tail)[|content|..] == tail;
  }

  lemma TlvLength(tag: Byte, content: Bytes)
    requires |content| <= MAX_INT
    ensures |content| < |Tlv(tag, content)| <= |content| + 10
  {
    if |content| >= 128 {
      MachineIntOctets(|content|);
    }
  }

  // ---------------------------------------------------------------- encoding/asn1

  /** encoding/asn1 refuses lengths of 2^31 and more, leading zeros and needless long forms. */
  const ASN1_LIMIT: nat := 0x8000_0000

  /** The length octets read one by one; None when a check fails on the way. */
  function StrictAccumulate(octets: Bytes): (r: Option<nat>)
    ensures r.Some? ==> r.value < ASN1_LIMIT
  {
    if octets == [] then Some(0)
    else
      var before := StrictAccumulate(octets[..|octets| - 1]);
      if before.None? || before.value >= 0x80_0000 then None
      else
        var l := before.value * 256 + octets[|octets| - 1];
        if l == 0 then None else Some(l)
  }

  function StrictLength(data: Bytes): (r: Option<(nat, Bytes)>)
    ensures r.Some? ==> |r.value.1| < |data|
  {
    if |data| == 0 then None
    else if data[0] < 128 then Some((data[0], data[1..]))
    else
      var numBytes := data[0] % 128;
      if numBytes == 0 || |data| < 1 + numBytes then None
      else
        var l := StrictAccumulate(data[1..1 + numBytes]);
        if l.None? || l.value < 128 then None else Some((l.value, data[1 + numBytes..]))
  }

  datatype Element = Element(tag: Byte, content: Bytes)

  /** An identifier octet and a length that encoding/asn1 accepts, whatever follows. */
  predicate HeaderReads(data: Bytes) {
    |data| > 0 && data[0] % 32 != 31 && StrictLength(data[1..]).Some?
  }

  /** One element with a single-byte identifier, and the bytes after it. */
  function ReadElement(data: Bytes): (r: Option<(Element, Bytes)>)
    ensures r.Some? ==> |r.value.0.content| + |r.value.1| < |data|
  {
    if |data| == 0 || data[0] % 32 == 31 then None
    else
      var length := StrictLength(data[1..]);
      if length.None? then None
      else
        var (l, rest) := length.value;
        if |rest| < l then None else Some((Element(data[0], rest[..l]), rest[l..]))
  }

  lemma {:induction false} StrictBigEndian(v: nat)
    requires v < ASN1_LIMIT
    ensures StrictAccumulate(BigEndian(v)) == Some(v)
  {
    if v > 0 {
      var b := BigEndian(v);
      assert b[..|b| - 1] == BigEndian(v / 256);
      StrictBigEndian(v / 256);
    }
  }

  lemma StrictLengthRoundTrip(l: nat, tail: Bytes)
    requires l < ASN1_LIMIT
    ensures StrictLength(LengthOctets(l) + tail) == Some((l, tail))
  {
    if l < 128 {
      assert ([l] + tail)[1..] == tail;
    } else {
      MachineIntOctets(l);
      StrictBigEndian(l);
      StrictLongForm(128 + |BigEndian(l)|, BigEndian(l), tail);
    }
  }

  /** What Tlv writes, encoding/asn1 reads, as long as the content is below its limit. */
  lemma ElementRoundTrip(tag: Byte, content: Bytes, tail: Bytes)
    requires |content| < ASN1_LIMIT && tag % 32 != 31
    ensures ReadElement(Tlv(tag, content) + tail) == Some((Element(tag, content), tail))
  {
    var data := Tlv(tag, content) + tail;
    assert data[1..] == LengthOctets(|content|) + (content + tail);
    StrictLengthRoundTrip(|content|, content + tail);
    assert (content + tail)[..|content|] == content;
    assert (content + tail)[|content|..] == tail;
  }

  lemma {:induction false} StrictOctets(octets: Bytes)
    requires octets != [] && StrictAccumulate(octets).Some?
    ensures BigEndian(StrictAccumulate(octets).value) == octets
  {
    var front, last := octets[..|octets| - 1], octets[|octets| - 1];
    var v := StrictAccumulate(octets).value;
    assert octets == front + [last];
    if front == [] {
      assert BigEndian(v) == BigEndian(0) + [last];
    } else {
      StrictOctets(front);
      assert v / 256 == StrictAccumulate(front).value && v % 256 == last;
    }
  }

  lemma StrictLengthCanonical(data: Bytes)
    requires StrictLength(data).Some?
    ensures StrictLength(data).value.0 < ASN1_LIMIT
    ensures data == LengthOctets(StrictLength(data).value.0) + StrictLength(data).value.1
  {
    hide StrictAccumulate, BigEndian;
    if data[0] < 128 {
      assert data == [data[0]] + data[1..];
    } else {
      var octets, rest := data[1..1 + data[0] % 128], data[1 + data[0] % 128..];
      StrictOctets(octets);
      assert data == [data[0]] + octets + rest;
      assert LengthOctets(StrictLength(data).value.0) == [data[0]] + octets;
    }
  }

  /** encoding/asn1 reads an element in no other form than the one that Tlv writes. */
  lemma ElementCanonical(data: Bytes)
    requires ReadElement(data).Some?
    ensures var (e, rest) := ReadElement(data).value;
            |e.content| < ASN1_LIMIT && e.tag % 32 != 31 && data == Tlv(e.tag, e.content) + rest
  {
    hide StrictLength, LengthOctets;
    StrictLengthCanonical(data[1..]);
    var (l, after) := StrictLength(data[1..]).value;
    assert data == [data[0]] + data[1..] && after == after[..l] + after[l..];
  }

  lemma {:induction false} StrictNotLarge(v: nat)
    ensures StrictAccumulate(BigEndian(v)).Some? ==> StrictAccumulate(BigEndian(v)).value == v
  {
    if v > 0 {
      var b := BigEndian(v);
      assert b[..|b| - 1] == BigEndian(v / 256);
      StrictNotLarge(v / 256);
    }
  }

  lemma StrictLengthTooLong(l: nat, tail: Bytes)
    requires ASN1_LIMIT <= l <= MAX_INT
    ensures StrictLength(LengthOctets(l) + tail).None?
  {
    hide BigEndian, StrictAccumulate;
    var octets := BigEndian(l);
    MachineIntOctets(l);
    StrictNotLarge(l);
    LongFormParts(128 + |octets|, octets, tail);
  }

  /** And content at or above the limit it refuses. */
  lemma ElementTooLong(tag: Byte, content: Bytes, tail: Bytes)
    requires ASN1_LIMIT <= |content| <= MAX_INT
    ensures ReadElement(Tlv(tag, content) + tail).None?
  {
    hide StrictLength, LengthOctets;
    StrictLengthTooLong(|content|, content + tail);
    assert (Tlv(tag, content) + tail)[1..] == LengthOctets(|content|) + (content + tail);
  }

  const TAG_BOOLEAN: Byte := 0x01
  const TAG_INTEGER: Byte := 0x02
  const TAG_OCTET_STRING: Byte := 0x04
  const TAG_OBJECT_ID: Byte := 0x06

  const MAX_INT32: nat := 0x7FFF_FFFF

  /** One base-128 arc of an object identifier: minimal, at most five octets, a 31-bit value.
      The bytes after it. */
  function ReadArc(b: Bytes, value: nat, count: nat): (r: Option<Bytes>)
    ensures r.Some? ==> |r.value| < |b|
  {
    if b == [] || count == 5 || (count == 0 && b[0] == 0x80) then None
    else
      var v := value * 128 + b[0] % 128;
      if b[0] < 128 then if v > MAX_INT32 then None else Some(b[1..])
      else ReadArc(b[1..], v, count + 1)
  }

  predicate ArcsValid(b: Bytes)
    decreases |b|
  {
    b == [] || (ReadArc(b, 0, 0).Some? && ArcsValid(ReadArc(b, 0, 0).value))
  }

  /** The content octets of an object identifier that encoding/asn1 accepts. */
  predicate OidValid(b: Bytes) {
    b != [] && ArcsValid(b)
  }

  /** Octets below 128 are arcs of their own. */
  lemma {:induction false} SmallArcs(b: Bytes)
    requires forall i :: 0 <= i < |b| ==> b[i] < 128
    ensures ArcsValid(b)
  {
    if b != [] {
      assert ReadArc(b, 0, 0) == Some(b[1..]);
      SmallArcs(b[1..]);
    }
  }

  /** An INTEGER as encoding/asn1 reads it into an int64: minimal two's complement. */
  function ReadInteger(octets: Bytes): (r: Option<int>)
    ensures r.Some? ==> |octets| > 0
    ensures r.Some? ==> (r.value < 0 <==> octets[0] >= 128)
  {
    MagnitudeBound(octets);
    if |octets| == 0 || |octets| > 8 then None
    else if |octets| > 1 && ((octets[0] == 0 && octets[1] < 128) || (octets[0] == 255 && octets[1] >= 128)) then None
    else
      var m: int := Magnitude(octets);
      Some(if octets[0] >= 128 then m - Pow256(|octets|) else m)
  }

  /** And as it writes a natural one. */
  function IntegerOctets(n: nat): (r: Bytes)
    ensures |r| > 0
  {
    if n == 0 then [0] else if BigEndian(n)[0] >= 128 then [0] + BigEndian(n) else BigEndian(n)
  }

  lemma {:induction false} MagnitudeBigEndian(n: nat)
    ensures Magnitude(BigEndian(n)) == n
    ensures n > 0 ==> BigEndian(n)[0] != 0
  {
    if n > 0 {
      var b := BigEndian(n);
      assert b[..|b| - 1] == BigEndian(n / 256);
      MagnitudeBigEndian(n / 256);
    }
  }

  /** A machine integer survives its INTEGER form. */
  lemma IntegerRoundTrip(n: nat)
    requires n <= MAX_INT
    ensures ReadInteger(IntegerOctets(n)) == Some(n)
    ensures |IntegerOctets(n)| <= 8
  {
    hide BigEndian, Magnitude;
    if n == 0 {
      OneOctet(0);
    } else {
      var b := BigEndian(n);
      MagnitudeBigEndian(n);
      MachineIntOctets(n);
      assert [b[0]] + b[1..] == b;
      MagnitudeConcat([b[0]], b[1..]);
      OneOctet(b[0]);
      MagnitudeConcat([0], b);
      OneOctet(0);
      SevenAndEight();
    }
  }

  /** The elements of a constructed value, in order. */
  function ReadElements(data: Bytes): Option<seq<Element>>
    decreases |data|
  {
    if |data| == 0 then Some([])
    else
      var first := ReadElement(data);
      if first.None? then None
      else
        var rest := ReadElements(first.value.1);
        if rest.None? then None else Some([first.value.0] + rest.value)
  }

  function WriteElements(elements: seq<Element>): Bytes
    requires forall i :: 0 <= i < |elements| ==> |elements[i].content| <= MAX_INT
  {
    if elements == [] then []
    else Tlv(elements[0].tag, elements[0].content) + WriteElements(elements[1..])
  }

  lemma {:induction false} ElementsRoundTrip(elements: seq<Element>)
    requires forall i :: 0 <= i < |elements| ==> |elements[i].content| < ASN1_LIMIT && elements[i].tag % 32 != 31
    ensures ReadElements(WriteElements(elements)) == Some(elements)
  {
    if elements != [] {
      ElementRoundTrip(elements[0].tag, elements[0].content, WriteElements(elements[1..]));
      ElementsRoundTrip(elements[1..]);
      assert [elements[0]] + elements[1..] == elements;
    }
  }
}
