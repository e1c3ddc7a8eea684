/** The RDNSequence codec (name.go:39-222). */
module Rdn {
  import opened Prelude
  import opened Names
  import opened Der
  import opened DirectoryStrings

  /** The last arc of the attribute's object identifier 2.5.4.x. */
  function LastArc(a: Attribute): Byte {
    match a
    case CN => 3
    case C => 6
    case L => 7
    case ST => 8
    case O => 10
    case OU => 11
  }

  /** Content octets of the OID 2.5.4.x. */
  function OidContent(a: Attribute): Bytes {
    [0x55, 0x04, LastArc(a)]
  }

  function AttributeOf(oid: Bytes): Option<Attribute> {
    if oid == OidContent(C) then Some(C)
    else if oid == OidContent(ST) then Some(ST)
    else if oid == OidContent(L) then Some(L)
    else if oid == OidContent(O) then Some(O)
    else if oid == OidContent(OU) then Some(OU)
    else if oid == OidContent(CN) then Some(CN)
    else None
  }

  lemma AttributeOidRoundTrip(a: Attribute)
    ensures AttributeOf(OidContent(a)) == Some(a) && OidValid(OidContent(a))
  {
    SmallArcs(OidContent(a));
  }

  // ---------------------------------------------------------------- writing

  function StringTag(v: Bytes): Byte {
    if IsPrintableString(v) then TAG_PRINTABLE_STRING else TAG_UTF8_STRING
  }

  /** marshalDirectoryString: writing cannot fail, re-reading can. */
  function DirectoryString(v: Bytes): Result<Bytes> {
    if |v| > MAX_INT then Err(Other)
    else
      var der := Tlv(StringTag(v), v);
      if ReadElement(der).None? then Err(Other) else Ok(der)
  }

  lemma DirectoryStringShort(v: Bytes)
    requires DirectoryString(v).Ok?
    ensures |v| < ASN1_LIMIT
  {
    var der := Tlv(StringTag(v), v);
    assert der + [] == der;
    if |v| >= ASN1_LIMIT {
      ElementTooLong(StringTag(v), v, []);
    }
  }

  function AttributeContent(p: Pair): Result<Bytes> {
    var s := DirectoryString(p.value);
    if s.Err? then s else Ok(Tlv(TAG_OBJECT_ID, OidContent(p.attribute)) + s.value)
  }

  predicate FitsInt(b: Bytes) {
    |b| <= MAX_INT
  }

  /** One RDN: SET { SEQUENCE { OID, string } }. Slices longer than an int cannot exist. */
  function RdnOf(p: Pair): Result<Bytes> {
    var content := AttributeContent(p);
    if content.Err? then content
    else if !FitsInt(content.value) || !FitsInt(Tlv(SEQUENCE, content.value)) then Err(Other)
    else Ok(Tlv(SET, Tlv(SEQUENCE, content.value)))
  }

  function RdnsOf(pairs: seq<Pair>): Result<Bytes> {
    if pairs == [] then Ok([])
    else
      var before := RdnsOf(pairs[..|pairs| - 1]);
      if before.Err? then before
      else
        var last := RdnOf(pairs[|pairs| - 1]);
        if last.Err? then last else Ok(before.value + last.value)
  }

  function RdnSequence(n: Name): Result<Bytes> {
    var content := RdnsOf(DerOrder(n));
    if content.Err? then content
    else if !FitsInt(content.value) then Err(Other)
    else Ok(Tlv(SEQUENCE, content.value))
  }

  lemma {:induction false} RdnsOfPrefix(pairs: seq<Pair>, k: nat)
    requires k <= |pairs| && RdnsOf(pairs[..k]).Err?
    ensures RdnsOf(pairs) == RdnsOf(pairs[..k])
  {
    if k == |pairs| {
      assert pairs[..k] == pairs;
    } else {
      assert pairs[..|pairs| - 1][..k] == pairs[..k];
      RdnsOfPrefix(pairs[..|pairs| - 1], k);
    }
  }

  lemma RdnsOfSnoc(pairs: seq<Pair>, p: Pair)
    requires RdnsOf(pairs).Ok?
    ensures RdnsOf(pairs + [p]) == if RdnOf(p).Err? then RdnOf(p) else Ok(RdnsOf(pairs).value + RdnOf(p).value)
  {
    assert (pairs + [p])[..|pairs|] == pairs;
  }

  lemma PrefixOfConcat(a: seq<Pair>, b: seq<Pair>, i: nat)
    requires i < |b|
    ensures (a + b)[..|a| + i + 1] == a + b[..i + 1] == a + b[..i] + [b[i]]
  {
    assert b[..i + 1] == b[..i] + [b[i]];
  }

  /** The closure `add`: appends one RDN for each value. */
  method Add(done: seq<Pair>, rdns: Bytes, a: Attribute, values: seq<Bytes>) returns (r: Result<Bytes>)
    requires RdnsOf(done) == Ok(rdns)
    ensures r == RdnsOf(done + Pairs(a, values))
  {
    hide RdnOf;
    var out := rdns;
    ghost var all := done + Pairs(a, values);
    assert done + Pairs(a, values)[..0] == done;
    for i := 0 to |values|
      invariant RdnsOf(done + Pairs(a, values)[..i]) == Ok(out)
    {
      PrefixOfConcat(done, Pairs(a, values), i);
      RdnsOfSnoc(done + Pairs(a, values)[..i], Pair(a, values[i]));
      var rdn := RdnOf(Pair(a, values[i]));
      if rdn.Err? {
        RdnsOfPrefix(all, |done| + i + 1);
        return rdn;
      }
      out := out + rdn.value;
    }
    assert Pairs(a, values)[..|values|] == Pairs(a, values);
    return Ok(out);
  }

  function PartPairs(parts: seq<(Attribute, seq<Bytes>)>): seq<Pair> {
    if parts == [] then []
    else PartPairs(parts[..|parts| - 1]) + Pairs(parts[|parts| - 1].0, parts[|parts| - 1].1)
  }

  lemma {:induction false} PartPairsPrefix(parts: seq<(Attribute, seq<Bytes>)>, k: nat)
    requires k <= |parts|
    ensures PartPairs(parts[..k]) <= PartPairs(parts)
  {
    if k == |parts| {
      assert parts[..k] == parts;
    } else {
      assert parts[..|parts| - 1][..k] == parts[..k];
      PartPairsPrefix(parts[..|parts| - 1], k);
    }
  }

  lemma FivePartsInDerOrder(n: Name)
    ensures PartPairs([(C, n.country), (ST, n.province), (L, n.locality), (O, n.organization),
                       (OU, n.organizationalUnit)])
            == Pairs(C, n.country) + Pairs(ST, n.province) + Pairs(L, n.locality)
               + Pairs(O, n.organization) + Pairs(OU, n.organizationalUnit)
  {
    var p := [(C, n.country), (ST, n.province), (L, n.locality), (O, n.organization), (OU, n.organizationalUnit)];
    assert p[..5] == p;
    forall k | 0 <= k < 5 ensures PartPairs(p[..k + 1]) == PartPairs(p[..k]) + Pairs(p[k].0, p[k].1) {
      assert p[..k + 1][..k] == p[..k];
    }
    assert PartPairs(p[..0 + 1]) == Pairs(C, n.country);
    assert PartPairs(p[..1 + 1]) == PartPairs(p[..1]) + Pairs(ST, n.province);
    assert PartPairs(p[..2 + 1]) == PartPairs(p[..2]) + Pairs(L, n.locality);
    assert PartPairs(p[..3 + 1]) == PartPairs(p[..3]) + Pairs(O, n.organization);
    assert PartPairs(p[..4 + 1]) == PartPairs(p[..4]) + Pairs(OU, n.organizationalUnit);
  }

  method ToRDNSequence(n: Name) returns (r: Result<Bytes>)
    ensures r == RdnSequence(n)
  {
    hide RdnOf, Tlv;
    var rdns: Bytes := [];
    var parts := [(C, n.country), (ST, n.province), (L, n.locality), (O, n.organization), (OU, n.organizationalUnit)];
    FivePartsInDerOrder(n);
    ghost var all := DerOrder(n);
    assert all == PartPairs(parts) + CommonNamePair(n);
    for i := 0 to |parts|
      invariant RdnsOf(PartPairs(parts[..i])) == Ok(rdns)
    {
      assert parts[..i + 1][..i] == parts[..i];
      var added := Add(PartPairs(parts[..i]), rdns, parts[i].0, parts[i].1);
      if added.Err? {
        PartPairsPrefix(parts, i + 1);
        assert all[..|PartPairs(parts[..i + 1])|] == PartPairs(parts[..i + 1]);
        RdnsOfPrefix(all, |PartPairs(parts[..i + 1])|);
        return added;
      }
      rdns := added.value;
    }
    assert parts[..|parts|] == parts;
    if n.commonName != [] {
      var added := Add(PartPairs(parts), rdns, CN, [n.commonName]);
      assert Pairs(CN, [n.commonName]) == CommonNamePair(n);
      if added.Err? {
        return added;
      }
      rdns := added.value;
    } else {
      assert all == PartPairs(parts);
    }
    if |rdns| > MAX_INT {
      return Err(Other);
    }
    var der := MarshalTagged(SEQUENCE, rdns);
    return Ok(der);
  }

  // ---------------------------------------------------------------- reading

  /** One AttributeTypeAndValue: an OID, then a string; anything after it is not looked at.
      None stands for an attribute type that is read and dropped. */
  function ReadAttribute(content: Bytes): Result<Option<Pair>> {
    var oid := ReadElement(content);
    if oid.None? || oid.value.0.tag != TAG_OBJECT_ID || !OidValid(oid.value.0.content) then Err(MalformedDER)
    else
      var value := ReadElement(oid.value.1);
      if value.None? then Err(MalformedDER)
      else
        var s := ParsedDirectoryString(value.value.0.tag % 32, value.value.0.content);
        if s.Err? then Err(s.error)
        else
          var a := AttributeOf(oid.value.0.content);
          Ok(if a.None? then None else Some(Pair(a.value, s.value)))
  }

  /** A returned error is wrapped; a panic is not returned. */
  function Wrapped(e: Error): Error {
    if e == Panic then Panic else MalformedDER
  }

  function ReadRdn(data: Bytes): (r: Result<(Option<Pair>, Bytes)>)
    ensures r.Ok? ==> |r.value.1| < |data|
  {
    var rdn := ParseTagged(SET, data);
    if rdn.Err? then Err(Wrapped(rdn.error))
    else
      var (content, rest) := rdn.value;
      var atv := ParseTagged(SEQUENCE, content);
      if atv.Err? then Err(Wrapped(atv.error))
      else if |atv.value.1| != 0 then Err(MalformedDER)
      else
        var p := ReadAttribute(atv.value.0);
        if p.Err? then Err(p.error) else Ok((p.value, rest))
  }

  function PutOption(n: Name, p: Option<Pair>): Name {
    if p.None? then n else Put(n, p.value)
  }

  function ReadRdns(inner: Bytes, n: Name): Result<Name>
    decreases |inner|
  {
    if |inner| == 0 then Ok(n)
    else
      var r := ReadRdn(inner);
      if r.Err? then Err(r.error) else ReadRdns(r.value.1, PutOption(n, r.value.0))
  }

  function ParsedName(der: Bytes): Result<Name> {
    var outer := ParseTagged(SEQUENCE, der);
    if outer.Err? then Err(Wrapped(outer.error))
    else if |outer.value.1| != 0 then Err(TrailingData)
    else ReadRdns(outer.value.0, EMPTY_NAME)
  }

  /** The body of the loop up to the switch: one RDN. */
  method ReadNextRdn(inner: Bytes) returns (r: Result<(Option<Pair>, Bytes)>)
    ensures r == ReadRdn(inner)
  {
    hide ReadElement, ParsedDirectoryString, OidValid;
    var rdn := ParseTagged(SET, inner);
    if rdn.Err? {
      return Err(Wrapped(rdn.error));
    }
    var atv := ParseTagged(SEQUENCE, rdn.value.0);
    if atv.Err? {
      return Err(Wrapped(atv.error));
    }
    if |atv.value.1| != 0 {
      return Err(MalformedDER);
    }
    var oid := ReadElement(atv.value.0);
    if oid.None? || oid.value.0.tag != TAG_OBJECT_ID || !OidValid(oid.value.0.content) {
      return Err(MalformedDER);
    }
    var value := ReadElement(oid.value.1);
    if value.None? {
      return Err(MalformedDER);
    }
    var s := ParseDirectoryString(value.value.0.tag % 32, value.value.0.content);
    if s.Err? {
      return Err(s.error);
    }
    var a := AttributeOf(oid.value.0.content);
    return Ok((if a.None? then None else Some(Pair(a.value, s.value)), rdn.value.1));
  }

  method ParseName(der: Bytes) returns (r: Result<Name>)
    ensures r == ParsedName(der)
  {
    hide ParseTagged, ReadRdn;
    var outer := ParseTagged(SEQUENCE, der);
    if outer.Err? {
      return Err(Wrapped(outer.error));
    }
    var (inner, rest) := outer.value;
    if |rest| != 0 {
      return Err(TrailingData);
    }
    var n := EMPTY_NAME;
    while |inner| > 0
      invariant ReadRdns(inner, n) == ParsedName(der)
      decreases |inner|
    {
      var rdn := ReadNextRdn(inner);
      if rdn.Err? {
        return Err(rdn.error);
      }
      n := PutOption(n, rdn.value.0);
      inner := rdn.value.1;
    }
    return Ok(n);
  }

  // ---------------------------------------------------------------- names that panic

  /** What is left after k RDNs have been read. */
  function Skip(inner: Bytes, k: nat): Option<Bytes> {
    if k == 0 then Some(inner)
    else if |inner| == 0 || ReadRdn(inner).Err? then None
    else Skip(ReadRdn(inner).value.1, k - 1)
  }

  /** The SET, or the SEQUENCE inside it, has a length that overflows. */
  predicate RdnOverflows(inner: Bytes) {
    || TagOverflows(SET, inner)
    || (ParseTagged(SET, inner).Ok? && TagOverflows(SEQUENCE, ParseTagged(SET, inner).value.0))
  }

  predicate OverflowsAfter(inner: Bytes, k: nat) {
    Skip(inner, k).Some? && RdnOverflows(Skip(inner, k).value)
  }

  lemma AttributeNeverPanics(content: Bytes)
    ensures ReadAttribute(content) != Err(Panic)
  {
    hide ReadElement, OidValid, AttributeOf;
  }

  lemma RdnPanicsExactly(inner: Bytes)
    ensures ReadRdn(inner) == Err(Panic) <==> RdnOverflows(inner)
  {
    hide ParseTagged, TagOverflows, ReadAttribute;
    TaggedPanicsExactly(SET, inner);
    if ParseTagged(SET, inner).Ok? {
      var content := ParseTagged(SET, inner).value.0;
      TaggedPanicsExactly(SEQUENCE, content);
      if ParseTagged(SEQUENCE, content).Ok? {
        AttributeNeverPanics(ParseTagged(SEQUENCE, content).value.0);
      }
    }
  }

  lemma {:induction false} RdnsPanicExactly(inner: Bytes, n: Name)
    ensures ReadRdns(inner, n) == Err(Panic) <==> exists k: nat :: OverflowsAfter(inner, k)
    decreases |inner|
  {
    hide ReadRdn, RdnOverflows, PutOption;
    RdnPanicsExactly(inner);
    if |inner| > 0 && ReadRdn(inner).Ok? {
      var rest := ReadRdn(inner).value.1;
      RdnsPanicExactly(rest, PutOption(n, ReadRdn(inner).value.0));
      if k: nat :| OverflowsAfter(rest, k) {
        assert OverflowsAfter(inner, k + 1);
      }
      if k: nat :| OverflowsAfter(inner, k) {
        assert k > 0 && OverflowsAfter(rest, k - 1);
      }
    } else {
      assert forall k: nat :: k > 0 ==> Skip(inner, k).None?;
      assert OverflowsAfter(inner, 0) <==> RdnOverflows(inner);
      EmptyDoesNotOverflow();
    }
  }

  lemma EmptyDoesNotOverflow()
    ensures !RdnOverflows([])
  {
  }

  /** ParseName panics exactly when its own SEQUENCE, or the SET or SEQUENCE of the first RDN that
      does not read, has a length of at least eight octets with the eighth from the end at or
      above 128. */
  lemma NamePanicsExactly(der: Bytes)
    ensures ParsedName(der) == Err(Panic) <==>
            || TagOverflows(SEQUENCE, der)
            || (var outer := ParseTagged(SEQUENCE, der);
                outer.Ok? && |outer.value.1| == 0 && exists k: nat :: OverflowsAfter(outer.value.0, k))
  {
    hide ParseTagged, TagOverflows, ReadRdns, OverflowsAfter;
    TaggedPanicsExactly(SEQUENCE, der);
    var outer := ParseTagged(SEQUENCE, der);
    if outer.Ok? {
      RdnsPanicExactly(outer.value.0, EMPTY_NAME);
    }
  }

  /** Such a name is a well-formed element to encoding/asn1, which does not look inside. */
  lemma NamePanicExample()
    ensures var der := [0x30, 0x0A, 0x31, 0x88, 0x80, 0, 0, 0, 0, 0, 0, 0];
            ReadElement(der).Some? && ReadElement(der).value.1 == [] && ParsedName(der) == Err(Panic)
  {
    var der: Bytes := [0x30, 0x0A, 0x31, 0x88, 0x80, 0, 0, 0, 0, 0, 0, 0];
    var inner: Bytes := [0x31, 0x88, 0x80, 0, 0, 0, 0, 0, 0, 0];
    assert der[1..][0] == 0x0A && der[1..][1..] == inner && inner[..10] == inner && inner[10..] == [];
    assert inner[1..][0] == 0x88 && inner[1..][1..9] == [0x80, 0, 0, 0, 0, 0, 0, 0];
    RdnPanicsExactly(inner);
    assert TagOverflows(SET, inner);
  }

  // ---------------------------------------------------------------- round trip

  lemma ReadAttributeParts(content: Bytes, oid: Element, rest: Bytes, value: Element, end: Bytes)
    requires ReadElement(content) == Some((oid, rest)) && ReadElement(rest) == Some((value, end))
    requires oid.tag == TAG_OBJECT_ID && OidValid(oid.content) && AttributeOf(oid.content).Some?
    requires value.tag == TAG_PRINTABLE_STRING || value.tag == TAG_UTF8_STRING
    ensures ReadAttribute(content) == Ok(Some(Pair(AttributeOf(oid.content).value, value.content)))
  {
    hide ReadElement, AttributeOf, OidValid, DecodedBMPString, DecodedUniversalString;
  }

  lemma AttributeRoundTrip(p: Pair)
    requires AttributeContent(p).Ok?
    ensures ReadAttribute(AttributeContent(p).value) == Ok(Some(p))
  {
    DirectoryStringShort(p.value);
    var s := DirectoryString(p.value).value;
    ElementRoundTrip(TAG_OBJECT_ID, OidContent(p.attribute), s);
    ElementRoundTrip(StringTag(p.value), p.value, []);
    assert s + [] == s;
    AttributeOidRoundTrip(p.attribute);
    ReadAttributeParts(AttributeContent(p).value, Element(TAG_OBJECT_ID, OidContent(p.attribute)), s,
                       Element(StringTag(p.value), p.value), []);
  }

  lemma RdnRoundTrip(p: Pair, tail: Bytes)
    requires RdnOf(p).Ok?
    ensures ReadRdn(RdnOf(p).value + tail) == Ok((Some(p), tail))
  {
    var content := AttributeContent(p).value;
    var atv := Tlv(SEQUENCE, content);
    TlvRoundTrip(SET, atv, tail);
    TlvRoundTrip(SEQUENCE, content, []);
    assert atv + [] == atv;
    AttributeRoundTrip(p);
  }

  lemma {:induction false} RdnsRoundTrip(pairs: seq<Pair>, tail: Bytes, n: Name)
    requires RdnsOf(pairs).Ok?
    ensures ReadRdns(RdnsOf(pairs).value + tail, n) == ReadRdns(tail, PutAll(n, pairs))
    decreases |pairs|
  {
    hide RdnOf, ReadRdn, ReadRdns, Put;
    if pairs == [] {
      assert RdnsOf(pairs).value + tail == tail;
    } else {
      var front, last := pairs[..|pairs| - 1], pairs[|pairs| - 1];
      var frontDer, lastDer := RdnsOf(front).value, RdnOf(last).value;
      ConcatAssociates(frontDer, lastDer, tail);
      RdnsRoundTrip(front, lastDer + tail, n);
      RdnRoundTrip(last, tail);
      ReadRdnsStep(lastDer + tail, PutAll(n, front), last, tail);
      PutAllSnoc(n, front, last);
      assert pairs == front + [last];
    }
  }

  lemma ConcatAssociates(a: Bytes, b: Bytes, c: Bytes)
    ensures a + b + c == a + (b + c)
  {
  }

  lemma ReadRdnsStep(inner: Bytes, n: Name, p: Pair, rest: Bytes)
    requires ReadRdn(inner) == Ok((Some(p), rest))
    ensures ReadRdns(inner, n) == ReadRdns(rest, Put(n, p))
  {
    assert |inner| > 0;
  }

  lemma PutAllSnoc(n: Name, front: seq<Pair>, last: Pair)
    ensures PutAll(n, front + [last]) == Put(PutAll(n, front), last)
  {
    PutAllConcat(n, front, [last]);
    var m := PutAll(n, front);
    assert [last][1..] == [];
    assert PutAll(m, [last]) == PutAll(Put(m, last), []);
  }

  /** Whatever name can be written, in any lengths, reads back as the same name. */
  lemma NameRoundTrip(n: Name)
    requires RdnSequence(n).Ok?
    ensures ParsedName(RdnSequence(n).value) == Ok(n)
  {
    var pairs := DerOrder(n);
    var content := RdnsOf(pairs).value;
    TlvRoundTrip(SEQUENCE, content, []);
    assert Tlv(SEQUENCE, content) + [] == Tlv(SEQUENCE, content);
    RdnsRoundTrip(pairs, [], EMPTY_NAME);
    assert content + [] == content;
    DerOrderRebuilds(n);
  }

  lemma {:induction false} WriteErrors(pairs: seq<Pair>)
    ensures RdnsOf(pairs).Err? ==> RdnsOf(pairs) == Err(Other)
  {
    if pairs != [] {
      WriteErrors(pairs[..|pairs| - 1]);
    }
  }

  lemma WriteError(n: Name)
    ensures RdnSequence(n).Err? ==> RdnSequence(n) == Err(Other)
  {
    WriteErrors(DerOrder(n));
  }

  // ---------------------------------------------------------------- what else is read

  lemma AttributeErrors(content: Bytes)
    ensures ReadAttribute(content).Err? ==> ReadAttribute(content).error == MalformedDER
  {
    hide ReadElement, OidValid, AttributeOf, WellFormed, DecodeUnits, RunesValid, Utf8All;
  }

  lemma {:induction false} RdnErrors(inner: Bytes, n: Name)
    ensures ReadRdns(inner, n).Err? ==> ReadRdns(inner, n).error in {MalformedDER, Panic}
    decreases |inner|
  {
    hide ParseTagged, ReadAttribute, PutOption;
    if |inner| > 0 && ParseTagged(SET, inner).Ok? && ParseTagged(SEQUENCE, ParseTagged(SET, inner).value.0).Ok? {
      AttributeErrors(ParseTagged(SEQUENCE, ParseTagged(SET, inner).value.0).value.0);
    }
    if |inner| > 0 && ReadRdn(inner).Ok? {
      RdnErrors(ReadRdn(inner).value.1, PutOption(n, ReadRdn(inner).value.0));
    }
  }

  /** Bytes after a complete name have an error of their own; every other error that is returned is
      MalformedDER. */
  lemma NameErrors(der: Bytes)
    ensures ParsedName(der) == Err(TrailingData) <==>
              ParseTagged(0x30, der).Ok? && ParseTagged(0x30, der).value.1 != []
    ensures ParsedName(der).Err? ==> ParsedName(der).error in {MalformedDER, TrailingData, Panic}
  {
    hide ParseTagged, ReadRdns;
    if ParseTagged(SEQUENCE, der).Ok? {
      RdnErrors(ParseTagged(SEQUENCE, der).value.0, EMPTY_NAME);
    }
  }

  /** An attribute of a type other than the six is read and dropped, wherever it stands. */
  lemma OtherTypesDropped(oid: Bytes, v: Bytes, tail: Bytes, n: Name)
    requires OidValid(oid) && |oid| < 1000 && |v| < ASN1_LIMIT
    requires oid !in {[0x55, 0x04, 3], [0x55, 0x04, 6], [0x55, 0x04, 7], [0x55, 0x04, 8], [0x55, 0x04, 10],
                      [0x55, 0x04, 11]}
    ensures var content := Tlv(0x06, oid) + Tlv(0x0C, v);
            && |content| <= MAX_INT && |Tlv(0x30, content)| <= MAX_INT
            && ReadRdns(Tlv(0x31, Tlv(0x30, content)) + tail, n) == ReadRdns(tail, n)
  {
    hide ReadElement, Tlv, OidValid, ReadAttribute, ParseTagged;
    TlvLength(0x06, oid);
    TlvLength(0x0C, v);
    var s := Tlv(0x0C, v);
    var content := Tlv(0x06, oid) + s;
    TlvLength(0x30, content);
    TlvRoundTrip(SET, Tlv(0x30, content), tail);
    TlvRoundTrip(SEQUENCE, content, []);
    assert Tlv(0x30, content) + [] == Tlv(0x30, content) && s + [] == s;
    ElementRoundTrip(TAG_OBJECT_ID, oid, s);
    ElementRoundTrip(0x0C, v, []);
    OtherAttribute(content, Element(TAG_OBJECT_ID, oid), s, Element(0x0C, v));
  }

  lemma OtherAttribute(content: Bytes, oid: Element, rest: Bytes, value: Element)
    requires ReadElement(content) == Some((oid, rest)) && ReadElement(rest) == Some((value, []))
    requires oid.tag == TAG_OBJECT_ID && OidValid(oid.content) && value.tag == 0x0C
    requires oid.content !in {[0x55, 0x04, 3], [0x55, 0x04, 6], [0x55, 0x04, 7], [0x55, 0x04, 8], [0x55, 0x04, 10],
                              [0x55, 0x04, 11]}
    ensures ReadAttribute(content) == Ok(None)
  {
    hide ReadElement, OidValid;
  }

  /** A second attribute in one SET is refused. */
  lemma OneAttributeOnly(first: Bytes, second: Bytes, tail: Bytes, n: Name)
    requires |first| < ASN1_LIMIT && |second| < ASN1_LIMIT && second != []
    ensures var set_ := Tlv(0x30, first) + second;
            |set_| <= MAX_INT && ReadRdns(Tlv(0x31, set_) + tail, n) == Err(MalformedDER)
  {
    hide LengthOctets, ReadAttribute;
    TlvLength(0x30, first);
    TlvRoundTrip(SET, Tlv(0x30, first) + second, tail);
    TlvRoundTrip(SEQUENCE, first, second);
  }

  /** Of several common names the last one stays. */
  lemma LastCommonNameStays(n: Name, v: Bytes, w: Bytes)
    requires RdnOf(Pair(CN, v)).Ok? && RdnOf(Pair(CN, w)).Ok?
    ensures ReadRdns(RdnOf(Pair(CN, v)).value + RdnOf(Pair(CN, w)).value, n) == Ok(n.(commonName := w))
  {
    hide RdnOf, ReadRdn;
    var first, second := RdnOf(Pair(CN, v)).value, RdnOf(Pair(CN, w)).value;
    RdnRoundTrip(Pair(CN, v), second);
    RdnRoundTrip(Pair(CN, w), []);
    assert second + [] == second;
    ReadRdnsStep(first + second, n, Pair(CN, v), second);
    ReadRdnsStep(second, Put(n, Pair(CN, v)), Pair(CN, w), []);
  }

  // ---------------------------------------------------------------- the written octets

  /** The characters of a PrintableString. */
  predicate PrintableChar(c: char) {
    'A' <= c <= 'Z' || 'a' <= c <= 'z' || '0' <= c <= '9' || c in " '()+,-./:=?"
  }

  predicate Printable(v: Bytes) {
    forall i :: 0 <= i < |v| ==> PrintableChar(v[i] as char)
  }

  /** SET { SEQUENCE { OID 2.5.4.arc, PrintableString or else UTF8String } } */
  function AttributeOctets(arc: Byte, v: Bytes): Bytes
    requires |v| < ASN1_LIMIT
  {
    var s := Tlv(if Printable(v) then 0x13 else 0x0C, v);
    TlvLength(if Printable(v) then 0x13 else 0x0C, v);
    var content := [0x06, 0x03, 0x55, 0x04, arc] + s;
    TlvLength(0x30, content);
    Tlv(0x31, Tlv(0x30, content))
  }

  function FieldOctets(arc: Byte, values: seq<Bytes>): Bytes
    requires forall i :: 0 <= i < |values| ==> |values[i]| < ASN1_LIMIT
  {
    if values == [] then []
    else FieldOctets(arc, values[..|values| - 1]) + AttributeOctets(arc, values[|values| - 1])
  }

  lemma PrintableBytes(v: Bytes)
    ensures IsPrintableString(v) <==> Printable(v)
  {
    forall i | 0 <= i < |v|
      ensures IsPrintableByte(v[i]) <==> PrintableChar(v[i] as char)
    {
      PrintableByte(v[i]);
    }
  }

  lemma PrintableByte(c: Byte)
    ensures IsPrintableByte(c) <==> PrintableChar(c as char)
  {
  }

  lemma AttributeWritten(a: Attribute, arc: Byte, v: Bytes)
    requires RdnOf(Pair(a, v)).Ok? && |v| < ASN1_LIMIT
    requires arc == match a case C => 6 case ST => 8 case L => 7 case O => 10 case OU => 11 case CN => 3
    ensures RdnOf(Pair(a, v)).value == AttributeOctets(arc, v)
  {
    hide LengthOctets, OidContent;
    PrintableBytes(v);
    OidWritten(a, arc);
  }

  lemma OidWritten(a: Attribute, arc: Byte)
    requires arc == match a case C => 6 case ST => 8 case L => 7 case O => 10 case OU => 11 case CN => 3
    ensures Tlv(TAG_OBJECT_ID, OidContent(a)) == [0x06, 0x03, 0x55, 0x04, arc]
  {
    assert Tlv(TAG_OBJECT_ID, OidContent(a)) == [0x06] + ([0x03] + [0x55, 0x04, arc]);
  }

  lemma {:induction false} FieldWritten(a: Attribute, arc: Byte, values: seq<Bytes>)
    requires ShortValues(Pairs(a, values)) && RdnsOf(Pairs(a, values)).Ok?
    requires arc == match a case C => 6 case ST => 8 case L => 7 case O => 10 case OU => 11 case CN => 3
    ensures forall i :: 0 <= i < |values| ==> |values[i]| < ASN1_LIMIT
    ensures RdnsOf(Pairs(a, values)).value == FieldOctets(arc, values)
  {
    hide RdnOf, AttributeOctets;
    var pairs := Pairs(a, values);
    forall i | 0 <= i < |values| ensures |values[i]| < ASN1_LIMIT {
      assert |pairs[i].value| < ASN1_LIMIT;
    }
    if values != [] {
      var front := values[..|values| - 1];
      assert pairs[..|pairs| - 1] == Pairs(a, front);
      FieldWritten(a, arc, front);
      AttributeWritten(a, arc, values[|values| - 1]);
    }
  }

  lemma {:induction false} RdnsOfConcat(p: seq<Pair>, q: seq<Pair>)
    ensures RdnsOf(p + q).Ok? <==> RdnsOf(p).Ok? && RdnsOf(q).Ok?
    ensures RdnsOf(p + q).Ok? ==> RdnsOf(p + q).value == RdnsOf(p).value + RdnsOf(q).value
  {
    hide RdnOf;
    if q == [] {
      assert p + q == p;
    } else {
      var front, last := q[..|q| - 1], q[|q| - 1];
      assert (p + q)[..|p + q| - 1] == p + front;
      RdnsOfConcat(p, front);
    }
  }

  function AllValues(n: Name): seq<Bytes> {
    n.country + n.province + n.locality + n.organization + n.organizationalUnit + [n.commonName]
  }

  /** A written name, octet by octet: C, ST, L, O, OU, then CN, each with its object identifier. */
  lemma NameOctets(n: Name)
    requires RdnSequence(n).Ok?
    ensures ShortValues(DerOrder(n))
    ensures forall v :: v in AllValues(n) ==> |v| < ASN1_LIMIT
    ensures var content := FieldOctets(6, n.country) + FieldOctets(8, n.province) + FieldOctets(7, n.locality)
                           + FieldOctets(10, n.organization) + FieldOctets(11, n.organizationalUnit)
                           + FieldOctets(3, if n.commonName == [] then [] else [n.commonName]);
            |content| <= MAX_INT && RdnSequence(n).value == Tlv(0x30, content)
  {
    hide RdnsOf, FieldOctets;
    RdnsWritable(DerOrder(n));
    var c, st, l, o, ou, cn := Pairs(C, n.country), Pairs(ST, n.province), Pairs(L, n.locality),
                               Pairs(O, n.organization), Pairs(OU, n.organizationalUnit), CommonNamePair(n);
    RdnsOfConcat(c + st + l + o + ou, cn);
    RdnsOfConcat(c + st + l + o, ou);
    RdnsOfConcat(c + st + l, o);
    RdnsOfConcat(c + st, l);
    RdnsOfConcat(c, st);
    RdnsWritable(c);
    RdnsWritable(st);
    RdnsWritable(l);
    RdnsWritable(o);
    RdnsWritable(ou);
    RdnsWritable(cn);
    FieldWritten(C, 6, n.country);
    FieldWritten(ST, 8, n.province);
    FieldWritten(L, 7, n.locality);
    FieldWritten(O, 10, n.organization);
    FieldWritten(OU, 11, n.organizationalUnit);
    var names := if n.commonName == [] then [] else [n.commonName];
    assert cn == Pairs(CN, names);
    FieldWritten(CN, 3, names);
  }

  /** Writing is injective: different names have different encodings. */
  lemma NameEncodingInjective(m: Name, n: Name)
    requires RdnSequence(m).Ok? && RdnSequence(m) == RdnSequence(n)
    ensures m == n
  {
    NameRoundTrip(m);
    NameRoundTrip(n);
  }

  predicate ShortValues(pairs: seq<Pair>) {
    forall i :: 0 <= i < |pairs| ==> |pairs[i].value| < ASN1_LIMIT
  }

  /** A list of pairs can be written exactly when every value is below the limit of encoding/asn1. */
  lemma {:induction false} RdnsWritable(pairs: seq<Pair>)
    ensures RdnsOf(pairs).Ok? <==> ShortValues(pairs)
  {
    hide RdnOf;
    if pairs != [] {
      var front, last := pairs[..|pairs| - 1], pairs[|pairs| - 1];
      RdnsWritable(front);
      RdnWritable(last);
      assert ShortValues(pairs) <==> ShortValues(front) && |last.value| < ASN1_LIMIT by {
        assert pairs == front + [last];
      }
    }
  }

  lemma RdnWritable(p: Pair)
    ensures RdnOf(p).Ok? <==> |p.value| < ASN1_LIMIT
  {
    if |p.value| < ASN1_LIMIT {
      ElementRoundTrip(StringTag(p.value), p.value, []);
      var s := Tlv(StringTag(p.value), p.value);
      assert s + [] == s;
      TlvLength(StringTag(p.value), p.value);
      var content := Tlv(TAG_OBJECT_ID, OidContent(p.attribute)) + s;
      TlvLength(TAG_OBJECT_ID, OidContent(p.attribute));
      TlvLength(SEQUENCE, content);
    } else if RdnOf(p).Ok? {
      DirectoryStringShort(p.value);
    }
  }
}
