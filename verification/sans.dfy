/** The subjectAltName codec (extensions.go:305-375). */
module SubjectAltNames {
  import opened Prelude
  import opened Der
  import opened X509

  const TAG_EMAIL := 1
  const TAG_DNS := 2
  const TAG_IP := 7

  /** The identifier octet of a primitive context-specific element. */
  function ContextTag(tag: int): Byte
    requires 0 <= tag < 31
  {
    0x80 + tag
  }

  /** net.IP.To4: the 4-byte form of an IPv4 or IPv4-mapped address. */
  function To4(ip: Bytes): Option<Bytes> {

    if |ip| == 4 then Some(ip)
    else if |ip| == 16 && (forall i :: 0 <= i < 10 ==> ip[i] == 0) && ip[10] == 0xFF && ip[11] == 0xFF
    then Some(ip[12..])
    else None
  }

  function Shortened(ip: Bytes): Bytes {
    if To4(ip).Some? then To4(ip).value else ip
  }

  function Tagged(tag: int, values: seq<Bytes>): (r: seq<Element>)
    requires 0 <= tag < 31
    ensures |r| == |values|
    ensures forall i :: 0 <= i < |values| ==> r[i] == Element(ContextTag(tag), values[i])
  {
    seq(|values|, i requires 0 <= i < |values| => Element(ContextTag(tag), values[i]))
  }

  function ShortenedAll(ips: seq<Bytes>): (r: seq<Bytes>)
    ensures |r| == |ips|
    ensures forall i :: 0 <= i < |ips| ==> r[i] == Shortened(ips[i])
  {
    seq(|ips|, i requires 0 <= i < |ips| => Shortened(ips[i]))
  }

  /** The same names with every IPv4-mapped address in its 4-byte form. */
  function Normalized(s: SANs): SANs {
    s.(ipAddresses := ShortenedAll(s.ipAddresses))
  }

  /** DNS names, then e-mail addresses, then IP addresses. */
  function GeneralNames(s: SANs): seq<Element> {
    Tagged(TAG_DNS, s.dnsNames) + Tagged(TAG_EMAIL, s.emailAddresses) + Tagged(TAG_IP, ShortenedAll(s.ipAddresses))
  }

  predicate Sliced(elements: seq<Element>) {
    && (forall i :: 0 <= i < |elements| ==> |elements[i].content| <= MAX_INT)
    && |WriteElements(elements)| <= MAX_INT
  }

  function MarshalledSANs(s: SANs): Result<Bytes> {
    var names := GeneralNames(s);
    if |names| == 0 || !Sliced(names) then Err(Other)
    else Ok(Tlv(SEQUENCE, WriteElements(names)))
  }

  /** The written names: dNSName, rfc822Name, then iPAddress, in the order of the lists. */
  predicate NamesOf(names: seq<Element>, s: SANs) {
    var d, e, a := |s.dnsNames|, |s.emailAddresses|, |s.ipAddresses|;
    && |names| == d + e + a
    && (forall i :: 0 <= i < d ==> names[i] == Element(0x82, s.dnsNames[i]))
    && (forall i :: 0 <= i < e ==> names[d + i] == Element(0x81, s.emailAddresses[i]))
    && (forall i :: 0 <= i < a ==>
          names[d + e + i].tag == 0x87 && var ip := s.ipAddresses[i];
          names[d + e + i].content
          == if |ip| == 16 && ip[..12] == [0, 0, 0, 0, 0, 0, 0, 0, 0, 0, 0xFF, 0xFF] then ip[12..] else ip)
  }

  /** The 4-byte form of an address, octet by octet. */
  lemma To4Octets(ip: Bytes)
    ensures |ip| == 4 ==> To4(ip) == Some(ip)
    ensures |ip| == 16 && ip[..12] == [0, 0, 0, 0, 0, 0, 0, 0, 0, 0, 0xFF, 0xFF] ==>
              To4(ip) == Some([ip[12], ip[13], ip[14], ip[15]])
    ensures |ip| == 16 && ip[..12] != [0, 0, 0, 0, 0, 0, 0, 0, 0, 0, 0xFF, 0xFF] ==> To4(ip) == None
    ensures |ip| != 4 && |ip| != 16 ==> To4(ip) == None
  {
    if |ip| == 16 {
      var zeros: Bytes := [0, 0, 0, 0, 0, 0, 0, 0, 0, 0, 0xFF, 0xFF];
      assert ip[12..] == [ip[12], ip[13], ip[14], ip[15]];
      if To4(ip).Some? {
        assert ip[..12] == zeros;
      }
      if ip[..12] == zeros {
        assert forall i :: 0 <= i < 12 ==> ip[i] == ip[..12][i];
      }
    }
  }

  lemma NamesInOrder(s: SANs)
    ensures NamesOf(GeneralNames(s), s)
  {
    hide To4, Shortened, ContextTag;
    AddressesShortened(s);
    ContextTags();
    var dns, email, ip := Tagged(TAG_DNS, s.dnsNames), Tagged(TAG_EMAIL, s.emailAddresses),
                          Tagged(TAG_IP, ShortenedAll(s.ipAddresses));
    var names := GeneralNames(s);
    assert forall i :: 0 <= i < |dns| ==> names[i] == dns[i];
    assert forall i :: 0 <= i < |email| ==> names[|dns| + i] == email[i];
    assert forall i :: 0 <= i < |ip| ==> names[|dns| + |email| + i] == ip[i];
  }

  lemma ContextTags()
    ensures ContextTag(TAG_DNS) == 0x82 && ContextTag(TAG_EMAIL) == 0x81 && ContextTag(TAG_IP) == 0x87
  {
  }

  /** What is written: one SEQUENCE of the names, unless there is none. */
  lemma SANsWritten(s: SANs)
    ensures NamesOf(GeneralNames(s), s)
    ensures MarshalledSANs(s).Ok? ==>
              && |WriteElements(GeneralNames(s))| <= MAX_INT
              && MarshalledSANs(s).value == Tlv(0x30, WriteElements(GeneralNames(s)))
    ensures s.Empty() ==> MarshalledSANs(s) == Err(Other)
  {
    hide NamesOf, To4, Shortened, Tlv, WriteElements;
    NamesInOrder(s);
  }

  lemma AddressesShortened(s: SANs)
    ensures forall i :: 0 <= i < |s.ipAddresses| ==>
              var ip := s.ipAddresses[i];
              Shortened(ip)
              == if |ip| == 16 && ip[..12] == [0, 0, 0, 0, 0, 0, 0, 0, 0, 0, 0xFF, 0xFF] then ip[12..] else ip
  {
    hide To4;
    forall i | 0 <= i < |s.ipAddresses|
      ensures var ip := s.ipAddresses[i];
              Shortened(ip)
              == if |ip| == 16 && ip[..12] == [0, 0, 0, 0, 0, 0, 0, 0, 0, 0, 0xFF, 0xFF] then ip[12..] else ip
    {
      var ip := s.ipAddresses[i];
      To4Octets(ip);
      assert |ip| == 16 ==> ip[12..] == [ip[12], ip[13], ip[14], ip[15]];
    }
  }

  method MarshalSANs(s: SANs) returns (r: Result<Bytes>)
    ensures r == MarshalledSANs(s)
  {
    hide To4;
    var names: seq<Element> := [];
    for i := 0 to |s.dnsNames|
      invariant names == Tagged(TAG_DNS, s.dnsNames)[..i]
    {
      names := names + [Element(ContextTag(TAG_DNS), s.dnsNames[i])];
    }
    ghost var dns := names;
    for i := 0 to |s.emailAddresses|
      invariant names == dns + Tagged(TAG_EMAIL, s.emailAddresses)[..i]
    {
      names := names + [Element(ContextTag(TAG_EMAIL), s.emailAddresses[i])];
    }
    ghost var dnsAndEmail := names;
    for i := 0 to |s.ipAddresses|
      invariant names == dnsAndEmail + Tagged(TAG_IP, ShortenedAll(s.ipAddresses))[..i]
    {
      var b := s.ipAddresses[i];
      var v4 := To4(b);
      if v4.Some? {
        b := v4.value;
      }
      names := names + [Element(ContextTag(TAG_IP), b)];
    }
    assert names == GeneralNames(s);
    if |names| == 0 || !Sliced(names) {
      return Err(Other);
    }
    return Ok(Tlv(SEQUENCE, WriteElements(names)));
  }

  // ---------------------------------------------------------------- reading

  /** One name, by its tag number: the class and the constructed bit are not looked at. */
  function AddName(s: SANs, n: Element): (r: Result<SANs>)
    ensures n.tag % 32 == 1 ==> r == Ok(s.(emailAddresses := s.emailAddresses + [n.content]))
    ensures n.tag % 32 == 2 ==> r == Ok(s.(dnsNames := s.dnsNames + [n.content]))
    ensures n.tag % 32 == 7 ==>
              r == if |n.content| == 4 || |n.content| == 16
                   then Ok(s.(ipAddresses := s.ipAddresses + [n.content])) else Err(MalformedDER)
    ensures n.tag % 32 != 1 && n.tag % 32 != 2 && n.tag % 32 != 7 ==> r == Err(MalformedDER)
  {
    var tag := n.tag % 32;
    if tag == TAG_DNS then Ok(s.(dnsNames := s.dnsNames + [n.content]))
    else if tag == TAG_EMAIL then Ok(s.(emailAddresses := s.emailAddresses + [n.content]))
    else if tag == TAG_IP && (|n.content| == 4 || |n.content| == 16) then
      Ok(s.(ipAddresses := s.ipAddresses + [n.content]))
    else Err(MalformedDER)
  }

  function AddNames(s: SANs, names: seq<Element>): Result<SANs>
    decreases |names|
  {
    if names == [] then Ok(s)
    else
      var r := AddName(s, names[0]);
      if r.Err? then r else AddNames(r.value, names[1..])
  }

  lemma {:induction false} AddNamesError(s: SANs, names: seq<Element>)
    ensures AddNames(s, names).Err? ==> AddNames(s, names).error == MalformedDER
    decreases |names|
  {
    if names != [] && AddName(s, names[0]).Ok? {
      AddNamesError(AddName(s, names[0]).value, names[1..]);
    }
  }

  function ParsedSANs(der: Bytes): Result<SANs> {
    var outer := ReadElement(der);
    if outer.None? || outer.value.0.tag != SEQUENCE then Err(MalformedDER)
    else
      var names := ReadElements(outer.value.0.content);
      if names.None? then Err(MalformedDER)
      else if |outer.value.1| != 0 then Err(TrailingData)
      else AddNames(NO_SANS, names.value)
  }

  method ParseSANs(der: Bytes) returns (r: Result<SANs>)
    ensures r == ParsedSANs(der)
  {
    hide ReadElement, ReadElements, AddName;
    var outer := ReadElement(der);
    if outer.None? || outer.value.0.tag != SEQUENCE {
      return Err(MalformedDER);
    }
    var names := ReadElements(outer.value.0.content);
    if names.None? {
      return Err(MalformedDER);
    }
    if |outer.value.1| != 0 {
      return Err(TrailingData);
    }
    var s := NO_SANS;
    assert names.value[0..] == names.value;
    for i := 0 to |names.value|
      invariant AddNames(s, names.value[i..]) == ParsedSANs(der)
    {
      assert names.value[i..][1..] == names.value[i + 1..];
      var next := AddName(s, names.value[i]);
      if next.Err? {
        return next;
      }
      s := next.value;
    }
    return Ok(s);
  }

  /** Bytes after a complete list have an error of their own; every other error is MalformedDER. */
  lemma SANsErrors(der: Bytes)
    ensures ParsedSANs(der) == Err(TrailingData) <==>
              var outer := ReadElement(der);
              && outer.Some? && outer.value.0.tag == 0x30 && ReadElements(outer.value.0.content).Some?
              && outer.value.1 != []
    ensures ParsedSANs(der).Err? ==> ParsedSANs(der).error in {MalformedDER, TrailingData}
  {
    hide ReadElement, ReadElements, AddNames;
    var outer := ReadElement(der);
    if outer.Some? && ReadElements(outer.value.0.content).Some? {
      AddNamesError(NO_SANS, ReadElements(outer.value.0.content).value);
    }
  }

  // ---------------------------------------------------------------- round trip

  lemma {:induction false} AddNamesConcat(s: SANs, a: seq<Element>, b: seq<Element>)
    ensures AddNames(s, a + b) == if AddNames(s, a).Err? then AddNames(s, a) else AddNames(AddNames(s, a).value, b)
    decreases |a|
  {
    hide AddName;
    if a == [] {
      assert a + b == b;
    } else {
      assert (a + b)[1..] == a[1..] + b;
      if AddName(s, a[0]).Ok? {
        AddNamesConcat(AddName(s, a[0]).value, a[1..], b);
      }
    }
  }

  lemma {:induction false} AddDNS(s: SANs, values: seq<Bytes>)
    ensures AddNames(s, Tagged(TAG_DNS, values)) == Ok(s.(dnsNames := s.dnsNames + values))
    decreases |values|
  {
    if values == [] {
      assert s.dnsNames + values == s.dnsNames;
    } else {
      assert Tagged(TAG_DNS, values)[1..] == Tagged(TAG_DNS, values[1..]);
      AddDNS(s.(dnsNames := s.dnsNames + [values[0]]), values[1..]);
      assert s.dnsNames + [values[0]] + values[1..] == s.dnsNames + values;
    }
  }

  lemma {:induction false} AddEmail(s: SANs, values: seq<Bytes>)
    ensures AddNames(s, Tagged(TAG_EMAIL, values)) == Ok(s.(emailAddresses := s.emailAddresses + values))
    decreases |values|
  {
    if values == [] {
      assert s.emailAddresses + values == s.emailAddresses;
    } else {
      assert Tagged(TAG_EMAIL, values)[1..] == Tagged(TAG_EMAIL, values[1..]);
      AddEmail(s.(emailAddresses := s.emailAddresses + [values[0]]), values[1..]);
      assert s.emailAddresses + [values[0]] + values[1..] == s.emailAddresses + values;
    }
  }

  predicate AddressSized(ip: Bytes) {
    |ip| == 4 || |ip| == 16
  }

  predicate AddressesSized(ips: seq<Bytes>) {
    forall i :: 0 <= i < |ips| ==> AddressSized(ips[i])
  }

  lemma {:induction false} AddIPs(s: SANs, values: seq<Bytes>)
    ensures AddNames(s, Tagged(TAG_IP, values))
            == if AddressesSized(values) then Ok(s.(ipAddresses := s.ipAddresses + values)) else Err(MalformedDER)
    decreases |values|
  {
    if values == [] {
      assert s.ipAddresses + values == s.ipAddresses;
    } else {
      assert Tagged(TAG_IP, values)[1..] == Tagged(TAG_IP, values[1..]);
      AddIPs(s.(ipAddresses := s.ipAddresses + [values[0]]), values[1..]);
      assert s.ipAddresses + [values[0]] + values[1..] == s.ipAddresses + values;
      assert AddressesSized(values) <==> AddressSized(values[0]) && AddressesSized(values[1..]);
    }
  }

  lemma {:induction false} ElementsFit(elements: seq<Element>, limit: nat)
    requires forall i :: 0 <= i < |elements| ==> |elements[i].content| <= MAX_INT
    requires |WriteElements(elements)| < limit
    ensures forall i :: 0 <= i < |elements| ==> |elements[i].content| < limit
  {
    if elements != [] {
      ElementsFit(elements[1..], limit);
    }
  }

  lemma ShorteningKeepsSized(ips: seq<Bytes>)
    ensures AddressesSized(ShortenedAll(ips)) <==> AddressesSized(ips)
  {
    forall i | 0 <= i < |ips|
      ensures AddressSized(ShortenedAll(ips)[i]) <==> AddressSized(ips[i])
    {
      assert AddressSized(Shortened(ips[i])) <==> AddressSized(ips[i]);
    }
  }

  lemma NamesAdded(s: SANs)
    ensures AddNames(NO_SANS, GeneralNames(s))
            == if AddressesSized(s.ipAddresses) then Ok(Normalized(s)) else Err(MalformedDER)
  {
    hide AddNames, AddName, Shortened, AddressesSized;
    var dns, email, ip := Tagged(TAG_DNS, s.dnsNames), Tagged(TAG_EMAIL, s.emailAddresses),
                          Tagged(TAG_IP, ShortenedAll(s.ipAddresses));
    AddNamesConcat(NO_SANS, dns + email, ip);
    AddNamesConcat(NO_SANS, dns, email);
    AddDNS(NO_SANS, s.dnsNames);
    var s1 := NO_SANS.(dnsNames := [] + s.dnsNames);
    AddEmail(s1, s.emailAddresses);
    var s2 := s1.(emailAddresses := [] + s.emailAddresses);
    AddIPs(s2, ShortenedAll(s.ipAddresses));
    ShorteningKeepsSized(s.ipAddresses);
    assert [] + s.dnsNames == s.dnsNames && [] + s.emailAddresses == s.emailAddresses;
    assert [] + ShortenedAll(s.ipAddresses) == ShortenedAll(s.ipAddresses);
  }

  /** Names that were written read back in order, IPv4-mapped addresses in 4 bytes, exactly
      when every address has 4 or 16 bytes and the list is below the limit of encoding/asn1. */
  lemma SANsRoundTrip(s: SANs)
    requires MarshalledSANs(s).Ok?
    ensures ParsedSANs(MarshalledSANs(s).value)
            == if AddressesSized(s.ipAddresses) && |WriteElements(GeneralNames(s))| < ASN1_LIMIT then Ok(Normalized(s))
               else Err(MalformedDER)
  {
    hide AddNames, Normalized, To4, GeneralNames, ReadElement, Tlv;
    var names := GeneralNames(s);
    var content := WriteElements(names);
    assert Tlv(SEQUENCE, content) + [] == Tlv(SEQUENCE, content);
    if |content| < ASN1_LIMIT {
      ElementsFit(names, ASN1_LIMIT);
      NameTags(s);
      ElementsRoundTrip(names);
      ElementRoundTrip(SEQUENCE, content, []);
      NamesAdded(s);
    } else {
      ElementTooLong(SEQUENCE, content, []);
    }
  }

  lemma ContentIsShorter(s: SANs)
    requires MarshalledSANs(s).Ok?
    ensures |WriteElements(GeneralNames(s))| < |MarshalledSANs(s).value|
  {
    hide LengthOctets, GeneralNames, WriteElements;
  }

  lemma NameTags(s: SANs)
    ensures forall i :: 0 <= i < |GeneralNames(s)| ==> GeneralNames(s)[i].tag % 32 != 31
  {
    hide ShortenedAll;
  }
}
