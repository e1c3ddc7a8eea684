/** The requested alternative names of a certification request (csr.go:98-123, 190-233). */
module CertificateRequests {
  import opened Prelude
  import opened Der
  import opened X509
  import opened SubjectAltNames

  /** Content octets of 1.2.840.113549.1.9.14 and of 2.5.29.17. */
  const OID_EXTENSION_REQUEST: Bytes := [0x2A, 0x86, 0x48, 0x86, 0xF7, 0x0D, 0x01, 0x09, 0x0E]
  const OID_SUBJECT_ALT_NAME: Bytes := [0x55, 0x1D, 0x11]

  const TAG_ATTRIBUTES: Byte := 0xA0

  datatype RequestedExtension = RequestedExtension(id: Bytes, critical: bool, value: Bytes)

  datatype CsrAttribute = CsrAttribute(oid: Bytes, values: seq<Element>)

  // ---------------------------------------------------------------- extension lists

  /** SEQUENCE { OID, BOOLEAN DEFAULT FALSE, OCTET STRING }; further members are skipped. */
  function ReadExtension(e: Element): Option<RequestedExtension> {
    var id := ReadElement(e.content);
    if e.tag != SEQUENCE || id.None? || id.value.0.tag != TAG_OBJECT_ID || !OidValid(id.value.0.content) then None
    else
      var second := ReadElement(id.value.1);
      if second.None? then None
      else if second.value.0.tag == TAG_BOOLEAN then
        var third := ReadElement(second.value.1);
        if second.value.0.content !in [[0x00], [0xFF]] || third.None? || third.value.0.tag != TAG_OCTET_STRING then None
        else Some(RequestedExtension(id.value.0.content, second.value.0.content == [0xFF], third.value.0.content))
      else if second.value.0.tag != TAG_OCTET_STRING then None
      else Some(RequestedExtension(id.value.0.content, false, second.value.0.content))
  }

  function ReadEach(elements: seq<Element>): Option<seq<RequestedExtension>>
    decreases |elements|
  {
    if elements == [] then Some([])
    else
      var first, rest := ReadExtension(elements[0]), ReadEach(elements[1..]);
      if first.None? || rest.None? then None else Some([first.value] + rest.value)
  }

  function ReadExtensions(v: Element): Option<seq<RequestedExtension>> {
    if v.tag != SEQUENCE then None
    else
      var elements := ReadElements(v.content);
      if elements.None? then None else ReadEach(elements.value)
  }

  predicate Short(b: Bytes) {
    |b| < ASN1_LIMIT
  }

  function ExtensionContent(x: RequestedExtension): Bytes
    requires Short(x.id) && Short(x.value)
  {
    Tlv(TAG_OBJECT_ID, x.id) + ((if x.critical then Tlv(TAG_BOOLEAN, [0xFF]) else []) + Tlv(TAG_OCTET_STRING, x.value))
  }

  predicate Writable(exts: seq<RequestedExtension>) {
    forall i :: 0 <= i < |exts| ==>
      Short(exts[i].id) && OidValid(exts[i].id) && Short(exts[i].value) && Short(ExtensionContent(exts[i]))
  }

  function ExtensionElements(exts: seq<RequestedExtension>): (r: seq<Element>)
    requires Writable(exts)
    ensures |r| == |exts|
    ensures forall i :: 0 <= i < |exts| ==> r[i] == Element(SEQUENCE, ExtensionContent(exts[i]))
  {
    seq(|exts|, i requires 0 <= i < |exts| => Element(SEQUENCE, ExtensionContent(exts[i])))
  }

  /** The value of an extensionRequest attribute. */
  function ExtensionsValue(exts: seq<RequestedExtension>): Element
    requires Writable(exts)
  {
    Element(SEQUENCE, WriteElements(ExtensionElements(exts)))
  }

  lemma ReadExtensionParts(e: Element, id: Element, rest: Bytes, second: Element, rest2: Bytes)
    requires e.tag == SEQUENCE && ReadElement(e.content) == Some((id, rest)) && id.tag == TAG_OBJECT_ID
    requires OidValid(id.content)
    requires ReadElement(rest) == Some((second, rest2)) && second.tag == TAG_OCTET_STRING
    ensures ReadExtension(e) == Some(RequestedExtension(id.content, false, second.content))
  {
    hide ReadElement, OidValid;
  }

  lemma ReadCriticalParts(e: Element, id: Element, rest: Bytes, rest2: Bytes, third: Element, rest3: Bytes)
    requires e.tag == SEQUENCE && ReadElement(e.content) == Some((id, rest)) && id.tag == TAG_OBJECT_ID
    requires OidValid(id.content)
    requires ReadElement(rest) == Some((Element(TAG_BOOLEAN, [0xFF]), rest2))
    requires ReadElement(rest2) == Some((third, rest3)) && third.tag == TAG_OCTET_STRING
    ensures ReadExtension(e) == Some(RequestedExtension(id.content, true, third.content))
  {
    hide ReadElement, OidValid;
  }

  lemma ExtensionRoundTrip(x: RequestedExtension)
    requires Short(x.id) && OidValid(x.id) && Short(x.value)
    ensures ReadExtension(Element(SEQUENCE, ExtensionContent(x))) == Some(x)
  {
    hide Tlv, ReadElement, ReadExtension, OidValid;
    var value := Tlv(TAG_OCTET_STRING, x.value);
    var e := Element(SEQUENCE, ExtensionContent(x));
    ElementRoundTrip(TAG_OCTET_STRING, x.value, []);
    assert value + [] == value;
    if x.critical {
      ElementRoundTrip(TAG_BOOLEAN, [0xFF], value);
      ElementRoundTrip(TAG_OBJECT_ID, x.id, Tlv(TAG_BOOLEAN, [0xFF]) + value);
      ReadCriticalParts(e, Element(TAG_OBJECT_ID, x.id), Tlv(TAG_BOOLEAN, [0xFF]) + value, value,
                        Element(TAG_OCTET_STRING, x.value), []);
    } else {
      assert [] + value == value;
      ElementRoundTrip(TAG_OBJECT_ID, x.id, value);
      ReadExtensionParts(e, Element(TAG_OBJECT_ID, x.id), value, Element(TAG_OCTET_STRING, x.value), []);
    }
  }

  lemma {:induction false} EachRoundTrip(exts: seq<RequestedExtension>)
    requires Writable(exts)
    ensures ReadEach(ExtensionElements(exts)) == Some(exts)
  {
    hide ReadExtension, ExtensionContent, Short, OidValid;
    if exts != [] {
      ExtensionRoundTrip(exts[0]);
      assert ExtensionElements(exts)[1..] == ExtensionElements(exts[1..]);
      EachRoundTrip(exts[1..]);
      assert [exts[0]] + exts[1..] == exts;
    }
  }

  /** A written list of requested extensions reads back, whatever it holds. */
  lemma ExtensionsRoundTrip(exts: seq<RequestedExtension>)
    requires Writable(exts)
    ensures ReadExtensions(ExtensionsValue(exts)) == Some(exts)
  {
    hide ReadElements, WriteElements, ReadEach;
    ElementsRoundTrip(ExtensionElements(exts));
    EachRoundTrip(exts);
  }

  // ---------------------------------------------------------------- sansFromCSRAttributes

  /** The inner loop: at most one subjectAltName, everything else is ignored. */
  function FindSANs(exts: seq<RequestedExtension>, found: Option<SANs>): Result<Option<SANs>>
    decreases |exts|
  {
    if exts == [] then Ok(found)
    else if exts[0].id != OID_SUBJECT_ALT_NAME then FindSANs(exts[1..], found)
    else if found.Some? then Err(InvalidCSR)
    else
      var s := ParsedSANs(exts[0].value);
      if s.Err? then Err(s.error) else FindSANs(exts[1..], Some(s.value))
  }

  function ReadRequest(a: CsrAttribute): Result<Option<SANs>> {
    if |a.values| != 1 then Err(InvalidCSR)
    else
      var exts := ReadExtensions(a.values[0]);
      if exts.None? then Err(InvalidCSR) else FindSANs(exts.value, None)
  }

  /** The outer loop: at most one extensionRequest, everything else is ignored. */
  function FromAttributes(attrs: seq<CsrAttribute>, seen: bool, sans: SANs): Result<SANs>
    decreases |attrs|
  {
    if attrs == [] then Ok(sans)
    else if attrs[0].oid != OID_EXTENSION_REQUEST then FromAttributes(attrs[1..], seen, sans)
    else if seen then Err(InvalidCSR)
    else
      var found := ReadRequest(attrs[0]);
      if found.Err? then Err(found.error)
      else FromAttributes(attrs[1..], true, if found.value.Some? then found.value.value else sans)
  }

  method SansFromCSRAttributes(attrs: seq<CsrAttribute>) returns (r: Result<SANs>)
    ensures r == FromAttributes(attrs, false, NO_SANS)
  {
    hide ReadExtensions, ParsedSANs;
    var sans := NO_SANS;
    var seenExtReq := false;
    assert attrs[0..] == attrs;
    for i := 0 to |attrs|
      invariant FromAttributes(attrs[i..], seenExtReq, sans) == FromAttributes(attrs, false, NO_SANS)
    {
      var a := attrs[i];
      assert attrs[i..][0] == a && attrs[i..][1..] == attrs[i + 1..];
      if a.oid != OID_EXTENSION_REQUEST {
        continue;
      }
      if seenExtReq {
        return Err(InvalidCSR);
      }
      seenExtReq := true;
      if |a.values| != 1 {
        return Err(InvalidCSR);
      }
      var exts := ReadExtensions(a.values[0]);
      if exts.None? {
        return Err(InvalidCSR);
      }
      var found: Option<SANs> := None;
      assert exts.value[0..] == exts.value;
      for j := 0 to |exts.value|
        invariant FindSANs(exts.value[j..], found) == FindSANs(exts.value, None)
      {
        var e := exts.value[j];
        assert exts.value[j..][0] == e && exts.value[j..][1..] == exts.value[j + 1..];
        if e.id != OID_SUBJECT_ALT_NAME {
          continue;
        }
        if found.Some? {
          return Err(InvalidCSR);
        }
        var s := ParsedSANs(e.value);
        if s.Err? {
          return Err(s.error);
        }
        found := Some(s.value);
      }
      if found.Some? {
        sans := found.value;
      }
    }
    return Ok(sans);
  }

  // ---------------------------------------------------------------- what does not matter

  lemma {:induction false} UnrelatedExtension(a: seq<RequestedExtension>, x: RequestedExtension,
                                              b: seq<RequestedExtension>, found: Option<SANs>)
    requires x.id != OID_SUBJECT_ALT_NAME
    ensures FindSANs(a + [x] + b, found) == FindSANs(a + b, found)
    decreases |a|
  {
    hide ParsedSANs;
    if a == [] {
      assert ([] + [x] + b)[1..] == b && [] + b == b;
    } else {
      assert (a + [x] + b)[1..] == a[1..] + [x] + b;
      assert (a + b)[1..] == a[1..] + b;
      if a[0].id != OID_SUBJECT_ALT_NAME {
        UnrelatedExtension(a[1..], x, b, found);
      } else if found.None? && ParsedSANs(a[0].value).Ok? {
        UnrelatedExtension(a[1..], x, b, Some(ParsedSANs(a[0].value).value));
      }
    }
  }

  /** An unrelated requested extension, anywhere in the list of any attribute, changes nothing,
      however the two lists are encoded. */
  lemma UnrelatedExtensionIgnored(before: seq<CsrAttribute>, v: Element, w: Element, after: seq<CsrAttribute>,
                                  a: seq<RequestedExtension>, x: RequestedExtension, b: seq<RequestedExtension>)
    requires x.id != OID_SUBJECT_ALT_NAME
    requires ReadExtensions(v) == Some(a + [x] + b) && ReadExtensions(w) == Some(a + b)
    ensures FromAttributes(before + [CsrAttribute(OID_EXTENSION_REQUEST, [v])] + after, false, NO_SANS)
            == FromAttributes(before + [CsrAttribute(OID_EXTENSION_REQUEST, [w])] + after, false, NO_SANS)
  {
    hide ReadExtensions, FindSANs;
    UnrelatedExtension(a, x, b, None);
    SameRequest(before, CsrAttribute(OID_EXTENSION_REQUEST, [v]), CsrAttribute(OID_EXTENSION_REQUEST, [w]), after,
                false, NO_SANS);
  }

  lemma {:induction false} SameRequest(before: seq<CsrAttribute>, v: CsrAttribute, w: CsrAttribute,
                                       after: seq<CsrAttribute>, seen: bool, sans: SANs)
    requires v.oid == w.oid && ReadRequest(v) == ReadRequest(w)
    ensures FromAttributes(before + [v] + after, seen, sans) == FromAttributes(before + [w] + after, seen, sans)
    decreases |before|
  {
    hide ReadRequest;
    if before == [] {
      assert ([] + [v] + after)[1..] == after == ([] + [w] + after)[1..];
    } else {
      assert (before + [v] + after)[1..] == before[1..] + [v] + after;
      assert (before + [w] + after)[1..] == before[1..] + [w] + after;
      if before[0].oid != OID_EXTENSION_REQUEST {
        SameRequest(before[1..], v, w, after, seen, sans);
      } else if !seen && ReadRequest(before[0]).Ok? {
        var found := ReadRequest(before[0]).value;
        SameRequest(before[1..], v, w, after, true, if found.Some? then found.value else sans);
      }
    }
  }

  /** An unrelated attribute, anywhere, changes nothing. */
  lemma {:induction false} UnrelatedAttributeIgnored(a: seq<CsrAttribute>, x: CsrAttribute, b: seq<CsrAttribute>,
                                                     seen: bool, sans: SANs)
    requires x.oid != OID_EXTENSION_REQUEST
    ensures FromAttributes(a + [x] + b, seen, sans) == FromAttributes(a + b, seen, sans)
    decreases |a|
  {
    hide ReadRequest;
    if a == [] {
      assert ([] + [x] + b)[1..] == b && [] + b == b;
    } else {
      assert (a + [x] + b)[1..] == a[1..] + [x] + b;
      assert (a + b)[1..] == a[1..] + b;
      if a[0].oid != OID_EXTENSION_REQUEST {
        UnrelatedAttributeIgnored(a[1..], x, b, seen, sans);
      } else if !seen && ReadRequest(a[0]).Ok? {
        var found := ReadRequest(a[0]).value;
        UnrelatedAttributeIgnored(a[1..], x, b, true, if found.Some? then found.value else sans);
      }
    }
  }

  // ---------------------------------------------------------------- what is refused

  lemma {:induction false} SkippedAttributes(a: seq<CsrAttribute>, b: seq<CsrAttribute>, seen: bool, sans: SANs)
    requires forall i :: 0 <= i < |a| ==> a[i].oid != OID_EXTENSION_REQUEST
    ensures FromAttributes(a + b, seen, sans) == FromAttributes(b, seen, sans)
    decreases |a|
  {
    hide ReadRequest;
    if a == [] {
      assert a + b == b;
    } else {
      assert (a + b)[1..] == a[1..] + b;
      SkippedAttributes(a[1..], b, seen, sans);
    }
  }

  lemma {:induction false} SkippedExtensions(a: seq<RequestedExtension>, b: seq<RequestedExtension>,
                                             found: Option<SANs>)
    requires forall i :: 0 <= i < |a| ==> a[i].id != OID_SUBJECT_ALT_NAME
    ensures FindSANs(a + b, found) == FindSANs(b, found)
    decreases |a|
  {
    hide ParsedSANs;
    if a == [] {
      assert a + b == b;
    } else {
      assert (a + b)[1..] == a[1..] + b;
      SkippedExtensions(a[1..], b, found);
    }
  }

  /** Of the requested extensions only subjectAltName counts: one gives its names or its error, a second
      is refused once the first has been read. */
  lemma RequestedNames(a: seq<RequestedExtension>, x: RequestedExtension, b: seq<RequestedExtension>,
                       y: RequestedExtension, c: seq<RequestedExtension>)
    requires forall e :: e in a || e in b || e in c ==> e.id != [0x55, 0x1D, 0x11]
    requires x.id == [0x55, 0x1D, 0x11] == y.id
    ensures FindSANs(a, None) == Ok(None)
    ensures FindSANs(a + ([x] + c), None)
            == if ParsedSANs(x.value).Ok? then Ok(Some(ParsedSANs(x.value).value)) else Err(ParsedSANs(x.value).error)
    ensures ParsedSANs(x.value).Ok? ==> FindSANs(a + ([x] + (b + ([y] + c))), None) == Err(InvalidCSR)
  {
    hide ParsedSANs;
    assert a + [] == a && c + [] == c;
    SkippedExtensions(a, [], None);
    SkippedExtensions(a, [x] + c, None);
    assert ([x] + c)[1..] == c;
    SkippedExtensions(a, [x] + (b + ([y] + c)), None);
    assert ([x] + (b + ([y] + c)))[1..] == b + ([y] + c);
    if ParsedSANs(x.value).Ok? {
      SkippedExtensions(c, [], Some(ParsedSANs(x.value).value));
      SkippedExtensions(b, [y] + c, Some(ParsedSANs(x.value).value));
    }
  }

  /** Of the attributes only extensionRequest counts. It must have one value, which must be a list of
      extensions; a second one is refused once the first has been read. */
  lemma RequestedAttributes(a: seq<CsrAttribute>, x: CsrAttribute, b: seq<CsrAttribute>, y: CsrAttribute,
                            c: seq<CsrAttribute>)
    requires forall e :: e in a || e in b || e in c ==>
               e.oid != [0x2A, 0x86, 0x48, 0x86, 0xF7, 0x0D, 0x01, 0x09, 0x0E]
    requires x.oid == [0x2A, 0x86, 0x48, 0x86, 0xF7, 0x0D, 0x01, 0x09, 0x0E] == y.oid
    ensures FromAttributes(a, false, NO_SANS) == Ok(NO_SANS)
    ensures |x.values| != 1 || ReadExtensions(x.values[0]).None? ==>
              FromAttributes(a + ([x] + c), false, NO_SANS) == Err(InvalidCSR)
    ensures |x.values| == 1 && ReadExtensions(x.values[0]).Some? ==>
              var found := FindSANs(ReadExtensions(x.values[0]).value, None);
              && FromAttributes(a + ([x] + c), false, NO_SANS)
                 == (if found.Err? then Err(found.error)
                     else if found.value.Some? then Ok(found.value.value) else Ok(NO_SANS))
              && (found.Ok? ==> FromAttributes(a + ([x] + (b + ([y] + c))), false, NO_SANS) == Err(InvalidCSR))
  {
    hide ReadExtensions, FindSANs;
    assert a + [] == a && c + [] == c;
    SkippedAttributes(a, [], false, NO_SANS);
    SkippedAttributes(a, [x] + c, false, NO_SANS);
    assert ([x] + c)[1..] == c;
    SkippedAttributes(a, [x] + (b + ([y] + c)), false, NO_SANS);
    assert ([x] + (b + ([y] + c)))[1..] == b + ([y] + c);
    if ReadRequest(x).Ok? {
      var sans := if ReadRequest(x).value.Some? then ReadRequest(x).value.value else NO_SANS;
      SkippedAttributes(c, [], true, sans);
      SkippedAttributes(b, [y] + c, true, sans);
    }
  }

  // ---------------------------------------------------------------- marshalCSRAttributes

  /** SEQUENCE { OID extensionRequest, SET { the extension list } } */
  function AttributeDer(exts: seq<RequestedExtension>): Result<Bytes>
    requires Writable(exts)
  {
    var value := ExtensionsValue(exts);
    if !Short(value.content) || !Short(Tlv(value.tag, value.content)) then Err(Other)
    else
      var content := Tlv(TAG_OBJECT_ID, OID_EXTENSION_REQUEST) + Tlv(SET, Tlv(value.tag, value.content));
      if !Short(content) || !Short(Tlv(SEQUENCE, content)) then Err(Other) else Ok(Tlv(SEQUENCE, content))
  }

  /** A slice longer than an int cannot exist. */
  function WrapIn(tag: Byte, r: Result<Bytes>): Result<Bytes> {
    if r.Err? then r else if |r.value| > MAX_INT then Err(Other) else Ok(Tlv(tag, r.value))
  }

  function After(prefix: Bytes, r: Result<Bytes>): Result<Bytes> {
    if r.Err? then r else Ok(prefix + r.value)
  }

  /** One extensionRequest attribute with one subjectAltName, or nothing. */
  function RequestContent(s: SANs): Result<Bytes> {
    if s.Empty() then Ok([])
    else
      var extension := After(Tlv(TAG_OBJECT_ID, OID_SUBJECT_ALT_NAME), WrapIn(TAG_OCTET_STRING, MarshalledSANs(s)));
      var value := WrapIn(SEQUENCE, WrapIn(SEQUENCE, extension));
      WrapIn(SEQUENCE, After(Tlv(TAG_OBJECT_ID, OID_EXTENSION_REQUEST), WrapIn(SET, value)))
  }

  /** The [0] IMPLICIT SET OF attributes. */
  function MarshalledCSRAttributes(s: SANs): Result<Bytes> {
    WrapIn(TAG_ATTRIBUTES, RequestContent(s))
  }

  /** The octets of the attributes: none without names, and else one extensionRequest that holds one
      subjectAltName extension, which is not critical. */
  lemma AttributesWritten(s: SANs)
    requires MarshalledCSRAttributes(s).Ok?
    ensures s.Empty() ==> MarshalledCSRAttributes(s) == Ok([0xA0, 0x00])
    ensures !s.Empty() ==>
              && MarshalledSANs(s).Ok? && |MarshalledSANs(s).value| <= MAX_INT
              && var ext := [0x06, 0x03, 0x55, 0x1D, 0x11] + Tlv(0x04, MarshalledSANs(s).value);
              && |ext| <= MAX_INT && |Tlv(0x30, ext)| <= MAX_INT && |Tlv(0x30, Tlv(0x30, ext))| <= MAX_INT
              && var attribute := [0x06, 0x09, 0x2A, 0x86, 0x48, 0x86, 0xF7, 0x0D, 0x01, 0x09, 0x0E]
                                  + Tlv(0x31, Tlv(0x30, Tlv(0x30, ext)));
              && |attribute| <= MAX_INT && |Tlv(0x30, attribute)| <= MAX_INT
              && MarshalledCSRAttributes(s).value == Tlv(0xA0, Tlv(0x30, attribute))
  {
    hide MarshalledSANs, Tlv;
    OidOctets();
  }

  lemma OidOctets()
    ensures Tlv(0xA0, []) == [0xA0, 0x00]
    ensures Tlv(0x06, OID_SUBJECT_ALT_NAME) == [0x06, 0x03, 0x55, 0x1D, 0x11]
    ensures Tlv(0x06, OID_EXTENSION_REQUEST)
            == [0x06, 0x09, 0x2A, 0x86, 0x48, 0x86, 0xF7, 0x0D, 0x01, 0x09, 0x0E]
  {
    assert Tlv(0xA0, []) == [0xA0] + ([0x00] + []);
    assert Tlv(0x06, OID_SUBJECT_ALT_NAME) == [0x06] + ([0x03] + OID_SUBJECT_ALT_NAME);
    assert Tlv(0x06, OID_EXTENSION_REQUEST) == [0x06] + ([0x09] + OID_EXTENSION_REQUEST);
  }

  function ReadAttribute(e: Element): Option<CsrAttribute> {
    var oid := ReadElement(e.content);
    if e.tag != SEQUENCE || oid.None? || oid.value.0.tag != TAG_OBJECT_ID || !OidValid(oid.value.0.content) then None
    else
      var values := ReadElement(oid.value.1);
      if values.None? || values.value.0.tag != SET then None
      else
        var elements := ReadElements(values.value.0.content);
        if elements.None? then None else Some(CsrAttribute(oid.value.0.content, elements.value))
  }

  function ReadEachAttribute(elements: seq<Element>): Option<seq<CsrAttribute>>
    decreases |elements|
  {
    if elements == [] then Some([])
    else
      var first, rest := ReadAttribute(elements[0]), ReadEachAttribute(elements[1..]);
      if first.None? || rest.None? then None else Some([first.value] + rest.value)
  }

  /** How encoding/asn1 reads the attributes of a CertificationRequestInfo. */
  function ReadAttributes(der: Bytes): Option<seq<CsrAttribute>> {
    var outer := ReadElement(der);
    if outer.None? || outer.value.0.tag != TAG_ATTRIBUTES then None
    else
      var elements := ReadElements(outer.value.0.content);
      if elements.None? then None else ReadEachAttribute(elements.value)
  }

  lemma ReadAttributeParts(e: Element, oid: Element, rest: Bytes, values: Element, rest2: Bytes, elements: seq<Element>)
    requires e.tag == SEQUENCE && ReadElement(e.content) == Some((oid, rest)) && oid.tag == TAG_OBJECT_ID
    requires OidValid(oid.content)
    requires ReadElement(rest) == Some((values, rest2)) && values.tag == SET
    requires ReadElements(values.content) == Some(elements)
    ensures ReadAttribute(e) == Some(CsrAttribute(oid.content, elements))
  {
    hide ReadElement, ReadElements;
  }

  lemma OneElement(tag: Byte, content: Bytes)
    requires Short(content) && tag % 32 != 31
    ensures ReadElements(Tlv(tag, content)) == Some([Element(tag, content)])
  {
    var e := Element(tag, content);
    ElementsRoundTrip([e]);
    assert [e][1..] == [];
    assert Tlv(tag, content) + [] == Tlv(tag, content);
  }

  lemma OidsAreValid()
    ensures OidValid(OID_SUBJECT_ALT_NAME) && OidValid(OID_EXTENSION_REQUEST)
  {
    SmallArcs(OID_SUBJECT_ALT_NAME);
    var b := OID_EXTENSION_REQUEST;
    assert ReadArc(b, 0, 0) == Some(b[1..]) && ReadArc(b[1..], 0, 0) == Some(b[3..]);
    assert ReadArc(b[3..], 0, 0) == Some(b[6..]);
    SmallArcs(b[6..]);
  }

  lemma AttributeRoundTrip(exts: seq<RequestedExtension>)
    requires Writable(exts) && AttributeDer(exts).Ok?
    ensures ReadAttributes(Tlv(TAG_ATTRIBUTES, AttributeDer(exts).value))
            == Some([CsrAttribute(OID_EXTENSION_REQUEST, [ExtensionsValue(exts)])])
  {
    hide Tlv, ReadElement, ReadElements, ReadAttribute, ExtensionsValue, Writable, OidValid;
    OidsAreValid();
    var value := ExtensionsValue(exts);
    var set_ := Tlv(value.tag, value.content);
    var content := Tlv(TAG_OBJECT_ID, OID_EXTENSION_REQUEST) + Tlv(SET, set_);
    var attribute := Tlv(SEQUENCE, content);
    ExtensionsValueTag(exts);
    OneElement(value.tag, value.content);
    ElementRoundTrip(SET, set_, []);
    assert Tlv(SET, set_) + [] == Tlv(SET, set_);
    ElementRoundTrip(TAG_OBJECT_ID, OID_EXTENSION_REQUEST, Tlv(SET, set_));
    ReadAttributeParts(Element(SEQUENCE, content), Element(TAG_OBJECT_ID, OID_EXTENSION_REQUEST), Tlv(SET, set_),
                       Element(SET, set_), [], [value]);
    OneElement(SEQUENCE, content);
    ElementRoundTrip(TAG_ATTRIBUTES, attribute, []);
    assert Tlv(TAG_ATTRIBUTES, attribute) + [] == Tlv(TAG_ATTRIBUTES, attribute);
    ReadOneAttribute(Element(SEQUENCE, content));
  }

  lemma ReadOneAttribute(e: Element)
    requires ReadAttribute(e).Some?
    ensures ReadEachAttribute([e]) == Some([ReadAttribute(e).value])
  {
    hide ReadAttribute;
    assert [e][0] == e && [e][1..] == [];
    assert ReadEachAttribute([e][1..]) == Some([]);
    assert [ReadAttribute(e).value] + [] == [ReadAttribute(e).value];
  }

  lemma ExtensionsValueTag(exts: seq<RequestedExtension>)
    requires Writable(exts)
    ensures ExtensionsValue(exts).tag == SEQUENCE
  {
  }

  function SANsExtension(names: Bytes): RequestedExtension {
    RequestedExtension(OID_SUBJECT_ALT_NAME, false, names)
  }

  /** Below the limit of encoding/asn1 the written content is one attribute that reads back. */
  lemma ContentIsAttribute(s: SANs)
    requires !s.Empty() && RequestContent(s).Ok? && Short(RequestContent(s).value)
    ensures MarshalledSANs(s).Ok?
    ensures var exts := [SANsExtension(MarshalledSANs(s).value)];
            Writable(exts) && AttributeDer(exts) == RequestContent(s)
  {
    hide Tlv, MarshalledSANs, OidValid;
    var names := MarshalledSANs(s).value;
    var x := SANsExtension(names);
    var octets := Tlv(TAG_OCTET_STRING, names);
    var content := Tlv(TAG_OBJECT_ID, OID_SUBJECT_ALT_NAME) + octets;
    var value := Tlv(SEQUENCE, content);
    var set_ := Tlv(SET, Tlv(SEQUENCE, value));
    var attribute := Tlv(TAG_OBJECT_ID, OID_EXTENSION_REQUEST) + set_;
    TlvLength(TAG_OCTET_STRING, names);
    TlvLength(SEQUENCE, content);
    TlvLength(SEQUENCE, value);
    TlvLength(SET, Tlv(SEQUENCE, value));
    TlvLength(SEQUENCE, attribute);
    OidsAreValid();
    assert [] + octets == octets && ExtensionContent(x) == content;
    assert WriteElements([Element(SEQUENCE, content)]) == value by { OneWritten(SEQUENCE, content); }
    assert ExtensionElements([x]) == [Element(SEQUENCE, content)];
  }

  lemma OneWritten(tag: Byte, content: Bytes)
    requires |content| <= MAX_INT
    ensures WriteElements([Element(tag, content)]) == Tlv(tag, content)
  {
    var e := Element(tag, content);
    assert [e][1..] == [] && Tlv(tag, content) + [] == Tlv(tag, content);
  }

  /** The request's names survive the request: in order, IPv4-mapped addresses in 4 bytes, exactly
      when every address has 4 or 16 bytes. At or above the limit of encoding/asn1 nothing reads back. */
  lemma CsrSANsRoundTrip(s: SANs)
    requires MarshalledCSRAttributes(s).Ok?
    ensures var attrs := ReadAttributes(MarshalledCSRAttributes(s).value);
            if |RequestContent(s).value| < ASN1_LIMIT then
              && attrs.Some?
              && FromAttributes(attrs.value, false, NO_SANS)
                 == if AddressesSized(s.ipAddresses) then Ok(Normalized(s)) else Err(MalformedDER)
            else attrs.None?
  {
    hide Tlv, ReadElement, ReadElements, ReadExtensions, ExtensionsValue, AttributeDer, ParsedSANs, MarshalledSANs,
         AddressesSized, Normalized, RequestContent, GeneralNames, ReadEachAttribute;
    var content := RequestContent(s).value;
    if |content| >= ASN1_LIMIT {
      assert Tlv(TAG_ATTRIBUTES, content) + [] == Tlv(TAG_ATTRIBUTES, content);
      ElementTooLong(TAG_ATTRIBUTES, content, []);
    } else if s.Empty() {
      EmptyCsrSANs(s);
    } else {
      ContentIsAttribute(s);
      var names := MarshalledSANs(s).value;
      var exts := [SANsExtension(names)];
      AttributeRoundTrip(exts);
      ExtensionsRoundTrip(exts);
      SANsRoundTrip(s);
      ContentIsShorter(s);
      assert Short(exts[0].value);
      FoundSANs(names);
      var a := CsrAttribute(OID_EXTENSION_REQUEST, [ExtensionsValue(exts)]);
      assert ReadRequest(a) == FindSANs(exts, None);
      OneRequest(a);
    }
  }

  lemma OneRequest(a: CsrAttribute)
    requires a.oid == OID_EXTENSION_REQUEST
    ensures FromAttributes([a], false, NO_SANS)
            == if ReadRequest(a).Err? then Err(ReadRequest(a).error)
               else Ok(if ReadRequest(a).value.Some? then ReadRequest(a).value.value else NO_SANS)
  {
    hide ReadRequest;
    assert [a][1..] == [];
  }

  lemma FoundSANs(names: Bytes)
    ensures var exts := [RequestedExtension(OID_SUBJECT_ALT_NAME, false, names)];
            FindSANs(exts, None)
            == if ParsedSANs(names).Err? then Err(ParsedSANs(names).error) else Ok(Some(ParsedSANs(names).value))
  {
    hide ParsedSANs;
    var exts := [RequestedExtension(OID_SUBJECT_ALT_NAME, false, names)];
    assert exts[1..] == [];
  }

  lemma EmptyCsrSANs(s: SANs)
    requires s.Empty()
    ensures RequestContent(s) == Ok([]) && ReadAttributes(Tlv(TAG_ATTRIBUTES, [])) == Some([])
    ensures FromAttributes([], false, NO_SANS) == Ok(Normalized(s)) && AddressesSized(s.ipAddresses)
  {
    hide Tlv, ReadElement;
    assert RequestContent(s) == Ok([]);
    ElementRoundTrip(TAG_ATTRIBUTES, [], []);
    assert Tlv(TAG_ATTRIBUTES, []) + [] == Tlv(TAG_ATTRIBUTES, []);
  }
}
