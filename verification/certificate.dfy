/** Building and reading certificates at the level of fields and extension lists
    (certificate.go, extensions.go). */
module Certificates {
  import opened Prelude
  import opened Names
  import opened X509
  import opened Der
  import opened Times
  import Rdn
  import SubjectAltNames

  // ---------------------------------------------------------------- basicConstraints

  /** SEQUENCE { cA BOOLEAN DEFAULT FALSE, pathLenConstraint INTEGER OPTIONAL } */
  function ConstraintsContent(isCA: bool, pathLen: Option<nat>): (r: Bytes)
    requires pathLen.Some? ==> pathLen.value <= MAX_INT
    ensures |r| < 100
  {
    IntegerRoundTrip(if pathLen.Some? then pathLen.value else 0);
    TlvLength(TAG_BOOLEAN, [0xFF]);
    if pathLen.Some? then
      TlvLength(TAG_INTEGER, IntegerOctets(pathLen.value));
      (if isCA then Tlv(TAG_BOOLEAN, [0xFF]) else []) + Tlv(TAG_INTEGER, IntegerOctets(pathLen.value))
    else if isCA then Tlv(TAG_BOOLEAN, [0xFF])
    else []
  }

  /** A path length is written for a CA that sets one, and must then be a natural machine int. */
  function MarshalBasicConstraints(bc: BasicConstraints): (r: Result<Bytes>)
    ensures r.Err? ==> r.error == Other
  {
    if bc.isCA && bc.maxPathLenSet then
      if bc.maxPathLen < 0 || bc.maxPathLen > MAX_INT then Err(Other)
      else Ok(Tlv(SEQUENCE, ConstraintsContent(bc.isCA, Some(bc.maxPathLen))))
    else Ok(Tlv(SEQUENCE, ConstraintsContent(bc.isCA, None)))
  }

  /** An optional member that is absent leaves the bytes to the next one. */
  function ReadFlag(content: Bytes): Option<(bool, Bytes)> {
    if content == [] then Some((false, []))
    else if !HeaderReads(content) then None
    else if content[0] != TAG_BOOLEAN then Some((false, content))
    else
      var e := ReadElement(content);
      if e.None? || e.value.0.content !in [[0x00], [0xFF]] then None
      else Some((e.value.0.content == [0xFF], e.value.1))
  }

  function ReadPathLen(content: Bytes): Option<int> {
    if content == [] then Some(-1)
    else if !HeaderReads(content) then None
    else if content[0] != TAG_INTEGER then Some(-1)
    else
      var e := ReadElement(content);
      if e.None? then None else ReadInteger(e.value.0.content)
  }

  function ParseBasicConstraints(der: Bytes): Result<BasicConstraints> {
    var outer := ReadElement(der);
    if outer.None? || outer.value.0.tag != SEQUENCE then Err(MalformedDER)
    else
      var flag := ReadFlag(outer.value.0.content);
      if flag.None? then Err(MalformedDER)
      else
        var pathLen := ReadPathLen(flag.value.1);
        if pathLen.None? then Err(MalformedDER)
        else if |outer.value.1| != 0 then Err(TrailingData)
        else if pathLen.value < 0 then Ok(BasicConstraints(flag.value.0, 0, false))
        else if !flag.value.0 then Err(MalformedDER)
        else Ok(BasicConstraints(true, pathLen.value, true))
  }

  lemma ElementHeader(tag: Byte, content: Bytes, tail: Bytes)
    requires |content| < ASN1_LIMIT && tag % 32 != 31
    ensures var data := Tlv(tag, content) + tail;
            data != [] && HeaderReads(data) && data[0] == tag
            && ReadElement(data) == Some((Element(tag, content), tail))
  {
    hide StrictLength;
    ElementRoundTrip(tag, content, tail);
  }

  lemma FlagRoundTrip(isCA: bool, tail: Bytes)
    requires tail == [] || (HeaderReads(tail) && tail[0] != TAG_BOOLEAN)
    ensures ReadFlag((if isCA then Tlv(TAG_BOOLEAN, [0xFF]) else []) + tail) == Some((isCA, tail))
  {
    hide HeaderReads, ReadElement, Tlv;
    if isCA {
      ElementHeader(TAG_BOOLEAN, [0xFF], tail);
    } else {
      assert [] + tail == tail;
    }
  }

  /** Constraints read back as they were written; only a CA keeps a path length. They can be
      written unless a CA sets one that is negative or no machine int. */
  lemma BasicConstraintsRoundTrip(bc: BasicConstraints)
    ensures MarshalBasicConstraints(bc).Ok? <==>
              (bc.isCA && bc.maxPathLenSet ==> 0 <= bc.maxPathLen <= MAX_INT)
    ensures MarshalBasicConstraints(bc).Ok? ==>
              ParseBasicConstraints(MarshalBasicConstraints(bc).value)
              == Ok(if bc.isCA && bc.maxPathLenSet then bc else BasicConstraints(bc.isCA, 0, false))
  {
    if MarshalBasicConstraints(bc).Ok? {
      hide HeaderReads, ReadElement, Tlv, ReadFlag, IntegerOctets, ReadInteger;
      var der := MarshalBasicConstraints(bc).value;
      var pathLen: Option<nat> := if bc.isCA && bc.maxPathLenSet then Some(bc.maxPathLen) else None;
      var content := ConstraintsContent(bc.isCA, pathLen);
      ElementHeader(SEQUENCE, content, []);
      assert der + [] == der == Tlv(SEQUENCE, content);
      var flag := if bc.isCA then Tlv(TAG_BOOLEAN, [0xFF]) else [];
      if pathLen.Some? {
        var octets := IntegerOctets(pathLen.value);
        IntegerRoundTrip(pathLen.value);
        ElementHeader(TAG_INTEGER, octets, []);
        assert Tlv(TAG_INTEGER, octets) + [] == Tlv(TAG_INTEGER, octets);
        FlagRoundTrip(bc.isCA, Tlv(TAG_INTEGER, octets));
      } else {
        assert content == flag + [];
        FlagRoundTrip(bc.isCA, []);
      }
    }
  }

  /** A path length without the CA flag is malformed, and so is a flag that is neither of the two; an
      explicit FALSE is read; bytes after the structure have an error of their own. */
  lemma ConstraintsEdges(n: nat, flag: Byte, tail: Bytes)
    requires n <= MAX_INT
    ensures |IntegerOctets(n)| <= 8 && |Tlv(TAG_INTEGER, IntegerOctets(n))| <= 18
    ensures ParseBasicConstraints(Tlv(0x30, Tlv(TAG_INTEGER, IntegerOctets(n)))) == Err(MalformedDER)
    ensures ParseBasicConstraints([0x30, 0x03, 0x01, 0x01, 0x00]) == Ok(BasicConstraints(false, 0, false))
    ensures flag != 0x00 && flag != 0xFF ==> ParseBasicConstraints([0x30, 0x03, 0x01, 0x01, flag]) == Err(MalformedDER)
    ensures tail != [] ==> ParseBasicConstraints([0x30, 0x00] + tail) == Err(TrailingData)
  {
    hide ReadElement, HeaderReads, Tlv, IntegerOctets, ReadInteger;
    IntegerRoundTrip(n);
    TlvLength(TAG_INTEGER, IntegerOctets(n));
    var octets := Tlv(TAG_INTEGER, IntegerOctets(n));
    ElementHeader(TAG_INTEGER, IntegerOctets(n), []);
    assert octets + [] == octets && Tlv(SEQUENCE, octets) + [] == Tlv(SEQUENCE, octets);
    ElementHeader(SEQUENCE, octets, []);
    FlagElement(flag);
    FlagElement(0);
    ShortTlv(SEQUENCE, []);
    ElementHeader(SEQUENCE, [], tail);
    assert Tlv(SEQUENCE, []) == [0x30, 0x00];
  }

  lemma FlagElement(flag: Byte)
    ensures ReadElement([0x30, 0x03, 0x01, 0x01, flag]) == Some((Element(SEQUENCE, [0x01, 0x01, flag]), []))
    ensures HeaderReads([0x01, 0x01, flag])
    ensures ReadElement([0x01, 0x01, flag]) == Some((Element(TAG_BOOLEAN, [flag]), []))
  {
    ShortTlv(TAG_BOOLEAN, [flag]);
    ElementHeader(TAG_BOOLEAN, [flag], []);
    assert Tlv(TAG_BOOLEAN, [flag]) + [] == [0x01, 0x01, flag];
    ShortTlv(SEQUENCE, [0x01, 0x01, flag]);
    ElementHeader(SEQUENCE, [0x01, 0x01, flag], []);
    assert Tlv(SEQUENCE, [0x01, 0x01, flag]) + [] == [0x30, 0x03, 0x01, 0x01, flag];
  }

  // ---------------------------------------------------------------- extensions, writing

  /** serverAuth and clientAuth. */
  predicate IsKnownPurpose(p: int) {
    p == 1 || p == 2
  }

  predicate KnownPurposes(purposes: seq<int>) {
    forall i :: 0 <= i < |purposes| ==> IsKnownPurpose(purposes[i])
  }

  /** The purposes without a known OID are dropped. */
  function FilterPurposes(purposes: seq<int>): seq<int> {
    if purposes == [] then []
    else (if IsKnownPurpose(purposes[0]) then [purposes[0]] else []) + FilterPurposes(purposes[1..])
  }

  /** Server and client authentication stay, in order. */
  lemma FilterStep(p: int, rest: seq<int>)
    ensures FilterPurposes([p] + rest) == (if p == 1 || p == 2 then [p] else []) + FilterPurposes(rest)
  {
    assert ([p] + rest)[1..] == rest;
  }

  lemma {:induction false} FilterKnown(purposes: seq<int>)
    requires KnownPurposes(purposes)
    ensures FilterPurposes(purposes) == purposes
  {
    if purposes != [] {
      assert KnownPurposes(purposes[1..]) by {
        forall i | 0 <= i < |purposes[1..]| ensures IsKnownPurpose(purposes[1..][i]) {
          assert purposes[1..][i] == purposes[i + 1];
        }
      }
      FilterKnown(purposes[1..]);
      assert [purposes[0]] + purposes[1..] == purposes;
    }
  }

  predicate Extensible(t: Certificate) {
    && (t.basicConstraintsValid ==> MarshalBasicConstraints(t.basicConstraints).Ok?)
    && KnownPurposes(t.extKeyUsage)
    && (!t.sans.Empty() ==> SubjectAltNames.MarshalledSANs(t.sans).Ok?)
  }

  function BasicConstraintsExt(t: Certificate): seq<Extension>
    requires Extensible(t)
  {
    if t.basicConstraintsValid
    then [Extension(BasicConstraintsId, true, RawValue(MarshalBasicConstraints(t.basicConstraints).value))] else []
  }

  function KeyUsageExt(t: Certificate): seq<Extension> {
    if t.keyUsage != 0 then [Extension(KeyUsageId, true, KeyUsageValue(t.keyUsage))] else []
  }

  function ExtKeyUsageExt(t: Certificate): seq<Extension> {
    if |t.extKeyUsage| > 0 then [Extension(ExtKeyUsageId, false, ExtKeyUsageValue(t.extKeyUsage))] else []
  }

  function SubjectKeyIdOf(t: Certificate, pub: PublicKey): KeyIdentifier {
    if t.subjectKeyId.Some? then t.subjectKeyId.value else KeyIdentifier(pub)
  }

  function AuthorityKeyIdOf(t: Certificate, signer: PrivateKey): KeyIdentifier {
    if t.authorityKeyId.Some? then t.authorityKeyId.value else KeyIdentifier(PublicOf(signer))
  }

  function KeyIdExts(t: Certificate, pub: PublicKey, signer: PrivateKey): seq<Extension> {
    [Extension(SubjectKeyIdId, false, KeyIdValue(SubjectKeyIdOf(t, pub))),
     Extension(AuthorityKeyIdId, false, AuthorityKeyIdValue(AuthorityKeyIdOf(t, signer)))]
  }

  function SANExt(t: Certificate, subjectEmpty: bool): seq<Extension>
    requires Extensible(t)
  {
    if t.sans.Empty() then []
    else [Extension(SubjectAltNameId, subjectEmpty, RawValue(SubjectAltNames.MarshalledSANs(t.sans).value))]
  }

  function Extensions(t: Certificate, pub: PublicKey, signer: PrivateKey, subjectEmpty: bool): Result<seq<Extension>> {
    if !Extensible(t) then Err(Other)
    else Ok(BasicConstraintsExt(t) + KeyUsageExt(t) + ExtKeyUsageExt(t) + KeyIdExts(t, pub, signer)
            + SANExt(t, subjectEmpty) + t.unhandledExtensions)
  }

  // ---------------------------------------------------------------- extensions, the written list

  /** The order in which the extensions come. */
  function Rank(id: ExtensionId): nat {
    match id
    case BasicConstraintsId => 0
    case KeyUsageId => 1
    case ExtKeyUsageId => 2
    case SubjectKeyIdId => 3
    case AuthorityKeyIdId => 4
    case SubjectAltNameId => 5
    case UnknownId(_) => 6
  }

  predicate Has(exts: seq<Extension>, id: ExtensionId) {
    exists i :: 0 <= i < |exts| && exts[i].id == id
  }

  /** In the order of their ranks, and critical exactly for basicConstraints and keyUsage, and for
      the alternative names of an empty subject. */
  predicate InOrder(exts: seq<Extension>, subjectEmpty: bool, low: nat, high: nat) {
    && (forall i, j :: 0 <= i < j < |exts| ==> Rank(exts[i].id) < Rank(exts[j].id))
    && (forall i :: 0 <= i < |exts| ==>
          && low <= Rank(exts[i].id) < high
          && (exts[i].critical <==>
                || exts[i].id == BasicConstraintsId || exts[i].id == KeyUsageId
                || (exts[i].id == SubjectAltNameId && subjectEmpty)))
  }

  /** The extensions for the template's fields, each exactly when its field asks for it. */
  predicate WrittenFor(exts: seq<Extension>, t: Certificate, subjectEmpty: bool) {
    && InOrder(exts, subjectEmpty, 0, 6)
    && (Has(exts, BasicConstraintsId) <==> t.basicConstraintsValid)
    && (Has(exts, KeyUsageId) <==> t.keyUsage != 0)
    && (Has(exts, ExtKeyUsageId) <==> t.extKeyUsage != [])
    && Has(exts, SubjectKeyIdId) && Has(exts, AuthorityKeyIdId)
    && (Has(exts, SubjectAltNameId) <==> !t.sans.Empty())
  }

  lemma InOrderConcat(a: seq<Extension>, b: seq<Extension>, subjectEmpty: bool, low: nat, mid: nat, high: nat)
    requires low <= mid <= high && InOrder(a, subjectEmpty, low, mid) && InOrder(b, subjectEmpty, mid, high)
    ensures InOrder(a + b, subjectEmpty, low, high)
  {
    hide Rank;
  }

  lemma HasConcat(a: seq<Extension>, b: seq<Extension>, id: ExtensionId)
    ensures Has(a + b, id) <==> Has(a, id) || Has(b, id)
  {
    if k :| 0 <= k < |a| && a[k].id == id {
      assert (a + b)[k].id == id;
    }
    if k :| 0 <= k < |b| && b[k].id == id {
      assert (a + b)[|a| + k].id == id;
    }
  }

  lemma OneExtension(seg: seq<Extension>, id: ExtensionId, subjectEmpty: bool, low: nat)
    requires |seg| <= 1 && (seg != [] ==> seg[0].id == id) && Rank(id) == low < 6
    requires seg != [] ==>
               (seg[0].critical <==>
                  id == BasicConstraintsId || id == KeyUsageId || (id == SubjectAltNameId && subjectEmpty))
    ensures InOrder(seg, subjectEmpty, low, low + 1)
    ensures forall x :: Has(seg, x) <==> seg != [] && x == id
  {
    assert seg != [] ==> Has(seg, seg[0].id);
  }

  lemma KeyIdExtensions(t: Certificate, pub: PublicKey, signer: PrivateKey, subjectEmpty: bool)
    ensures InOrder(KeyIdExts(t, pub, signer), subjectEmpty, 3, 5)
    ensures forall x :: Has(KeyIdExts(t, pub, signer), x) <==> x == SubjectKeyIdId || x == AuthorityKeyIdId
  {
    var d := KeyIdExts(t, pub, signer);
    assert d[0].id == SubjectKeyIdId && d[1].id == AuthorityKeyIdId;
  }

  lemma FiveSegments(a: seq<Extension>, b: seq<Extension>, c: seq<Extension>, d: seq<Extension>, e: seq<Extension>,
                     subjectEmpty: bool)
    requires InOrder(a, subjectEmpty, 0, 1) && InOrder(b, subjectEmpty, 1, 2) && InOrder(c, subjectEmpty, 2, 3)
    requires InOrder(d, subjectEmpty, 3, 5) && InOrder(e, subjectEmpty, 5, 6)
    ensures InOrder(a + b + c + d + e, subjectEmpty, 0, 6)
    ensures forall id :: Has(a + b + c + d + e, id) <==>
                           Has(a, id) || Has(b, id) || Has(c, id) || Has(d, id) || Has(e, id)
  {
    hide Has, InOrder, Rank;
    InOrderConcat(a, b, subjectEmpty, 0, 1, 2);
    InOrderConcat(a + b, c, subjectEmpty, 0, 2, 3);
    InOrderConcat(a + b + c, d, subjectEmpty, 0, 3, 5);
    InOrderConcat(a + b + c + d, e, subjectEmpty, 0, 5, 6);
    forall id: ExtensionId
      ensures Has(a + b + c + d + e, id) <==> Has(a, id) || Has(b, id) || Has(c, id) || Has(d, id) || Has(e, id)
    {
      HasConcat(a, b, id);
      HasConcat(a + b, c, id);
      HasConcat(a + b + c, d, id);
      HasConcat(a + b + c + d, e, id);
    }
  }

  lemma ExtensionsWritten(t: Certificate, pub: PublicKey, signer: PrivateKey, subjectEmpty: bool)
    requires Extensible(t)
    ensures WrittenFor(BasicConstraintsExt(t) + KeyUsageExt(t) + ExtKeyUsageExt(t) + KeyIdExts(t, pub, signer)
                       + SANExt(t, subjectEmpty), t, subjectEmpty)
  {
    hide Has, InOrder, MarshalBasicConstraints, SubjectAltNames.MarshalledSANs, SubjectKeyIdOf, AuthorityKeyIdOf,
         KnownPurposes;
    var a, b, c, d, e := BasicConstraintsExt(t), KeyUsageExt(t), ExtKeyUsageExt(t), KeyIdExts(t, pub, signer),
                         SANExt(t, subjectEmpty);
    OneExtension(a, BasicConstraintsId, subjectEmpty, 0);
    OneExtension(b, KeyUsageId, subjectEmpty, 1);
    OneExtension(c, ExtKeyUsageId, subjectEmpty, 2);
    KeyIdExtensions(t, pub, signer, subjectEmpty);
    OneExtension(e, SubjectAltNameId, subjectEmpty, 5);
    FiveSegments(a, b, c, d, e, subjectEmpty);
  }

  method BuildExtensions(t: Certificate, pub: PublicKey, signer: PrivateKey, subjectEmpty: bool)
    returns (r: Result<seq<Extension>>)
    ensures r == Extensions(t, pub, signer, subjectEmpty)
    ensures r.Ok? ==>
              && |t.unhandledExtensions| <= |r.value|
              && var n := |r.value| - |t.unhandledExtensions|;
              WrittenFor(r.value[..n], t, subjectEmpty) && r.value[n..] == t.unhandledExtensions
  {
    hide WrittenFor, SubjectAltNames.MarshalledSANs, MarshalBasicConstraints, IsKnownPurpose, SubjectKeyIdOf,
         AuthorityKeyIdOf;
    var exts: seq<Extension> := [];
    if t.basicConstraintsValid {
      var v := MarshalBasicConstraints(t.basicConstraints);
      if v.Err? {
        return Err(v.error);
      }
      exts := exts + [Extension(BasicConstraintsId, true, RawValue(v.value))];
    }
    ghost var first := exts;
    ghost var written := exts;
    if t.keyUsage != 0 {
      exts := exts + [Extension(KeyUsageId, true, KeyUsageValue(t.keyUsage))];
    }
    assert exts == written + KeyUsageExt(t);
    written := exts;
    for i := 0 to |t.extKeyUsage|
      invariant forall k :: 0 <= k < i ==> IsKnownPurpose(t.extKeyUsage[k])
    {
      if !IsKnownPurpose(t.extKeyUsage[i]) {
        return Err(Other);
      }
    }
    if |t.extKeyUsage| > 0 {
      exts := exts + [Extension(ExtKeyUsageId, false, ExtKeyUsageValue(t.extKeyUsage))];
    }
    assert exts == written + ExtKeyUsageExt(t);
    written := exts;
    exts := exts + [Extension(SubjectKeyIdId, false, KeyIdValue(SubjectKeyIdOf(t, pub)))];
    exts := exts + [Extension(AuthorityKeyIdId, false, AuthorityKeyIdValue(AuthorityKeyIdOf(t, signer)))];
    assert exts == written + KeyIdExts(t, pub, signer);
    written := exts;
    if !t.sans.Empty() {
      var v := SubjectAltNames.MarshalSANs(t.sans);
      if v.Err? {
        MarshalSANsError(t.sans);
        return Err(Other);
      }
      exts := exts + [Extension(SubjectAltNameId, subjectEmpty, RawValue(v.value))];
    }
    assert Extensible(t);
    assert first == BasicConstraintsExt(t);
    assert exts == written + SANExt(t, subjectEmpty);
    ghost var front := exts;
    for i := 0 to |t.unhandledExtensions|
      invariant exts == front + t.unhandledExtensions[..i]
    {
      exts := exts + [t.unhandledExtensions[i]];
    }
    assert t.unhandledExtensions[..|t.unhandledExtensions|] == t.unhandledExtensions;
    ExtensionsWritten(t, pub, signer, subjectEmpty);
    assert exts[..|front|] == front;
    return Ok(exts);
  }

  lemma MarshalSANsError(s: SANs)
    ensures SubjectAltNames.MarshalledSANs(s).Err? ==> SubjectAltNames.MarshalledSANs(s).error == Other
  {
  }

  // ---------------------------------------------------------------- creation

  const EMPTY_RDN_SEQUENCE: Bytes := [0x30, 0x00]

  function NameBytes(raw: Bytes, n: Name): Result<Bytes> {
    if raw == [] then Rdn.RdnSequence(n) else Ok(raw)
  }

  /** A self-signed certificate has no separate parent. */
  function IssuerBytes(subjectDer: Bytes, parent: Option<Certificate>): Result<Bytes> {
    if parent.None? then Ok(subjectDer) else NameBytes(parent.value.rawSubject, parent.value.subject)
  }

  /** CreateCertificate: signs with `signer`, for the subject key `pub`. */
  function CreateCertificate(t: Certificate, parent: Option<Certificate>, pub: PublicKey, signer: PrivateKey)
    : Result<CertificateDer>
  {
    if t.serialNumber <= 0 then Err(Other)
    else if t.notAfter <= t.notBefore then Err(Other)
    else if t.signatureAlgorithm != signer.algorithm then Err(Other)
    else
      var subjectDer := NameBytes(t.rawSubject, t.subject);
      if subjectDer.Err? then Err(subjectDer.error)
      else if subjectDer.value == EMPTY_RDN_SEQUENCE && t.sans.Empty() then Err(Other)
      else
        var issuerDer := IssuerBytes(subjectDer.value, parent);
        if issuerDer.Err? then Err(issuerDer.error)
        else
          var notBefore, notAfter := MarshalTime(t.notBefore), MarshalTime(t.notAfter);
          if notBefore.Err? || notAfter.Err? then Err(Other)
          else
            var exts := Extensions(t, pub, signer, subjectDer.value == EMPTY_RDN_SEQUENCE);
            if exts.Err? then Err(exts.error)
            else
              var tbs := TbsDer(t.serialNumber, t.signatureAlgorithm, issuerDer.value, notBefore.value, notAfter.value,
                                subjectDer.value, pub, exts.value);
              Ok(CertificateDer(tbs, t.signatureAlgorithm, Signed(PublicOf(signer), tbs)))
  }

  /** What a template must satisfy, whoever signs it: a positive serial number, a window in time order
      that can be written, the signer's algorithm, names that can be written, and something that names
      the subject. */
  lemma CreatedWhen(t: Certificate, parent: Option<Certificate>, pub: PublicKey, signer: PrivateKey)
    ensures CreateCertificate(t, parent, pub, signer).Ok? <==>
              && t.serialNumber > 0 && t.notBefore < t.notAfter && t.signatureAlgorithm == signer.algorithm
              && (t.rawSubject != [] || Rdn.RdnSequence(t.subject).Ok?)
              && (parent.Some? ==> parent.value.rawSubject != [] || Rdn.RdnSequence(parent.value.subject).Ok?)
              && (t.sans.Empty() ==> t.rawSubject != [0x30, 0x00])
              && (t.sans.Empty() && t.rawSubject == [] ==> Rdn.RdnSequence(t.subject) != Ok([0x30, 0x00]))
              && MarshalTime(t.notBefore).Ok? && MarshalTime(t.notAfter).Ok?
              && (t.basicConstraintsValid && t.basicConstraints.isCA && t.basicConstraints.maxPathLenSet ==>
                    0 <= t.basicConstraints.maxPathLen <= MAX_INT)
              && (forall p :: p in t.extKeyUsage ==> p == 1 || p == 2)
              && (!t.sans.Empty() ==> SubjectAltNames.MarshalledSANs(t.sans).Ok?)
    ensures CreateCertificate(t, parent, pub, signer).Err? ==> CreateCertificate(t, parent, pub, signer) == Err(Other)
  {
    hide MarshalTime, SubjectAltNames.MarshalledSANs, MarshalBasicConstraints, Rdn.RdnSequence;
    BasicConstraintsRoundTrip(t.basicConstraints);
    Rdn.WriteError(t.subject);
    if parent.Some? {
      Rdn.WriteError(parent.value.subject);
    }
    KnownPurposesAre(t.extKeyUsage);
  }

  lemma KnownPurposesAre(purposes: seq<int>)
    ensures KnownPurposes(purposes) <==> forall p :: p in purposes ==> p == 1 || p == 2
  {
    if KnownPurposes(purposes) {
      forall p | p in purposes ensures p == 1 || p == 2 {
        var i :| 0 <= i < |purposes| && purposes[i] == p;
        assert IsKnownPurpose(purposes[i]);
      }
    }
    if forall p :: p in purposes ==> p == 1 || p == 2 {
      forall i | 0 <= i < |purposes| ensures IsKnownPurpose(purposes[i]) {
        assert purposes[i] in purposes;
      }
    }
  }

  /** The signed list, for the template alone. */
  lemma CreatedExtensions(t: Certificate, parent: Option<Certificate>, pub: PublicKey, signer: PrivateKey)
    requires CreateCertificate(t, parent, pub, signer).Ok?
    ensures var tbs := CreateCertificate(t, parent, pub, signer).value.tbs;
            && tbs.TbsDer? && Extensible(t)
            && tbs.extensions == BasicConstraintsExt(t) + KeyUsageExt(t) + ExtKeyUsageExt(t)
                                 + KeyIdExts(t, pub, signer) + SANExt(t, tbs.subject == EMPTY_RDN_SEQUENCE)
                                 + t.unhandledExtensions
            && WrittenFor(tbs.extensions[..|tbs.extensions| - |t.unhandledExtensions|], t,
                          tbs.subject == EMPTY_RDN_SEQUENCE)
  {
    hide NameBytes, IssuerBytes, MarshalTime, BasicConstraintsExt, KeyUsageExt, ExtKeyUsageExt, KeyIdExts, SANExt,
         WrittenFor;
    var tbs := CreateCertificate(t, parent, pub, signer).value.tbs;
    var own := BasicConstraintsExt(t) + KeyUsageExt(t) + ExtKeyUsageExt(t) + KeyIdExts(t, pub, signer)
               + SANExt(t, tbs.subject == EMPTY_RDN_SEQUENCE);
    ExtensionsWritten(t, pub, signer, tbs.subject == EMPTY_RDN_SEQUENCE);
    assert tbs.extensions[..|own|] == own;
  }

  /** The bytes of basicConstraints, for path lengths of one octet. */
  lemma ConstraintsBytes(bc: BasicConstraints)
    ensures !bc.isCA ==> MarshalBasicConstraints(bc) == Ok([0x30, 0x00])
    ensures bc.isCA && !bc.maxPathLenSet ==> MarshalBasicConstraints(bc) == Ok([0x30, 0x03, 0x01, 0x01, 0xFF])
    ensures bc.isCA && bc.maxPathLenSet && 0 <= bc.maxPathLen < 128 ==>
              MarshalBasicConstraints(bc) == Ok([0x30, 0x06, 0x01, 0x01, 0xFF, 0x02, 0x01, bc.maxPathLen])
  {
    var flag := [0x01, 0x01, 0xFF];
    ShortTlv(TAG_BOOLEAN, [0xFF]);
    assert Tlv(TAG_BOOLEAN, [0xFF]) == flag;
    ShortTlv(SEQUENCE, []);
    assert Tlv(SEQUENCE, []) == [0x30, 0x00];
    ShortTlv(SEQUENCE, flag);
    assert Tlv(SEQUENCE, flag) == [0x30, 0x03, 0x01, 0x01, 0xFF];
    if bc.isCA && bc.maxPathLenSet && 0 <= bc.maxPathLen < 128 {
      var n: Byte := bc.maxPathLen;
      var both := flag + [0x02, 0x01, n];
      OneOctetInteger(n);
      ShortTlv(TAG_INTEGER, [n]);
      assert flag + Tlv(TAG_INTEGER, [n]) == both;
      ShortTlv(SEQUENCE, both);
      assert Tlv(SEQUENCE, both) == [0x30, 0x06, 0x01, 0x01, 0xFF, 0x02, 0x01, n];
    }
  }

  lemma OneOctetInteger(n: Byte)
    requires n < 128
    ensures IntegerOctets(n) == [n]
  {
    if n > 0 {
      assert BigEndian(n) == BigEndian(0) + [n];
    }
  }

  lemma ShortTlv(tag: Byte, content: Bytes)
    requires |content| < 128
    ensures Tlv(tag, content) == [tag, |content|] + content
  {
  }

  // ---------------------------------------------------------------- parsing

  /** The switch of the extension loop. */
  function ApplyExtension(c: Certificate, e: Extension): Result<Certificate> {
    match e.id
    case BasicConstraintsId =>
      var bc := if e.value.RawValue? then ParseBasicConstraints(e.value.bytes) else Err(MalformedDER);
      if bc.Err? then Err(bc.error) else Ok(c.(basicConstraints := bc.value, basicConstraintsValid := true))
    case KeyUsageId =>
      if !e.value.KeyUsageValue? then Err(MalformedDER) else Ok(c.(keyUsage := e.value.bits))
    case ExtKeyUsageId =>
      if !e.value.ExtKeyUsageValue? then Err(MalformedDER)
      else Ok(c.(extKeyUsage := FilterPurposes(e.value.purposes)))
    case SubjectKeyIdId =>
      if !e.value.KeyIdValue? then Err(MalformedDER) else Ok(c.(subjectKeyId := Some(e.value.id)))
    case AuthorityKeyIdId =>
      if !e.value.AuthorityKeyIdValue? then Err(MalformedDER) else Ok(c.(authorityKeyId := Some(e.value.id)))
    case SubjectAltNameId =>
      if !e.value.RawValue? then Err(MalformedDER)
      else
        var s := SubjectAltNames.ParsedSANs(e.value.bytes);
        if s.Err? then Err(s.error) else Ok(c.(sans := s.value))
    case UnknownId(_) =>
      if e.critical then Err(UnsupportedCriticalExtension)
      else Ok(c.(unhandledExtensions := c.unhandledExtensions + [e]))
  }

  function ApplyExtensions(c: Certificate, exts: seq<Extension>, seen: set<ExtensionId>): Result<Certificate>
    decreases |exts|
  {
    if exts == [] then Ok(c)
    else if exts[0].id in seen then Err(MalformedDER)
    else
      var next := ApplyExtension(c, exts[0]);
      if next.Err? then next else ApplyExtensions(next.value, exts[1..], seen + {exts[0].id})
  }

  /** The certificate before its extensions are read. */
  function Bare(der: CertificateDer, issuer: Name, subject: Name, notBefore: int, notAfter: int): Certificate
    requires der.CertificateDer? && der.tbs.TbsDer?
  {
    Certificate(der, der.tbs, der.tbs.serialNumber, der.signatureAlgorithm, der.signature,
                issuer, der.tbs.issuer, subject, der.tbs.subject, notBefore, notAfter,
                der.tbs.publicKey, BasicConstraints(false, 0, false), false, 0, [], None, None, NO_SANS, [])
  }

  /** ParseCertificate on what CreateCertificate writes; other bytes are malformed to the model. */
  function ParsedCertificate(der: CertificateDer): Result<Certificate> {
    if !der.CertificateDer? || !der.tbs.TbsDer? then Err(MalformedDER)
    else if der.tbs.signatureAlgorithm != der.signatureAlgorithm then Err(MalformedDER)
    else if der.tbs.serialNumber <= 0 then Err(MalformedDER)
    else
      var issuer := Rdn.ParsedName(der.tbs.issuer);
      if issuer.Err? then Err(issuer.error)
      else
        var subject := Rdn.ParsedName(der.tbs.subject);
        if subject.Err? then Err(subject.error)
        else
          var notBefore, notAfter := ParseTime(der.tbs.notBefore), ParseTime(der.tbs.notAfter);
          if notBefore.Err? then Err(notBefore.error)
          else if notAfter.Err? then Err(notAfter.error)
          else ApplyExtensions(Bare(der, issuer.value, subject.value, notBefore.value, notAfter.value),
                               der.tbs.extensions, {})
  }

  method ParseCertificate(der: CertificateDer) returns (r: Result<Certificate>)
    ensures r == ParsedCertificate(der)
  {
    hide ApplyExtension, Rdn.ParsedName, ParseTime;
    if !der.CertificateDer? || !der.tbs.TbsDer? {
      return Err(MalformedDER);
    }
    if der.tbs.signatureAlgorithm != der.signatureAlgorithm {
      return Err(MalformedDER);
    }
    if der.tbs.serialNumber <= 0 {
      return Err(MalformedDER);
    }
    var issuer := Rdn.ParseName(der.tbs.issuer);
    if issuer.Err? {
      return Err(issuer.error);
    }
    var subject := Rdn.ParseName(der.tbs.subject);
    if subject.Err? {
      return Err(subject.error);
    }
    var notBefore := ParseTime(der.tbs.notBefore);
    if notBefore.Err? {
      return Err(notBefore.error);
    }
    var notAfter := ParseTime(der.tbs.notAfter);
    if notAfter.Err? {
      return Err(notAfter.error);
    }
    var cert := Bare(der, issuer.value, subject.value, notBefore.value, notAfter.value);
    var seen: set<ExtensionId> := {};
    var exts := der.tbs.extensions;
    assert exts[0..] == exts;
    for i := 0 to |exts|
      invariant ApplyExtensions(cert, exts[i..], seen) == ParsedCertificate(der)
    {
      var e := exts[i];
      assert exts[i..][0] == e && exts[i..][1..] == exts[i + 1..];
      if e.id in seen {
        return Err(MalformedDER);
      }
      seen := seen + {e.id};
      var next := ApplyExtension(cert, e);
      if next.Err? {
        return next;
      }
      cert := next.value;
    }
    return Ok(cert);
  }

  // ---------------------------------------------------------------- round trip

  lemma ApplyFirst(c: Certificate, e: Extension, rest: seq<Extension>, seen: set<ExtensionId>)
    requires e.id !in seen
    ensures ApplyExtensions(c, [e] + rest, seen)
            == if ApplyExtension(c, e).Err? then ApplyExtension(c, e)
               else ApplyExtensions(ApplyExtension(c, e).value, rest, seen + {e.id})
  {
    hide ApplyExtension;
    assert ([e] + rest)[1..] == rest;
  }

  function IdsOf(exts: seq<Extension>): set<ExtensionId> {
    set i | 0 <= i < |exts| :: exts[i].id
  }

  lemma {:induction false} ApplyConcat(c: Certificate, a: seq<Extension>, b: seq<Extension>, seen: set<ExtensionId>)
    ensures ApplyExtensions(c, a + b, seen)
            == if ApplyExtensions(c, a, seen).Err? then ApplyExtensions(c, a, seen)
               else ApplyExtensions(ApplyExtensions(c, a, seen).value, b, seen + IdsOf(a))
    decreases |a|
  {
    hide ApplyExtension;
    if a == [] {
      assert a + b == b && seen + IdsOf(a) == seen;
    } else {
      assert (a + b)[1..] == a[1..] + b;
      assert a == [a[0]] + a[1..];
      assert seen + IdsOf(a) == seen + {a[0].id} + IdsOf(a[1..]);
      if a[0].id !in seen && ApplyExtension(c, a[0]).Ok? {
        ApplyConcat(ApplyExtension(c, a[0]).value, a[1..], b, seen + {a[0].id});
      }
    }
  }

  /** The first extension that repeats an identifier, or is critical and not interpreted, decides. */
  lemma ExtensionErrors(c: Certificate, good: seq<Extension>, e: Extension, rest: seq<Extension>)
    requires ApplyExtensions(c, good, {}).Ok?
    ensures e.id in IdsOf(good) ==> ApplyExtensions(c, good + ([e] + rest), {}) == Err(MalformedDER)
    ensures e.id !in IdsOf(good) && e.id.UnknownId? && e.critical ==>
              ApplyExtensions(c, good + ([e] + rest), {}) == Err(UnsupportedCriticalExtension)
  {
    ApplyConcat(c, good, [e] + rest, {});
    assert {} + IdsOf(good) == IdsOf(good);
  }

  /** Two signature algorithms, or a serial number that is not positive, are malformed. */
  lemma ParseRefuses(der: CertificateDer)
    requires der.CertificateDer? && der.tbs.TbsDer?
    requires der.tbs.signatureAlgorithm != der.signatureAlgorithm || der.tbs.serialNumber <= 0
    ensures ParsedCertificate(der) == Err(MalformedDER)
  {
  }

  /** None of the identifiers that the code interprets, as the field's name says. */
  predicate Uninterpreted(exts: seq<Extension>) {
    forall i :: 0 <= i < |exts| ==> exts[i].id.UnknownId?
  }

  /** Not critical, and no identifier twice. */
  predicate PlainExtensions(exts: seq<Extension>) {
    && (forall i :: 0 <= i < |exts| ==> !exts[i].critical)
    && (forall i, j :: 0 <= i < j < |exts| ==> exts[i].id != exts[j].id)
  }

  /** Such lists are kept whole; any other list of uninterpreted extensions is refused. */
  lemma {:induction false} ApplyUninterpreted(c: Certificate, exts: seq<Extension>, seen: set<ExtensionId>)
    requires Uninterpreted(exts)
    ensures var plain := PlainExtensions(exts) && forall i :: 0 <= i < |exts| ==> exts[i].id !in seen;
            if plain then ApplyExtensions(c, exts, seen) == Ok(c.(unhandledExtensions := c.unhandledExtensions + exts))
            else ApplyExtensions(c, exts, seen).Err?
    decreases |exts|
  {
    if exts == [] {
      assert c.unhandledExtensions + exts == c.unhandledExtensions;
    } else if exts[0].id !in seen && !exts[0].critical {
      var next := c.(unhandledExtensions := c.unhandledExtensions + [exts[0]]);
      var rest, seen' := exts[1..], seen + {exts[0].id};
      assert ApplyExtension(c, exts[0]) == Ok(next);
      ApplyUninterpreted(next, rest, seen');
      PlainTail(exts, seen);
      assert c.unhandledExtensions + [exts[0]] + rest == c.unhandledExtensions + exts;
    } else {
      assert !PlainExtensions(exts) || exts[0].id in seen;
    }
  }

  lemma PlainTail(exts: seq<Extension>, seen: set<ExtensionId>)
    requires |exts| > 0 && exts[0].id !in seen && !exts[0].critical
    ensures (PlainExtensions(exts) && forall i :: 0 <= i < |exts| ==> exts[i].id !in seen)
            <==> (PlainExtensions(exts[1..])
                  && forall i :: 0 <= i < |exts[1..]| ==> exts[1..][i].id !in seen + {exts[0].id})
  {
    var rest := exts[1..];
    assert forall i :: 0 < i < |exts| ==> exts[i] == rest[i - 1];
  }

  /** The pathLen a parser sees: only a CA carries one. */
  function ReadConstraints(t: Certificate): BasicConstraints {
    var bc := t.basicConstraints;
    if !t.basicConstraintsValid then BasicConstraints(false, 0, false)
    else if bc.isCA && bc.maxPathLenSet then bc
    else BasicConstraints(bc.isCA, 0, false)
  }

  /** The fields that reading back the extensions of template t adds to c, given the names read. */
  function Extended(c: Certificate, t: Certificate, pub: PublicKey, signer: PrivateKey, sans: SANs): Certificate {
    c.(basicConstraints := ReadConstraints(t),
       basicConstraintsValid := t.basicConstraintsValid,
       keyUsage := t.keyUsage,
       extKeyUsage := t.extKeyUsage,
       subjectKeyId := Some(SubjectKeyIdOf(t, pub)),
       authorityKeyId := Some(AuthorityKeyIdOf(t, signer)),
       sans := sans)
  }

  function ReadSANs(t: Certificate): Result<SANs>
    requires Extensible(t)
  {
    if t.sans.Empty() then Ok(NO_SANS)
    else SubjectAltNames.ParsedSANs(SubjectAltNames.MarshalledSANs(t.sans).value)
  }

  /** The identifiers of the extensions that the template's fields ask for. */
  function WrittenIds(t: Certificate): set<ExtensionId> {
    (if t.basicConstraintsValid then {BasicConstraintsId} else {})
    + (if t.keyUsage != 0 then {KeyUsageId} else {})
    + (if |t.extKeyUsage| > 0 then {ExtKeyUsageId} else {})
    + {SubjectKeyIdId, AuthorityKeyIdId}
    + (if t.sans.Empty() then {} else {SubjectAltNameId})
  }

  lemma ApplySANs(c: Certificate, t: Certificate, subjectEmpty: bool, rest: seq<Extension>, seen: set<ExtensionId>)
    requires Extensible(t) && c.sans == NO_SANS && SubjectAltNameId !in seen
    ensures ApplyExtensions(c, SANExt(t, subjectEmpty) + rest, seen)
            == if ReadSANs(t).Err? then Err(ReadSANs(t).error)
               else ApplyExtensions(c.(sans := ReadSANs(t).value), rest,
                                    seen + if t.sans.Empty() then {} else {SubjectAltNameId})
  {
    hide SubjectAltNames.ParsedSANs, SubjectAltNames.MarshalledSANs, ApplyExtensions;
    if t.sans.Empty() {
      assert [] + rest == rest && seen + {} == seen;
    } else {
      var e := SANExt(t, subjectEmpty)[0];
      assert SANExt(t, subjectEmpty) == [e];
      ApplyFirst(c, e, rest, seen);
    }
  }

  lemma ApplyKeyIds(c: Certificate, t: Certificate, pub: PublicKey, signer: PrivateKey, rest: seq<Extension>,
                    seen: set<ExtensionId>)
    requires SubjectKeyIdId !in seen && AuthorityKeyIdId !in seen
    ensures ApplyExtensions(c, KeyIdExts(t, pub, signer) + rest, seen)
            == ApplyExtensions(c.(subjectKeyId := Some(SubjectKeyIdOf(t, pub)),
                                  authorityKeyId := Some(AuthorityKeyIdOf(t, signer))),
                               rest, seen + {SubjectKeyIdId, AuthorityKeyIdId})
  {
    var ids := KeyIdExts(t, pub, signer);
    assert ids + rest == [ids[0]] + ([ids[1]] + rest);
    ApplyFirst(c, ids[0], [ids[1]] + rest, seen);
    var c1 := c.(subjectKeyId := Some(SubjectKeyIdOf(t, pub)));
    ApplyFirst(c1, ids[1], rest, seen + {SubjectKeyIdId});
    assert seen + {SubjectKeyIdId} + {AuthorityKeyIdId} == seen + {SubjectKeyIdId, AuthorityKeyIdId};
  }

  /** One optional extension. */
  lemma ApplyOptional(c: Certificate, seg: seq<Extension>, rest: seq<Extension>, seen: set<ExtensionId>,
                      c': Certificate)
    requires |seg| <= 1
    requires seg == [] ==> c' == c
    requires seg != [] ==> seg[0].id !in seen && ApplyExtension(c, seg[0]) == Ok(c')
    ensures ApplyExtensions(c, seg + rest, seen)
            == ApplyExtensions(c', rest, seen + if seg == [] then {} else {seg[0].id})
  {
    hide ApplyExtension, ApplyExtensions;
    if seg == [] {
      assert seg + rest == rest && seen + {} == seen;
    } else {
      assert seg == [seg[0]];
      ApplyFirst(c, seg[0], rest, seen);
    }
  }

  lemma BasicConstraintsReadBack(c: Certificate, t: Certificate)
    requires Extensible(t)
    requires !c.basicConstraintsValid && c.basicConstraints == BasicConstraints(false, 0, false)
    ensures var c' := c.(basicConstraints := ReadConstraints(t), basicConstraintsValid := t.basicConstraintsValid);
            var seg := BasicConstraintsExt(t);
            if seg == [] then c' == c else ApplyExtension(c, seg[0]) == Ok(c')
  {
    hide MarshalBasicConstraints, ParseBasicConstraints;
    BasicConstraintsRoundTrip(t.basicConstraints);
  }

  lemma ApplyUsages(c: Certificate, t: Certificate, rest: seq<Extension>)
    requires Extensible(t)
    requires !c.basicConstraintsValid && c.basicConstraints == BasicConstraints(false, 0, false)
    requires c.keyUsage == 0 && c.extKeyUsage == []
    ensures ApplyExtensions(c, BasicConstraintsExt(t) + (KeyUsageExt(t) + (ExtKeyUsageExt(t) + rest)), {})
            == ApplyExtensions(c.(basicConstraints := ReadConstraints(t),
                                  basicConstraintsValid := t.basicConstraintsValid,
                                  keyUsage := t.keyUsage, extKeyUsage := t.extKeyUsage),
                               rest, (if t.basicConstraintsValid then {BasicConstraintsId} else {})
                                     + (if t.keyUsage != 0 then {KeyUsageId} else {})
                                     + (if |t.extKeyUsage| > 0 then {ExtKeyUsageId} else {}))
  {
    hide ApplyExtensions, ReadConstraints, MarshalBasicConstraints, ParseBasicConstraints;
    var c1 := c.(basicConstraints := ReadConstraints(t), basicConstraintsValid := t.basicConstraintsValid);
    var c2 := c1.(keyUsage := t.keyUsage);
    var c3 := c2.(extKeyUsage := t.extKeyUsage);
    var s1 := if t.basicConstraintsValid then {BasicConstraintsId} else {};
    var s2 := s1 + if t.keyUsage != 0 then {KeyUsageId} else {};
    BasicConstraintsReadBack(c, t);
    FilterKnown(t.extKeyUsage);
    assert ExtKeyUsageExt(t) == [] ==> t.extKeyUsage == [];
    ApplyOptional(c, BasicConstraintsExt(t), KeyUsageExt(t) + (ExtKeyUsageExt(t) + rest), {}, c1);
    assert {} + s1 == s1;
    ApplyOptional(c1, KeyUsageExt(t), ExtKeyUsageExt(t) + rest, s1, c2);
    ApplyOptional(c2, ExtKeyUsageExt(t), rest, s2, c3);
  }

  predicate Fresh(c: Certificate) {
    && !c.basicConstraintsValid && c.basicConstraints == BasicConstraints(false, 0, false)
    && c.keyUsage == 0 && c.extKeyUsage == [] && c.sans == NO_SANS && c.unhandledExtensions == []
  }

  /** Reading back the written extension list restores the template's fields, in every
      combination of present and absent extensions, and then goes on with the template's own list. */
  lemma ExtensionsReadBack(c: Certificate, t: Certificate, pub: PublicKey, signer: PrivateKey, subjectEmpty: bool)
    requires Extensions(t, pub, signer, subjectEmpty).Ok? && Fresh(c)
    ensures ApplyExtensions(c, Extensions(t, pub, signer, subjectEmpty).value, {})
            == if ReadSANs(t).Err? then Err(ReadSANs(t).error)
               else ApplyExtensions(Extended(c, t, pub, signer, ReadSANs(t).value), t.unhandledExtensions,
                                    WrittenIds(t))
  {
    hide ApplyExtensions, ReadSANs, ReadConstraints, BasicConstraintsExt, KeyUsageExt, ExtKeyUsageExt, KeyIdExts,
         SANExt, SubjectKeyIdOf, AuthorityKeyIdOf;
    var last := SANExt(t, subjectEmpty) + t.unhandledExtensions;
    var rest := KeyIdExts(t, pub, signer) + last;
    assert Extensions(t, pub, signer, subjectEmpty).value
           == BasicConstraintsExt(t) + (KeyUsageExt(t) + (ExtKeyUsageExt(t) + rest));
    ApplyUsages(c, t, rest);
    var seen := (if t.basicConstraintsValid then {BasicConstraintsId} else {})
                + (if t.keyUsage != 0 then {KeyUsageId} else {})
                + (if |t.extKeyUsage| > 0 then {ExtKeyUsageId} else {});
    var c1 := c.(basicConstraints := ReadConstraints(t), basicConstraintsValid := t.basicConstraintsValid,
                 keyUsage := t.keyUsage, extKeyUsage := t.extKeyUsage);
    ApplyKeyIds(c1, t, pub, signer, last, seen);
    var c2 := c1.(subjectKeyId := Some(SubjectKeyIdOf(t, pub)), authorityKeyId := Some(AuthorityKeyIdOf(t, signer)));
    ApplySANs(c2, t, subjectEmpty, t.unhandledExtensions, seen + {SubjectKeyIdId, AuthorityKeyIdId});
  }

  /** With uninterpreted extensions of the template's own, the whole list reads back exactly when
      the names do and those extensions are not critical and distinct. */
  lemma ExtensionsRoundTrip(c: Certificate, t: Certificate, pub: PublicKey, signer: PrivateKey, subjectEmpty: bool)
    requires Extensions(t, pub, signer, subjectEmpty).Ok? && Fresh(c) && Uninterpreted(t.unhandledExtensions)
    ensures var read := ApplyExtensions(c, Extensions(t, pub, signer, subjectEmpty).value, {});
            if ReadSANs(t).Ok? && PlainExtensions(t.unhandledExtensions) then
              read == Ok(Extended(c, t, pub, signer, ReadSANs(t).value).(unhandledExtensions := t.unhandledExtensions))
            else read.Err?
  {
    hide ReadSANs, ReadConstraints, ApplyExtensions;
    ExtensionsReadBack(c, t, pub, signer, subjectEmpty);
    if ReadSANs(t).Ok? {
      var c' := Extended(c, t, pub, signer, ReadSANs(t).value);
      ApplyUninterpreted(c', t.unhandledExtensions, WrittenIds(t));
      assert [] + t.unhandledExtensions == t.unhandledExtensions;
    }
  }

  lemma {:induction false} ExtensionsNeverPanic(c: Certificate, exts: seq<Extension>, seen: set<ExtensionId>)
    ensures ApplyExtensions(c, exts, seen) != Err(Panic)
    decreases |exts|
  {
    hide ApplyExtension;
    if exts != [] {
      ExtensionNeverPanics(c, exts[0]);
      if ApplyExtension(c, exts[0]).Ok? {
        ExtensionsNeverPanic(ApplyExtension(c, exts[0]).value, exts[1..], seen + {exts[0].id});
      }
    }
  }

  lemma ExtensionNeverPanics(c: Certificate, e: Extension)
    ensures ApplyExtension(c, e) != Err(Panic)
  {
    hide ReadElement, ReadFlag, ReadPathLen;
    if e.value.RawValue? {
      NamesNeverPanic(e.value.bytes);
    }
  }

  lemma NamesNeverPanic(der: Bytes)
    ensures SubjectAltNames.ParsedSANs(der) != Err(Panic)
  {
    hide ReadElement, ReadElements, SubjectAltNames.AddNames;
    var outer := ReadElement(der);
    if outer.Some? && ReadElements(outer.value.0.content).Some? {
      SubjectAltNames.AddNamesError(NO_SANS, ReadElements(outer.value.0.content).value);
    }
  }

  /** What CreateCertificate writes, ParseCertificate reads back: the names and times it signed,
      the signature, and the template's fields. It fails exactly where bytes that a caller gave as
      a name are none, the alternative names do not read back, or an extension of the template's
      own is critical or repeated. It panics exactly where reading such a name does. */
  lemma CertificateRoundTrip(t: Certificate, parent: Option<Certificate>, pub: PublicKey, signer: PrivateKey)
    requires Uninterpreted(t.unhandledExtensions)
    requires CreateCertificate(t, parent, pub, signer).Ok?
    ensures var der := CreateCertificate(t, parent, pub, signer).value;
            var subject := NameBytes(t.rawSubject, t.subject).value;
            var issuer := IssuerBytes(subject, parent).value;
            var issuerName, subjectName := Rdn.ParsedName(issuer), Rdn.ParsedName(subject);
            && (ParsedCertificate(der).Ok? <==>
                  && issuerName.Ok? && subjectName.Ok?
                  && ReadSANs(t).Ok? && PlainExtensions(t.unhandledExtensions))
            && (ParsedCertificate(der).Ok? ==>
                  ParsedCertificate(der).value
                  == Extended(Bare(der, issuerName.value, subjectName.value,
                                   Truncate(t.notBefore), Truncate(t.notAfter)),
                              t, pub, signer, ReadSANs(t).value).(unhandledExtensions := t.unhandledExtensions))
            && (ParsedCertificate(der) == Err(Panic) <==>
                  issuerName == Err(Panic) || (issuerName.Ok? && subjectName == Err(Panic)))
            && (t.rawSubject == [] ==> subjectName == Ok(t.subject))
            && (parent.Some? && parent.value.rawSubject == [] ==> issuerName == Ok(parent.value.subject))
            && der.tbs.subject == subject && der.tbs.issuer == issuer
            && der.tbs.publicKey == pub && der.tbs.serialNumber == t.serialNumber
            && der.signature == Signed(PublicOf(signer), der.tbs)
            && der.signatureAlgorithm == t.signatureAlgorithm == signer.algorithm
  {
    hide Rdn.RdnSequence, Rdn.ParsedName, ApplyExtensions, ReadSANs, Extensions, Extended, Truncate,
         SubjectAltNames.MarshalledSANs, MarshalTime, ParseTime, PlainExtensions;
    var der := CreateCertificate(t, parent, pub, signer).value;
    var subject := NameBytes(t.rawSubject, t.subject).value;
    var issuer := IssuerBytes(subject, parent).value;
    TimeRoundTrip(t.notBefore);
    TimeRoundTrip(t.notAfter);
    if t.rawSubject == [] {
      Rdn.NameRoundTrip(t.subject);
    }
    if parent.Some? && parent.value.rawSubject == [] {
      Rdn.NameRoundTrip(parent.value.subject);
    }
    if Rdn.ParsedName(issuer).Ok? && Rdn.ParsedName(subject).Ok? {
      var bare := Bare(der, Rdn.ParsedName(issuer).value, Rdn.ParsedName(subject).value,
                       Truncate(t.notBefore), Truncate(t.notAfter));
      ExtensionsRoundTrip(bare, t, pub, signer, subject == EMPTY_RDN_SEQUENCE);
      ExtensionsNeverPanic(bare, der.tbs.extensions, {});
    }
  }

  /** Field by field: names, times and key as they were given, the key identifiers those of the template
      or else derived from the two keys, and a path length only for a CA that sets one. */
  lemma CertificateFields(t: Certificate, parent: Option<Certificate>, pub: PublicKey, signer: PrivateKey)
    requires Uninterpreted(t.unhandledExtensions) && CreateCertificate(t, parent, pub, signer).Ok?
    requires ParsedCertificate(CreateCertificate(t, parent, pub, signer).value).Ok?
    ensures var der := CreateCertificate(t, parent, pub, signer).value;
            var c := ParsedCertificate(der).value;
            && c.raw == der && c.rawTbs == der.tbs && c.publicKey == pub && c.serialNumber == t.serialNumber
            && c.signatureAlgorithm == t.signatureAlgorithm == signer.algorithm
            && c.signature == Signed(PublicKey(signer.algorithm, signer.seed), c.rawTbs)
            && (if t.rawSubject == [] then c.subject == t.subject && Rdn.RdnSequence(t.subject) == Ok(c.rawSubject)
                else c.rawSubject == t.rawSubject && Rdn.ParsedName(t.rawSubject) == Ok(c.subject))
            && (parent.None? ==> c.issuer == c.subject && c.rawIssuer == c.rawSubject)
            && (parent.Some? && parent.value.rawSubject != [] ==>
                  c.rawIssuer == parent.value.rawSubject && Rdn.ParsedName(c.rawIssuer) == Ok(c.issuer))
            && (parent.Some? && parent.value.rawSubject == [] ==>
                  c.issuer == parent.value.subject && Rdn.RdnSequence(c.issuer) == Ok(c.rawIssuer))
            && c.notBefore == Truncate(t.notBefore) && c.notAfter == Truncate(t.notAfter)
            && c.basicConstraintsValid == t.basicConstraintsValid
            && (c.basicConstraints.isCA <==> t.basicConstraintsValid && t.basicConstraints.isCA)
            && (c.basicConstraints.maxPathLenSet <==> c.basicConstraints.isCA && t.basicConstraints.maxPathLenSet)
            && c.basicConstraints.maxPathLen
               == (if c.basicConstraints.maxPathLenSet then t.basicConstraints.maxPathLen else 0)
            && c.keyUsage == t.keyUsage && c.extKeyUsage == t.extKeyUsage
            && c.subjectKeyId == (if t.subjectKeyId.Some? then t.subjectKeyId else Some(KeyIdentifier(pub)))
            && c.authorityKeyId == (if t.authorityKeyId.Some? then t.authorityKeyId
                                    else Some(KeyIdentifier(PublicKey(signer.algorithm, signer.seed))))
            && c.sans == (if t.sans.Empty() then NO_SANS else SubjectAltNames.Normalized(t.sans))
            && c.unhandledExtensions == t.unhandledExtensions
  {
    hide Rdn.RdnSequence, Rdn.ParsedName, ApplyExtensions, Extensions, Truncate, SubjectAltNames.MarshalledSANs,
         SubjectAltNames.ParsedSANs, MarshalTime, ParseTime, ParsedCertificate, PlainExtensions,
         SubjectAltNames.Normalized;
    CertificateRoundTrip(t, parent, pub, signer);
    CreatedExtensions(t, parent, pub, signer);
    if !t.sans.Empty() {
      SubjectAltNames.SANsRoundTrip(t.sans);
    }
  }
}
