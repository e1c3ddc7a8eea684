/** The two-level hierarchy: what every CA row and every certificate row satisfies, and why
    signing establishes it. */
module Hierarchy {
  import opened Prelude
  import opened X509
  import opened Certificates
  import opened Profiles
  import opened Stores
  import opened Keystores
  import opened EngineStates
  import opened PathValidation
  import opened SubjectAltNames
  import opened Times
  import C = CreateCalls
  import I = IssueCalls
  import Names
  import RevokeCalls
  import RevocationLists
  import Rdn

  type CAs = map<string, CARow>

  /** Name, signature and validity chaining of a certificate to its issuer. */
  predicate IssuedUnder(child: Certificate, issuer: Certificate) {
    && child.rawIssuer == issuer.rawSubject
    && SignedBy(child, issuer)
    && child.notAfter <= issuer.notAfter
  }

  /** The extensions of a CA certificate: these and no other, as they are signed. */
  predicate CAExtensions(c: Certificate, pathLen: Byte) {
    && c.rawTbs.TbsDer? && c.signature.Signed?
    && c.rawTbs.extensions == [
         Extension(BasicConstraintsId, true, RawValue([0x30, 0x06, 0x01, 0x01, 0xFF, 0x02, 0x01, pathLen])),
         Extension(KeyUsageId, true, KeyUsageValue(0x0060)),
         Extension(SubjectKeyIdId, false, KeyIdValue(KeyIdentifier(c.publicKey))),
         Extension(AuthorityKeyIdId, false, AuthorityKeyIdValue(KeyIdentifier(c.signature.signer)))]
  }

  /** Those of an end-entity certificate. The alternative names are there when it has any, and
      critical when its subject is the empty sequence. */
  predicate LeafExtensions(c: Certificate) {
    && c.rawTbs.TbsDer? && c.signature.Signed?
    && var exts, own := c.rawTbs.extensions, [
         Extension(BasicConstraintsId, true, RawValue([0x30, 0x00])),
         Extension(KeyUsageId, true, KeyUsageValue(0x0001)),
         Extension(ExtKeyUsageId, false, ExtKeyUsageValue(c.extKeyUsage)),
         Extension(SubjectKeyIdId, false, KeyIdValue(KeyIdentifier(c.publicKey))),
         Extension(AuthorityKeyIdId, false, AuthorityKeyIdValue(KeyIdentifier(c.signature.signer)))];
    if c.sans.Empty() then exts == own
    else
      && |exts| == 6 && exts[..5] == own
      && exts[5].id == SubjectAltNameId
      && (exts[5].critical <==> c.rawSubject == [0x30, 0x00])
      && exts[5].value.RawValue? && ParsedSANs(exts[5].value.bytes) == Ok(c.sans)
  }

  predicate CACertOk(c: Certificate, isRoot: bool) {
    && c.basicConstraintsValid
    && c.basicConstraints == BasicConstraints(true, ProfileOf(isRoot).pathLen, true)
    && c.keyUsage == CA_KEY_USAGE && CAExtensions(c, if isRoot then 1 else 0)
    && c.publicKey.algorithm in ProfileOf(isRoot).allowedAlgorithms
    && c.rawSubject != [] && Rdn.ParsedName(c.rawSubject).Ok?
    && ParsedCertificate(c.raw) == Ok(c)
  }

  /** A root signs itself; an intermediate names an existing root that issued it. */
  predicate CAOk(cas: CAs, row: CARow) {
    && ValidKeyId(row.id) && ValidKeyId(row.keyId) && row.status == ACTIVE
    && row.algorithm == row.cert.publicKey.algorithm
    && CACertOk(row.cert, row.parentId == "")
    && (row.parentId == "" ==> IssuedUnder(row.cert, row.cert))
    && (row.parentId != "" ==>
          && row.parentId in cas && cas[row.parentId].parentId == ""
          && IssuedUnder(row.cert, cas[row.parentId].cert))
  }

  /** The status and the revocation columns go together. */
  predicate StatusOk(row: CertRow) {
    if row.status == REVOKED then
      row.revokedAt.Some? && row.revokedAt.value % SECOND == 0
      && row.revocationReason.Some? && RevokeCalls.IsReason(row.revocationReason.value)
    else row.status == VALID && row.revokedAt.None? && row.revocationReason.None?
  }

  predicate LeafCertOk(c: Certificate) {
    && c.basicConstraintsValid && !c.basicConstraints.isCA && LeafExtensions(c)
    && c.serialNumber > 0
    && c.publicKey.algorithm in END_ENTITY_ALGORITHMS
    && ParsedCertificate(c.raw) == Ok(c)
  }

  /** An end-entity row hangs off an intermediate that issued it. */
  predicate LeafOk(cas: CAs, row: CertRow) {
    && row.caId in cas && cas[row.caId].parentId != ""
    && LeafCertOk(row.cert)
    && IssuedUnder(row.cert, cas[row.caId].cert)
    && row.serial == RevocationLists.SerialHex(row.cert.serialNumber)
    && row.algorithm == row.cert.publicKey.algorithm
    && row.notBefore == row.cert.notBefore && row.notAfter == row.cert.notAfter
    && (row.keyId != "" ==> ValidKeyId(row.keyId))
    && StatusOk(row)
  }

  predicate HasCA(cas: CAs, row: CARow) {
    row.id in cas && cas[row.id] == row
  }

  // ---------------------------------------------------------------- CA certificates

  predicate ParentOk(cas: CAs, req: C.CreateRequest, parent: Option<CARow>) {
    && (parent.None? <==> req.parentId == "")
    && (parent.Some? ==> HasCA(cas, parent.value) && parent.value.id == req.parentId && parent.value.parentId == "")
  }

  predicate PlanOk(cas: CAs, plan: C.CAPlan) {
    && ParentOk(cas, plan.req, plan.parent)
    && plan.algorithm in ProfileOf(plan.parent.None?).allowedAlgorithms
    && 0 < plan.days <= ProfileOf(plan.parent.None?).maxDays
    && plan.now % SECOND == 0
    && plan.notBefore == plan.now - CLOCK_SKEW
    && plan.notAfter == AddDays(plan.now, plan.days)
    && (plan.parent.Some? ==> plan.notAfter <= plan.parent.value.cert.notAfter)
  }

  lemma WholeSeconds(t: int, days: int)
    requires t % SECOND == 0
    ensures Truncate(t - CLOCK_SKEW) == t - CLOCK_SKEW
    ensures Truncate(AddDays(t, days)) == AddDays(t, days)
  {
  }

  /** A created certificate's times can be written, and the second is the later. */
  lemma CreatedTimes(t: Certificate, parent: Option<Certificate>, pub: PublicKey, signer: PrivateKey)
    requires CreateCertificate(t, parent, pub, signer).Ok?
    ensures MarshalTime(t.notBefore).Ok? && MarshalTime(t.notAfter).Ok? && t.notBefore < t.notAfter
  {
    hide MarshalTime, NameBytes, IssuerBytes, Extensions;
  }

  /** From a writable moment, the validity of a CA does not wrap. */
  lemma CADaysExact(now: int, days: int)
    requires MarshalTime(now - CLOCK_SKEW).Ok? && now % SECOND == 0 && 0 < days <= ROOT_VALIDITY_DAYS
    ensures AddDays(now, days) == now + days * DAY
  {
    hide MarshalTime;
    WritableBounds(now - CLOCK_SKEW);
    AddDaysExact(now, days);
  }

  /** Between writable moments, AddDate adds its wrapped span. */
  lemma LeafSpan(now: int, days: int)
    requires MarshalTime(now - CLOCK_SKEW).Ok? && MarshalTime(AddDays(now, days)).Ok? && now % SECOND == 0
    ensures AddDays(now, days) - now == AddedSpan(days)
  {
    hide MarshalTime, AddDays, AddedSpan;
    WritableBounds(now - CLOCK_SKEW);
    WritableBounds(AddDays(now, days));
    AddedSpanExact(now, days);
  }

  /** The fields of a freshly read CA certificate. */
  lemma CACertificateFields(plan: C.CAPlan, priv: PrivateKey, signer: PrivateKey, serial: int)
    requires plan.now % SECOND == 0 && plan.notBefore == plan.now - CLOCK_SKEW
    requires plan.notAfter == AddDays(plan.now, plan.days) && 0 < plan.days <= ROOT_VALIDITY_DAYS
    requires plan.parent.Some? ==> CACertOk(plan.parent.value.cert, true)
    requires var t := C.CATemplate(plan, signer.algorithm, serial);
             && CreateCertificate(t, C.ParentCert(plan), PublicOf(priv), signer).Ok?
             && ParsedCertificate(CreateCertificate(t, C.ParentCert(plan), PublicOf(priv), signer).value).Ok?
    ensures var t := C.CATemplate(plan, signer.algorithm, serial);
            var c := ParsedCertificate(CreateCertificate(t, C.ParentCert(plan), PublicOf(priv), signer).value).value;
            && c.basicConstraintsValid
            && c.basicConstraints == BasicConstraints(true, ProfileOf(plan.parent.None?).pathLen, true)
            && c.keyUsage == CA_KEY_USAGE && CAExtensions(c, if plan.parent.None? then 1 else 0)
            && c.publicKey == PublicOf(priv)
            && c.rawSubject != [] && Rdn.ParsedName(c.rawSubject).Ok?
            && ParsedCertificate(c.raw) == Ok(c)
            && c.notBefore == plan.notBefore && c.notAfter == plan.notAfter == plan.now + plan.days * DAY
            && c.signatureAlgorithm == signer.algorithm
            && c.signature == Signed(PublicOf(signer), c.rawTbs)
            && c.rawIssuer == if plan.parent.None? then c.rawSubject else plan.parent.value.cert.rawSubject
  {
    hide Rdn.RdnSequence, Rdn.ParsedName, ApplyExtensions, Truncate, ParsedCertificate, CreateCertificate, AddDays,
         MarshalTime;
    var t := C.CATemplate(plan, signer.algorithm, serial);
    CertificateRoundTrip(t, C.ParentCert(plan), PublicOf(priv), signer);
    WholeSeconds(plan.now, plan.days);
    CreatedTimes(t, C.ParentCert(plan), PublicOf(priv), signer);
    CADaysExact(plan.now, plan.days);
    EncodedNameIsName(t.subject);
    CreatedNameIsWritten(t, C.ParentCert(plan), PublicOf(priv), signer);
    assert CA_KEY_USAGE == ProfileOf(plan.parent.None?).keyUsage;
    CreatedCAExtensions(t, C.ParentCert(plan), PublicOf(priv), signer);
  }

  lemma CreatedCAExtensions(t: Certificate, parent: Option<Certificate>, pub: PublicKey, signer: PrivateKey)
    requires CreateCertificate(t, parent, pub, signer).Ok?
    requires t.basicConstraintsValid && t.basicConstraints.isCA && t.basicConstraints.maxPathLenSet
    requires 0 <= t.basicConstraints.maxPathLen < 128 && t.keyUsage == 0x0060 && t.extKeyUsage == []
    requires t.sans == NO_SANS && t.unhandledExtensions == [] && t.subjectKeyId.None? && t.authorityKeyId.None?
    ensures var tbs := CreateCertificate(t, parent, pub, signer).value.tbs;
            && tbs.TbsDer?
            && tbs.extensions == [
                 Extension(BasicConstraintsId, true,
                           RawValue([0x30, 0x06, 0x01, 0x01, 0xFF, 0x02, 0x01, t.basicConstraints.maxPathLen])),
                 Extension(KeyUsageId, true, KeyUsageValue(0x0060)),
                 Extension(SubjectKeyIdId, false, KeyIdValue(KeyIdentifier(pub))),
                 Extension(AuthorityKeyIdId, false, AuthorityKeyIdValue(KeyIdentifier(PublicOf(signer))))]
  {
    hide CreateCertificate, MarshalBasicConstraints, Extensible, WrittenFor;
    CreatedExtensions(t, parent, pub, signer);
    ConstraintsBytes(t.basicConstraints);
  }

  lemma NoNamesReadBack(t: Certificate)
    requires Extensible(t) && ReadSANs(t).Ok?
    ensures ReadSANs(t).value.Empty() <==> t.sans.Empty()
    ensures !t.sans.Empty() ==> ParsedSANs(MarshalledSANs(t.sans).value) == ReadSANs(t)
  {
    hide MarshalledSANs, ParsedSANs, MarshalBasicConstraints, KnownPurposes;
    if !t.sans.Empty() {
      SANsRoundTrip(t.sans);
    }
  }

  lemma CreatedLeafExtensions(t: Certificate, parent: Option<Certificate>, pub: PublicKey, signer: PrivateKey)
    requires CreateCertificate(t, parent, pub, signer).Ok?
    requires t.basicConstraintsValid && !t.basicConstraints.isCA && t.keyUsage == 0x0001 && t.extKeyUsage != []
    requires t.unhandledExtensions == [] && t.subjectKeyId.None? && t.authorityKeyId.None?
    ensures var tbs := CreateCertificate(t, parent, pub, signer).value.tbs;
            var own := [
              Extension(BasicConstraintsId, true, RawValue([0x30, 0x00])),
              Extension(KeyUsageId, true, KeyUsageValue(0x0001)),
              Extension(ExtKeyUsageId, false, ExtKeyUsageValue(t.extKeyUsage)),
              Extension(SubjectKeyIdId, false, KeyIdValue(KeyIdentifier(pub))),
              Extension(AuthorityKeyIdId, false, AuthorityKeyIdValue(KeyIdentifier(PublicOf(signer))))];
            && tbs.TbsDer? && Extensible(t)
            && tbs.extensions
               == if t.sans.Empty() then own
                  else own + [Extension(SubjectAltNameId, tbs.subject == [0x30, 0x00],
                                        RawValue(MarshalledSANs(t.sans).value))]
  {
    hide CreateCertificate, MarshalBasicConstraints, KnownPurposes, WrittenFor, MarshalledSANs;
    CreatedExtensions(t, parent, pub, signer);
    ConstraintsBytes(t.basicConstraints);
  }

  lemma CreatedNameIsWritten(t: Certificate, parent: Option<Certificate>, pub: PublicKey, signer: PrivateKey)
    requires t.rawSubject == [] && CreateCertificate(t, parent, pub, signer).Ok?
    ensures Rdn.RdnSequence(t.subject).Ok?
  {
    hide Rdn.RdnSequence, Extensions;
  }

  lemma EncodedNameIsName(n: Names.Name)
    ensures Rdn.RdnSequence(n).Ok? ==>
              Rdn.RdnSequence(n).value != [] && Rdn.ParsedName(Rdn.RdnSequence(n).value) == Ok(n)
  {
    if Rdn.RdnSequence(n).Ok? {
      Rdn.NameRoundTrip(n);
      hide Rdn.RdnsOf;
    }
  }

  /** Signing with the right key yields a row that belongs in the table. */
  lemma SignedCAOk(cas: CAs, plan: C.CAPlan, keyId: string, priv: PrivateKey, signer: PrivateKey, serial: int, env: Env)
    requires PlanOk(cas, plan) && EnvOk(env) && ValidKeyId(keyId) && priv.algorithm == plan.algorithm
    requires plan.parent.None? ==> signer == priv
    requires plan.parent.Some? ==>
               CACertOk(plan.parent.value.cert, true) && PublicOf(signer) == plan.parent.value.cert.publicKey
    ensures var call := C.SignCA(plan, keyId, priv, signer, serial, env);
            && (call.CreateUndo? || call.CreateInsert?)
            && (call.CreateUndo? ==> call.keyId == keyId)
            && (call.CreateInsert? ==>
                  && CAOk(cas, call.row) && call.row.keyId == keyId && call.row.cert.publicKey == PublicOf(priv)
                  && call.row.parentId == plan.req.parentId
                  && call.row.cert.notBefore == plan.notBefore
                  && call.row.cert.notAfter == plan.notAfter == plan.now + plan.days * DAY)
  {
    hide CreateCertificate, ParsedCertificate, Rdn.ParsedName, AddDays;
    var call := C.SignCA(plan, keyId, priv, signer, serial, env);
    if call.CreateInsert? {
      CACertificateFields(plan, priv, signer, serial);
    }
  }

  // ---------------------------------------------------------------- end-entity certificates

  predicate OrderOk(cas: CAs, order: I.Order) {
    && HasCA(cas, order.ca) && order.ca.parentId != ""
    && order.algorithm in END_ENTITY_ALGORITHMS
    && (order.req.csr.Some? ==> order.req.csr.value.publicKey.algorithm == order.algorithm)
    && (order.req.csr.Some? ==> !order.req.storeKey)
    && order.days > 0 && order.purposes != []
  }

  predicate WindowOk(order: I.Order, now: int, notBefore: int, notAfter: int) {
    && now % SECOND == 0
    && notBefore == now - CLOCK_SKEW
    && notAfter == AddDays(now, order.days)
    && notAfter <= order.ca.cert.notAfter
  }

  lemma LeafFields(order: I.Order, now: int, notBefore: int, notAfter: int, signer: PrivateKey, serial: int, seed: nat)
    requires WindowOk(order, now, notBefore, notAfter) && order.purposes != []
    requires CACertOk(order.ca.cert, false)
    requires PublicOf(signer) == order.ca.cert.publicKey
    requires var t := I.LeafTemplate(order, notBefore, notAfter, serial);
             && CreateCertificate(t, Some(order.ca.cert), I.LeafKey(order, seed), signer).Ok?
             && ParsedCertificate(CreateCertificate(t, Some(order.ca.cert), I.LeafKey(order, seed), signer).value).Ok?
    ensures var t := I.LeafTemplate(order, notBefore, notAfter, serial);
            var der := CreateCertificate(t, Some(order.ca.cert), I.LeafKey(order, seed), signer).value;
            var c := ParsedCertificate(der).value;
            && c.basicConstraintsValid && !c.basicConstraints.isCA
            && c.serialNumber == serial
            && c.publicKey == I.LeafKey(order, seed)
            && ParsedCertificate(c.raw) == Ok(c)
            && c.notBefore == notBefore && c.notAfter == notAfter
            && IssuedUnder(c, order.ca.cert)
            && LeafExtensions(c)
  {
    hide Rdn.RdnSequence, Rdn.ParsedName, ApplyExtensions, Truncate, ParsedCertificate, CreateCertificate, ReadSANs,
         AddDays;
    var t := I.LeafTemplate(order, notBefore, notAfter, serial);
    CertificateRoundTrip(t, Some(order.ca.cert), I.LeafKey(order, seed), signer);
    WholeSeconds(now, order.days);
    CreatedNameIsWritten(t, Some(order.ca.cert), I.LeafKey(order, seed), signer);
    CreatedLeafExtensions(t, Some(order.ca.cert), I.LeafKey(order, seed), signer);
    NoNamesReadBack(t);
  }

  /** The calls that signing a leaf can lead to, and the row they carry. */
  lemma SignedLeafOk(cas: CAs, order: I.Order, now: int, notBefore: int, notAfter: int, signer: PrivateKey, env: Env)
    requires OrderOk(cas, order) && WindowOk(order, now, notBefore, notAfter) && EnvOk(env)
    requires CACertOk(order.ca.cert, false) && PublicOf(signer) == order.ca.cert.publicKey
    ensures var call := I.SignLeaf(order, notBefore, notAfter, signer, env);
            && (call.IssueDone? || call.IssueInsert? || call.IssueStoreKey?)
            && (call.IssueDone? ==> call.result.Err?)
            && (call.IssueInsert? || call.IssueStoreKey? ==>
                  && LeafOk(cas, call.row) && call.ca == order.ca && call.row.status == VALID
                  && call.row.caId == order.ca.id
                  && call.row.notBefore == notBefore && call.row.notAfter == notAfter)
            && (call.IssueInsert? ==> call.row.keyId == "")
            && (call.IssueStoreKey? ==> ValidKeyId(call.row.keyId) && call.row.cert.publicKey == PublicOf(call.priv))
  {
    hide CreateCertificate, ParsedCertificate, RevocationLists.SerialHex, AddDays;
    var call := I.SignLeaf(order, notBefore, notAfter, signer, env);
    if call.IssueInsert? || call.IssueStoreKey? {
      LeafFields(order, now, notBefore, notAfter, signer, env.serial.value, env.seed);
    }
  }
}
