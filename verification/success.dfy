/** When the calls succeed: conditions on the request, the shared state and the environment that
    hold before the call if and only if the call, run with nothing in between, succeeds. */
module Successes {
  import opened Prelude
  import opened Names
  import opened X509
  import opened Der
  import opened Times
  import opened Certificates
  import opened Profiles
  import opened Stores
  import opened Keystores
  import opened EngineStates
  import opened Hierarchy
  import opened Snapshots
  import opened Invariants
  import opened Preservation
  import opened AloneRuns
  import opened Caching
  import opened SubjectAltNames
  import opened RevocationLists
  import opened CrlCalls
  import opened Leaks
  import C = CreateCalls
  import I = IssueCalls
  import NameText
  import Rdn

  // ---------------------------------------------------------------- certificates

  /** The years that the two time forms reach. */
  predicate Writable(t: int) {
    YearStart(0) <= Truncate(t) < YearStart(10000)
  }

  predicate WindowWritable(notBefore: int, notAfter: int) {
    notBefore < notAfter && Writable(notBefore) && Writable(notAfter)
  }

  /** No values of 2 GiB, and an encoding that is a slice. */
  predicate NameWritable(n: Name) {
    Rdn.ShortValues(DerOrder(n)) && Rdn.RdnsOf(DerOrder(n)).Ok? && |Rdn.RdnsOf(DerOrder(n)).value| <= MAX_INT
  }

  lemma NameWritableExactly(n: Name)
    ensures Rdn.RdnSequence(n).Ok? <==> NameWritable(n)
  {
    Rdn.RdnsWritable(DerOrder(n));
  }

  /** Names that can be written and read back. */
  predicate SANsReadable(s: SANs) {
    s.Empty() || (AddressesSized(s.ipAddresses) && Sliced(GeneralNames(s))
                  && |WriteElements(GeneralNames(s))| < ASN1_LIMIT)
  }

  lemma SANsReadableExactly(t: Certificate)
    ensures SANsReadable(t.sans) <==>
              t.sans.Empty() || (MarshalledSANs(t.sans).Ok? && ParsedSANs(MarshalledSANs(t.sans).value).Ok?)
  {
    hide ParsedSANs, AddressesSized, WriteElements;
    if !t.sans.Empty() && MarshalledSANs(t.sans).Ok? {
      SANsRoundTrip(t.sans);
    }
  }

  /** A name with a common name does not encode as the empty sequence. */
  lemma NamedIsNotEmpty(n: Name)
    requires Rdn.RdnSequence(n) == Ok(EMPTY_RDN_SEQUENCE)
    ensures n.commonName == []
  {
    hide Rdn.RdnSequence;
    Rdn.NameRoundTrip(n);
    EmptySequenceIsEmptyName();
  }

  lemma EmptySequenceIsEmptyName()
    ensures Rdn.ParsedName(EMPTY_RDN_SEQUENCE) == Ok(EMPTY_NAME)
  {
    var der := EMPTY_RDN_SEQUENCE;
    assert der[1..][0] == 0 && der[1..][1..] == [];
  }

  /** Templates as the engine builds them: signed by the named issuer, with nothing of their own. */
  predicate EngineTemplate(t: Certificate, parent: Option<Certificate>, signer: PrivateKey) {
    && t.rawSubject == [] && t.unhandledExtensions == [] && t.signatureAlgorithm == signer.algorithm
    && t.serialNumber > 0 && KnownPurposes(t.extKeyUsage)
    && (t.basicConstraintsValid ==> 0 <= t.basicConstraints.maxPathLen <= MAX_INT)
    && (t.subject.commonName != [] || !t.sans.Empty())
    && (parent.Some? ==> parent.value.rawSubject != [] && Rdn.ParsedName(parent.value.rawSubject).Ok?)
  }

  predicate Certifiable(t: Certificate) {
    NameWritable(t.subject) && WindowWritable(t.notBefore, t.notAfter) && SANsReadable(t.sans)
  }

  lemma CreatedExactly(t: Certificate, parent: Option<Certificate>, pub: PublicKey, signer: PrivateKey)
    requires EngineTemplate(t, parent, signer)
    ensures CreateCertificate(t, parent, pub, signer).Ok? <==>
              && NameWritable(t.subject) && WindowWritable(t.notBefore, t.notAfter)
              && (t.sans.Empty() || MarshalledSANs(t.sans).Ok?)
  {
    hide Rdn.RdnSequence, Rdn.ParsedName, MarshalTime, Writable, NameWritable, MarshalledSANs, MarshalBasicConstraints,
         KnownPurposes, BasicConstraintsExt, KeyUsageExt, ExtKeyUsageExt, KeyIdExts, SANExt;
    NameWritableExactly(t.subject);
    TimesWritable(t.notBefore);
    TimesWritable(t.notAfter);
    BasicConstraintsRoundTrip(t.basicConstraints);
    if Rdn.RdnSequence(t.subject) == Ok(EMPTY_RDN_SEQUENCE) {
      NamedIsNotEmpty(t.subject);
    }
  }

  /** Such a template becomes a certificate that reads back exactly under these conditions. */
  lemma CertifiedExactly(t: Certificate, parent: Option<Certificate>, pub: PublicKey, signer: PrivateKey)
    requires EngineTemplate(t, parent, signer)
    ensures var der := CreateCertificate(t, parent, pub, signer);
            (der.Ok? && ParsedCertificate(der.value).Ok?) <==> Certifiable(t)
  {
    hide Rdn.RdnSequence, Rdn.ParsedName, CreateCertificate, ParsedCertificate, NameWritable, WindowWritable,
         SANsReadable, MarshalledSANs, ParsedSANs, KnownPurposes;
    CreatedExactly(t, parent, pub, signer);
    SANsReadableExactly(t);
    if CreateCertificate(t, parent, pub, signer).Ok? {
      CertificateRoundTrip(t, parent, pub, signer);
    }
  }

  lemma TimesWritable(t: int)
    ensures MarshalTime(t).Ok? <==> Writable(t)
  {
    hide MarshalTime, YearStart;
    TimeWritable(t);
  }

  // ---------------------------------------------------------------- IssueCertificate

  predicate Opens(keys: Keys, keyId: string, passphrase: Bytes) {
    keyId in keys && passphrase != [] && keys[keyId].passphrase == passphrase
  }

  predicate CsrAccepted(req: I.IssueRequest) {
    req.csr.Some? ==>
      && SignatureValid(req.csr.value.publicKey, req.csr.value.rawTbs, req.csr.value.signature)
      && !req.storeKey
  }

  /** The key to certify: that of the signing request, or a new one, by default for ML-DSA-44. */
  predicate AlgorithmAccepted(req: I.IssueRequest) {
    match req.csr
    case Some(csr) => EndEntityAlgorithm(csr.publicKey.algorithm)
    case None => req.algorithm.Unset? || (req.algorithm.Chosen? && EndEntityAlgorithm(req.algorithm.algorithm))
  }

  predicate EndEntityAlgorithm(a: Algorithm) {
    || a == MLDSA44 || a == MLDSA65
    || a == SLHDSA_SHA2_128s || a == SLHDSA_SHA2_128f || a == SLHDSA_SHAKE_128s || a == SLHDSA_SHAKE_128f
  }

  /** The names to certify: those of the signing request when there is one. */
  predicate NamesAccepted(subject: Name, sans: SANs) {
    && (subject.commonName != [] || !sans.Empty())
    && NameWritable(subject) && SANsReadable(sans)
  }

  predicate LengthAccepted(cfg: Config, req: I.IssueRequest) {
    if req.validityDays == 0 then DaysDuration(90) <= cfg.maxValidity
    else 0 < req.validityDays && DaysDuration(req.validityDays) <= cfg.maxValidity
  }

  /** What the request itself must satisfy. Purposes 1 and 2 are server and client authentication. */
  predicate RequestAccepted(cfg: Config, req: I.IssueRequest) {
    && CsrAccepted(req)
    && AlgorithmAccepted(req)
    && (forall p :: p in req.extKeyUsage ==> p == 1 || p == 2)
    && (if req.csr.Some? then NamesAccepted(req.csr.value.subject, req.csr.value.sans)
        else NamesAccepted(req.subject, req.sans))
    && LengthAccepted(cfg, req)
  }

  /** What the issuing CA, the key directory and the environment must provide. */
  predicate IssueAccepted(cfg: Config, req: I.IssueRequest, sh: Shared, env: Env) {
    && RequestAccepted(cfg, req)
    && req.caId in sh.db.cas && sh.db.cas[req.caId].parentId != ""
    && Opens(sh.keys, sh.db.cas[req.caId].keyId, req.caPassphrase)
    && var now, days := Truncate(env.now), if req.validityDays == 0 then 90 else req.validityDays;
    && var notAfter := AddDays(now, days);
    && WindowWritable(now - CLOCK_SKEW, notAfter) && notAfter <= sh.db.cas[req.caId].cert.notAfter
    && env.serial.Some? && env.serial.value > 0 && SerialHex(env.serial.value) !in sh.db.certs
    && (req.storeKey ==> env.newId.Some? && env.newId.value !in sh.keys)
  }

  lemma OpensExactly(keys: Keys, keyId: string, passphrase: Bytes)
    requires ValidKeyId(keyId)
    ensures LoadResult(keys, keyId, passphrase).Ok? <==> Opens(keys, keyId, passphrase)
  {
    hide ValidKeyId;
  }

  predicate OrderSound(order: I.Order) {
    && KnownPurposes(order.purposes) && (order.subject.commonName != [] || !order.sans.Empty())
    && (order.req.csr.Some? ==> !order.req.storeKey)
  }

  /** Signing a checked order gets to the tables exactly under these conditions. */
  lemma SignLeafExactly(order: I.Order, notBefore: int, notAfter: int, signer: PrivateKey, env: Env)
    requires OrderSound(order) && EnvOk(env) && CACertOk(order.ca.cert, false)
    requires PublicOf(signer) == order.ca.cert.publicKey
    ensures I.SignLeaf(order, notBefore, notAfter, signer, env).IssueDone? <==>
            !(env.serial.Some? && (order.req.storeKey ==> env.newId.Some?)
              && NameWritable(order.subject) && WindowWritable(notBefore, notAfter) && SANsReadable(order.sans))
  {
    hide CreateCertificate, ParsedCertificate, NameWritable, WindowWritable, SANsReadable, SerialHex, NameText.Printed,
         Rdn.ParsedName, KnownPurposes;
    if env.serial.Some? {
      CertifiedExactly(I.LeafTemplate(order, notBefore, notAfter, env.serial.value), Some(order.ca.cert),
                       I.LeafKey(order, env.seed), signer);
    }
  }

  /** The order that the guards resolve an accepted request to. */
  function OrderOf(req: I.IssueRequest, ca: CARow): I.Order
    requires I.RequestedAlgorithm(req).Chosen?
  {
    I.Order(req, ca, I.RequestedSubject(req), I.RequestedSANs(req), I.RequestedAlgorithm(req).algorithm,
            I.RequestedPurposes(req), I.RequestedDays(req))
  }

  predicate PassesGuards(cfg: Config, req: I.IssueRequest, db: DB) {
    && req.caId in db.cas && db.cas[req.caId].status == ACTIVE && db.cas[req.caId].parentId != ""
    && CsrAccepted(req)
    && Allows(END_ENTITY_ALGORITHMS, I.RequestedAlgorithm(req))
    && KnownPurposes(I.RequestedPurposes(req))
    && (I.RequestedSubject(req).commonName != [] || !I.RequestedSANs(req).Empty())
    && 0 <= I.RequestedDays(req) && DaysDuration(I.RequestedDays(req)) <= cfg.maxValidity
  }

  lemma GuardsExactly(cfg: Config, req: I.IssueRequest, db: DB)
    ensures I.CheckRequest(req, db, cfg)
            == if PassesGuards(cfg, req, db) then I.IssueChecked(OrderOf(req, db.cas[req.caId]))
               else I.Failed(I.CheckRequest(req, db, cfg).result.error)
    ensures !PassesGuards(cfg, req, db) ==>
              I.CheckRequest(req, db, cfg).IssueDone? && I.CheckRequest(req, db, cfg).result.Err?
    ensures PassesGuards(cfg, req, db) ==> OrderSound(OrderOf(req, db.cas[req.caId]))
  {
    hide DaysDuration, KnownPurposes, SANs.Empty;
  }

  /** The guards that read the request pass exactly for what may be asked of such a CA. */
  lemma AcceptedExactly(cfg: Config, req: I.IssueRequest, db: DB)
    requires req.caId in db.cas && db.cas[req.caId].status == ACTIVE && db.cas[req.caId].parentId != ""
    ensures PassesGuards(cfg, req, db) && NameWritable(I.RequestedSubject(req)) && SANsReadable(I.RequestedSANs(req))
            <==> RequestAccepted(cfg, req)
  {
    hide NameWritable, SANsReadable, DaysDuration, CsrAccepted, SANs.Empty;
    var purposes := I.RequestedPurposes(req);
    assert req.extKeyUsage == [] ==> purposes == [1];
    if forall p :: p in req.extKeyUsage ==> p == 1 || p == 2 {
      forall i | 0 <= i < |purposes|
        ensures IsKnownPurpose(purposes[i])
      {
        assert purposes[i] in purposes;
      }
    }
    if KnownPurposes(purposes) {
      forall p | p in req.extKeyUsage
        ensures p == 1 || p == 2
      {
        var i :| 0 <= i < |req.extKeyUsage| && req.extKeyUsage[i] == p;
        assert purposes[i] == p;
      }
    }
  }

  /** From the row on: a fresh serial number is all that is needed. */
  lemma InsertSucceedsExactly(cfg: Config, row: CertRow, ca: CARow, sh: Shared, env: Env)
    requires SharedOk(sh) && IssueOk(I.IssueInsert(row, ca), sh)
    ensures I.RunIssue(cfg, I.IssueInsert(row, ca), sh, env).0.result.Ok? <==> row.serial !in sh.db.certs
  {
    hide SharedOk, I.RunIssue, LeafOk, KeyFits, I.InsertStep, AfterInsertCertificate;
    var insert := I.IssueInsert(row, ca);
    RunIssueStep(cfg, insert, sh, env);
    var (next, db) := I.InsertStep(row, ca, sh.db);
    var sh' := sh.(db := db);
    InsertOutcome(row, ca, sh.db);
    if next.IssueChain? {
      RunIssueStep(cfg, next, sh', env);
      InsertKeepsParent(row, ca, sh);
      RunIssueIfDone(cfg, I.ChainStep(row, ca, db), sh', env);
    } else {
      if next.IssueUndo? {
        RunIssueStep(cfg, next, sh', env);
        RunIssueIfDone(cfg, I.Failed(next.error), sh'.(keys := AfterDelete(sh'.keys, next.keyId).0), env);
      }
      RunIssueIfDone(cfg, next, sh', env);
    }
  }

  lemma InsertOutcome(row: CertRow, ca: CARow, db: DB)
    ensures var (next, db') := I.InsertStep(row, ca, db);
            && (row.serial in db.certs || row.caId !in db.cas ==>
                  next.IssueUndo? || (next.IssueDone? && next.result.Err?))
            && (row.serial !in db.certs && row.caId in db.cas ==> next == I.IssueChain(row, ca) && db'.cas == db.cas)
  {
  }

  lemma InsertKeepsParent(row: CertRow, ca: CARow, sh: Shared)
    requires SharedOk(sh) && IssueOk(I.IssueInsert(row, ca), sh)
    requires I.InsertStep(row, ca, sh.db).0.IssueChain?
    ensures I.ChainStep(row, ca, I.InsertStep(row, ca, sh.db).1) == I.IssueDone(Ok(row))
    ensures row.caId in sh.db.cas
  {
    hide CACertOk, LeafOk, HistoryOk, CacheOk;
    assert CAOk(sh.db.cas, sh.db.cas[ca.id]);
  }

  /** The call after signing: the key file first when one is asked for. */
  lemma SignedSucceedsExactly(cfg: Config, call: I.IssueCall, sh: Shared, env: Env)
    requires SharedOk(sh) && EnvOk(env) && IssueOk(call, sh)
    requires call.IssueInsert? || (call.IssueStoreKey? && call.passphrase != [])
    ensures I.RunIssue(cfg, call, sh, env).0.result.Ok? <==>
              call.row.serial !in sh.db.certs && (call.IssueStoreKey? ==> call.row.keyId !in sh.keys)
  {
    hide SharedOk, I.RunIssue, IssueOk, ValidKeyId;
    match call
    case IssueInsert(row, ca) => InsertSucceedsExactly(cfg, row, ca, sh, env);
    case IssueStoreKey(row, ca, priv, passphrase) =>
      RunIssueStep(cfg, call, sh, env);
      var (next, keys) := I.StoreStep(row, ca, priv, passphrase, sh.keys);
      StoreOutcome(row, ca, priv, passphrase, sh);
      RunIssueIfDone(cfg, next, sh.(keys := keys), env);
      if next.IssueInsert? {
        InsertSucceedsExactly(cfg, row, ca, sh.(keys := keys), env);
      }
    case _ =>
  }

  lemma StoreOutcome(row: CertRow, ca: CARow, priv: PrivateKey, passphrase: Bytes, sh: Shared)
    requires SharedOk(sh) && IssueOk(I.IssueStoreKey(row, ca, priv, passphrase), sh) && passphrase != []
    ensures var (next, keys) := I.StoreStep(row, ca, priv, passphrase, sh.keys);
            && SharedOk(sh.(keys := keys))
            && (row.keyId in sh.keys ==> next.IssueDone? && next.result.Err?)
            && (row.keyId !in sh.keys ==>
                  next == I.IssueInsert(row, ca) && IssueOk(next, sh.(keys := keys)))
  {
    hide LeafOk, RowsInPlace, HistoryOk, CachesOk, KeysFit, KeyStep, Grows, ValidKeyId;
    StoredIssueOk(row, ca, priv, passphrase, sh);
  }

  lemma SignedRow(order: I.Order, notBefore: int, notAfter: int, signer: PrivateKey, env: Env)
    ensures var call := I.SignLeaf(order, notBefore, notAfter, signer, env);
            && (call.IssueDone? ==> call.result.Err?)
            && (call.IssueInsert? || call.IssueStoreKey? || call.IssueDone?)
            && (!call.IssueDone? ==> env.serial.Some? && call.row.serial == SerialHex(env.serial.value))
            && (call.IssueStoreKey? ==>
                  order.req.storeKey && env.newId == Some(call.row.keyId) && call.passphrase == order.req.caPassphrase)
            && (call.IssueInsert? ==> !order.req.storeKey)
  {
    hide CreateCertificate, ParsedCertificate, SerialHex, NameText.Printed;
  }

  /** From the window on. */
  lemma PlannedSucceedsExactly(cfg: Config, order: I.Order, now: int, notBefore: int, notAfter: int, sh: Shared,
                               env: Env)
    requires SharedOk(sh) && EnvOk(env) && OrderSound(order)
    requires IssueOk(I.IssuePlanned(order, now, notBefore, notAfter), sh)
    ensures I.RunIssue(cfg, I.IssuePlanned(order, now, notBefore, notAfter), sh, env).0.result.Ok? <==>
              && Opens(sh.keys, order.ca.keyId, order.req.caPassphrase)
              && env.serial.Some? && SerialHex(env.serial.value) !in sh.db.certs
              && (order.req.storeKey ==> env.newId.Some? && env.newId.value !in sh.keys)
              && NameWritable(order.subject) && WindowWritable(notBefore, notAfter) && SANsReadable(order.sans)
  {
    hide SharedOk, I.RunIssue, I.SignLeaf, OrderSound, NameWritable, WindowWritable, SANsReadable, SerialHex, CACertOk,
         WindowOk, ValidKeyId, LeafOk;
    var planned := I.IssuePlanned(order, now, notBefore, notAfter);
    RunIssueStep(cfg, planned, sh, env);
    IssuerIsFit(order, sh);
    OpensExactly(sh.keys, order.ca.keyId, order.req.caPassphrase);
    var signer := LoadResult(sh.keys, order.ca.keyId, order.req.caPassphrase);
    if signer.Err? {
      RunIssueIfDone(cfg, I.Failed(signer.error), sh, env);
    } else {
      var call := I.SignLeaf(order, notBefore, notAfter, signer.value, env);
      SignLeafExactly(order, notBefore, notAfter, signer.value, env);
      SignedRow(order, notBefore, notAfter, signer.value, env);
      SignedLeafOk(sh.db.cas, order, now, notBefore, notAfter, signer.value, env);
      if call.IssueDone? {
        RunIssueIfDone(cfg, call, sh, env);
      } else {
        SignedSucceedsExactly(cfg, call, sh, env);
      }
    }
  }

  lemma IssuerIsFit(order: I.Order, sh: Shared)
    requires SharedOk(sh) && OrderOk(sh.db.cas, order)
    ensures CACertOk(order.ca.cert, false) && ValidKeyId(order.ca.keyId)
    ensures order.ca.keyId in sh.keys && PublicOf(sh.keys[order.ca.keyId].priv) == order.ca.cert.publicKey
  {
    hide LeafOk, CACertOk, HistoryOk, CachesOk, ValidKeyId;
    assert CAOk(sh.db.cas, sh.db.cas[order.ca.id]);
    assert KeyFits(sh.keys, order.ca.keyId, order.ca.cert.publicKey);
  }

  lemma ActiveRow(sh: Shared, caId: string)
    requires SharedOk(sh) && caId in sh.db.cas
    ensures sh.db.cas[caId].status == ACTIVE
  {
    hide LeafOk, CACertOk, HistoryOk, CachesOk, ValidKeyId, KeysFit;
    assert CAOk(sh.db.cas, sh.db.cas[caId]);
  }

  /** IssueCertificate succeeds exactly for an accepted request. */
  lemma IssueSucceedsExactly(cfg: Config, req: I.IssueRequest, sh: Shared, env: Env)
    requires SharedOk(sh) && EnvOk(env)
    ensures I.RunIssue(cfg, I.IssueStart(req), sh, env).0.result.Ok? <==> IssueAccepted(cfg, req, sh, env)
  {
    hide SharedOk, I.RunIssue, I.CheckRequest, CsrAccepted, KnownPurposes, NameWritable, WindowWritable,
         SANsReadable, SerialHex, DaysDuration, AddDays, OrderSound, Opens, RequestAccepted;
    RunIssueStep(cfg, I.IssueStart(req), sh, env);
    GuardsExactly(cfg, req, sh.db);
    if req.caId in sh.db.cas {
      ActiveRow(sh, req.caId);
      if sh.db.cas[req.caId].parentId != "" {
        AcceptedExactly(cfg, req, sh.db);
      }
    }
    if !PassesGuards(cfg, req, sh.db) {
      RunIssueIfDone(cfg, I.CheckRequest(req, sh.db, cfg), sh, env);
    } else {
      var order := OrderOf(req, sh.db.cas[req.caId]);
      RunIssueStep(cfg, I.IssueChecked(order), sh, env);
      var planned, sh' := I.PlanValidity(order, env.now), sh.(clock := env.now);
      RunIssueIfDone(cfg, planned, sh', env);
      if planned.IssuePlanned? {
        OrderIsOk(cfg, req, sh);
        ClockKeepsShared(sh, env.now);
        PlannedSucceedsExactly(cfg, order, planned.now, planned.notBefore, planned.notAfter, sh', env);
      }
    }
  }

  lemma OrderIsOk(cfg: Config, req: I.IssueRequest, sh: Shared)
    requires SharedOk(sh) && PassesGuards(cfg, req, sh.db)
    ensures OrderOk(sh.db.cas, OrderOf(req, sh.db.cas[req.caId]))
  {
    hide DaysDuration, KnownPurposes, CAOk, LeafOk, HistoryOk, CachesOk, KeysFit;
  }

  lemma ClockKeepsShared(sh: Shared, now: int)
    requires SharedOk(sh)
    ensures SharedOk(sh.(clock := now))
  {
    hide RowsInPlace, HistoryOk, CachesOk, KeysFit;
  }

  // ---------------------------------------------------------------- CreateCA

  predicate IsRoot(req: C.CreateRequest) {
    req.parentId == ""
  }

  function ResolvedDays(req: C.CreateRequest): int {
    if req.validityDays != 0 then req.validityDays else if IsRoot(req) then 3650 else 1825
  }

  /** Roots and intermediates have algorithms and a longest validity of their own. */
  predicate LevelAccepts(req: C.CreateRequest) {
    && req.algorithm.Chosen?
    && var a := req.algorithm.algorithm;
    if IsRoot(req) then
      (a == MLDSA87 || a == SLHDSA_SHA2_256s || a == SLHDSA_SHAKE_256s) && 0 <= req.validityDays <= 3650
    else (a == MLDSA65 || a == SLHDSA_SHA2_192s || a == SLHDSA_SHAKE_192s) && 0 <= req.validityDays <= 1825
  }

  /** What the request itself must satisfy, at its level. */
  predicate CARequestAccepted(req: C.CreateRequest) {
    && NameText.TrimSpace(req.name) != [] && req.subject.commonName != [] && req.passphrase != []
    && LevelAccepts(req)
  }

  /** The parent is a root whose key the given passphrase opens and that lives long enough. */
  predicate ParentAccepts(req: C.CreateRequest, sh: Shared, notAfter: int) {
    && req.parentId in sh.db.cas && sh.db.cas[req.parentId].parentId == ""
    && Opens(sh.keys, sh.db.cas[req.parentId].keyId, req.parentPassphrase)
    && notAfter <= sh.db.cas[req.parentId].cert.notAfter
  }

  /** What the parent, the key directory and the environment must provide. */
  predicate CreateAccepted(req: C.CreateRequest, sh: Shared, env: Env) {
    var now, notAfter := Truncate(env.now), AddDays(Truncate(env.now), ResolvedDays(req));
    && CARequestAccepted(req) && NameWritable(req.subject)
    && WindowWritable(now - CLOCK_SKEW, notAfter)
    && (if IsRoot(req) then env.expands else ParentAccepts(req, sh, notAfter))
    && env.keyId.Some? && env.keyId.value !in sh.keys
    && env.serial.Some?
    && env.newId.Some? && env.newId.value !in sh.db.cas
  }

  /** Signing a plan gets to the table exactly under these conditions. */
  lemma SignCAExactly(plan: C.CAPlan, keyId: string, priv: PrivateKey, signer: PrivateKey, serial: int, env: Env)
    requires plan.req.subject.commonName != [] && serial > 0
    requires plan.parent.None? ==> signer.algorithm == plan.algorithm
    requires plan.parent.Some? ==>
               CACertOk(plan.parent.value.cert, true) && signer.algorithm == plan.parent.value.cert.publicKey.algorithm
    ensures var call := C.SignCA(plan, keyId, priv, signer, serial, env);
            && (call.CreateInsert? <==> NameWritable(plan.req.subject) && WindowWritable(plan.notBefore, plan.notAfter)
                                        && env.newId.Some?)
            && (call.CreateInsert? ==> env.newId == Some(call.row.id) && call.row.parentId == plan.req.parentId)
            && (call.CreateInsert? || call.CreateUndo?)
  {
    hide CreateCertificate, ParsedCertificate, NameWritable, WindowWritable, Rdn.ParsedName;
    CertifiedExactly(C.CATemplate(plan, signer.algorithm, serial), C.ParentCert(plan), PublicOf(priv), signer);
  }

  lemma FinishExactly(c: C.CreateCall, sh: Shared, env: Env)
    requires c.CreateUndo? || (c.CreateInsert? && (c.row.parentId == "" || c.row.parentId in sh.db.cas))
    ensures C.RunCreate(c, sh, env).0.result.Ok? <==> c.CreateInsert? && c.row.id !in sh.db.cas
  {
    hide C.RunCreate, AfterDelete;
    RunCreateStep(c, sh, env);
    if c.CreateInsert? {
      var (next, db) := C.InsertStep(c.row, sh.db);
      var sh' := sh.(db := db);
      RunDoneIfDone(next, sh', env);
      if next.CreateUndo? {
        RunCreateStep(next, sh', env);
        RunDoneIfDone(C.Failed(next.error), sh'.(keys := AfterDelete(sh'.keys, next.keyId).0), env);
      }
    } else {
      RunDoneIfDone(C.Failed(c.error), sh.(keys := AfterDelete(sh.keys, c.keyId).0), env);
    }
  }

  /** From the written key file on. */
  lemma KeyedSucceedsExactly(plan: C.CAPlan, keyId: string, priv: PrivateKey, sh: Shared, env: Env)
    requires EnvOk(env) && plan.req.subject.commonName != [] && priv.algorithm == plan.algorithm
    requires plan.parent.None? <==> IsRoot(plan.req)
    requires plan.parent.Some? ==>
               && plan.req.parentId in sh.db.cas && CACertOk(plan.parent.value.cert, true)
               && ValidKeyId(plan.parent.value.keyId) && plan.parent.value.keyId in sh.keys
               && PublicOf(sh.keys[plan.parent.value.keyId].priv) == plan.parent.value.cert.publicKey
    ensures C.RunCreate(C.AfterGenerate(plan, keyId, priv, env), sh, env).0.result.Ok? <==>
              && env.serial.Some? && NameWritable(plan.req.subject) && WindowWritable(plan.notBefore, plan.notAfter)
              && env.newId.Some? && env.newId.value !in sh.db.cas
              && (if plan.parent.None? then env.expands
                  else Opens(sh.keys, plan.parent.value.keyId, plan.req.parentPassphrase))
  {
    hide C.RunCreate, C.SignCA, NameWritable, WindowWritable, CACertOk, ValidKeyId;
    var call := C.AfterGenerate(plan, keyId, priv, env);
    RunDoneIfDone(call, sh, env);
    if env.serial.Some? {
      var serial := env.serial.value;
      if plan.parent.None? && env.expands {
        SignCAExactly(plan, keyId, priv, priv, serial, env);
        FinishExactly(call, sh, env);
      } else if plan.parent.Some? {
        RunCreateStep(call, sh, env);
        OpensExactly(sh.keys, plan.parent.value.keyId, plan.req.parentPassphrase);
        var signer := LoadResult(sh.keys, plan.parent.value.keyId, plan.req.parentPassphrase);
        if signer.Ok? {
          SignCAExactly(plan, keyId, priv, signer.value, serial, env);
        }
        FinishExactly(C.LoadStep(plan, keyId, priv, serial, sh.keys, env), sh, env);
      }
    }
  }

  lemma CreateGuardsExactly(req: C.CreateRequest, db: DB)
    ensures var checked := C.CheckRequest(req, db);
            var guards := CARequestAccepted(req)
                          && (IsRoot(req) || (req.parentId in db.cas && db.cas[req.parentId].parentId == ""
                                              && db.cas[req.parentId].status == ACTIVE));
            && (guards ==> req.subject.commonName != [] && req.passphrase != [] && req.algorithm.Chosen?
                           && checked == C.CreateChecked(req, req.algorithm.algorithm, ResolvedDays(req),
                                                         if IsRoot(req) then None else Some(db.cas[req.parentId])))
            && (!guards ==> checked.CreateDone? && checked.result.Err?)
  {
    hide NameText.TrimSpace;
  }

  /** CreateCA succeeds exactly for an accepted request. */
  lemma CreateSucceedsExactly(req: C.CreateRequest, sh: Shared, env: Env)
    requires SharedOk(sh) && EnvOk(env)
    ensures C.RunCreate(C.CreateStart(req), sh, env).0.result.Ok? <==> CreateAccepted(req, sh, env)
  {
    hide SharedOk, C.RunCreate, C.CheckRequest, C.AfterGenerate, NameWritable, WindowWritable, AddDays, Opens,
         CARequestAccepted, ValidKeyId, CACertOk, ResolvedDays;
    RunCreateStep(C.CreateStart(req), sh, env);
    CreateGuardsExactly(req, sh.db);
    if !IsRoot(req) && req.parentId in sh.db.cas {
      ParentIsFit(sh, req.parentId);
    }
    var checked := C.CheckRequest(req, sh.db);
    RunDoneIfDone(checked, sh, env);
    if checked.CreateChecked? {
      RunCreateStep(checked, sh, env);
      var planned, sh1 := C.PlanValidity(req, checked.algorithm, checked.days, checked.parent, env.now),
          sh.(clock := env.now);
      RunDoneIfDone(planned, sh1, env);
      if planned.CreatePlanned? {
        RunCreateStep(planned, sh1, env);
        GenerateSucceedsExactly(planned.plan, sh, sh1, env);
      }
    }
  }

  /** The parent's row: active, with a key that fits. */
  lemma ParentIsFit(sh: Shared, caId: string)
    requires SharedOk(sh) && caId in sh.db.cas
    ensures var row := sh.db.cas[caId];
            && row.status == ACTIVE && CACertOk(row.cert, row.parentId == "") && ValidKeyId(row.keyId)
            && row.keyId in sh.keys && PublicOf(sh.keys[row.keyId].priv) == row.cert.publicKey
  {
    hide LeafOk, CACertOk, HistoryOk, CachesOk, ValidKeyId;
    assert CAOk(sh.db.cas, sh.db.cas[caId]);
    assert KeyFits(sh.keys, sh.db.cas[caId].keyId, sh.db.cas[caId].cert.publicKey);
  }

  /** The step that writes the key file, and what follows. */
  lemma GenerateSucceedsExactly(plan: C.CAPlan, sh: Shared, sh1: Shared, env: Env)
    requires EnvOk(env) && sh1 == sh.(clock := env.now)
    requires plan.req.subject.commonName != [] && plan.req.passphrase != []
    requires plan.parent.None? <==> IsRoot(plan.req)
    requires plan.parent.Some? ==>
               && plan.req.parentId in sh.db.cas && CACertOk(plan.parent.value.cert, true)
               && ValidKeyId(plan.parent.value.keyId) && plan.parent.value.keyId in sh.keys
               && PublicOf(sh.keys[plan.parent.value.keyId].priv) == plan.parent.value.cert.publicKey
    ensures var (next, keys) := C.GenerateStep(plan, sh1.keys, env);
            C.RunCreate(next, sh1.(keys := keys), env).0.result.Ok? <==>
              && env.keyId.Some? && env.keyId.value !in sh.keys
              && env.serial.Some? && NameWritable(plan.req.subject) && WindowWritable(plan.notBefore, plan.notAfter)
              && env.newId.Some? && env.newId.value !in sh.db.cas
              && (if plan.parent.None? then env.expands
                  else Opens(sh.keys, plan.parent.value.keyId, plan.req.parentPassphrase))
  {
    hide C.RunCreate, C.AfterGenerate, NameWritable, WindowWritable, CACertOk, ValidKeyId;
    var (next, keys) := C.GenerateStep(plan, sh1.keys, env);
    if env.keyId.Some? && env.keyId.value !in sh.keys {
      KeyedSucceedsExactly(plan, env.keyId.value, PrivateKey(plan.algorithm, env.seed), sh1.(keys := keys), env);
    } else {
      RunDoneIfDone(next, sh1.(keys := keys), env);
    }
  }

  // ---------------------------------------------------------------- CRL

  /** The times of a rebuilt list, and of every row on it, can be written. */
  predicate ListWritable(cfg: Config, rows: seq<CertRow>, now: int) {
    && cfg.crlValidity > 0 && Writable(now) && Writable(now + cfg.crlValidity)
    && forall i :: 0 <= i < |rows| && rows[i].revokedAt.Some? ==> Writable(rows[i].revokedAt.value)
  }

  /** The cache has the list, or the passphrase opens the CA's key and the list can be written. */
  ghost predicate ListAccepted(cfg: Config, caId: string, passphrase: Bytes, sh: Shared, env: Env) {
    && caId in sh.db.cas
    && var rows, now := SortedRows(RevokedRows(sh.db, caId)), Truncate(env.now);
    || CacheHit(sh.cache, Snapshot(sh.db.cas[caId], rows, |sh.db.history|), now)
    || (Opens(sh.keys, sh.db.cas[caId].keyId, passphrase) && ListWritable(cfg, rows, now))
  }

  lemma {:induction false} EntriesWritten(entries: seq<RevocationEntry>)
    ensures WrittenEntries(entries).Ok? <==>
              forall i :: 0 <= i < |entries| ==> entries[i].serialNumber > 0 && Writable(entries[i].revocationTime)
  {
    hide MarshalTime, Writable;
    if entries != [] {
      var front, last := entries[..|entries| - 1], entries[|entries| - 1];
      EntriesWritten(front);
      TimesWritable(last.revocationTime);
      assert entries == front + [last];
    }
  }

  lemma RowsWritten(rows: seq<CertRow>, now: int)
    requires RowsOk(rows)
    ensures EntriesOf(rows, now) == Some(EntriesFor(rows))
    ensures WrittenEntries(EntriesFor(rows)).Ok? <==>
              forall i :: 0 <= i < |rows| && rows[i].revokedAt.Some? ==> Writable(rows[i].revokedAt.value)
  {
    hide Writable, WrittenEntries, SerialHex;
    EntriesOfRows(rows, now);
    EntriesWritten(EntriesFor(rows));
    forall i | 0 <= i < |rows|
      ensures EntriesFor(rows)[i].serialNumber > 0
      ensures rows[i].revokedAt == Some(EntriesFor(rows)[i].revocationTime)
    {
    }
  }

  lemma BuildSucceedsExactly(cfg: Config, snap: Snapshot, passphrase: Bytes, now: int, keys: Keys)
    requires RowsOk(snap.rows) && CACertOk(snap.ca.cert, snap.ca.parentId == "") && ValidKeyId(snap.ca.keyId)
    requires snap.ca.keyId in keys && PublicOf(keys[snap.ca.keyId].priv) == snap.ca.cert.publicKey
    ensures Build(cfg, snap, passphrase, now, keys).Ok? <==>
              Opens(keys, snap.ca.keyId, passphrase) && ListWritable(cfg, snap.rows, now)
  {
    hide ValidKeyId, Rdn.ParsedName, ParsedCertificate, MarshalTime, Writable, WrittenEntries, EntriesOf, EntriesFor,
         LoadResult, Opens;
    OpensExactly(keys, snap.ca.keyId, passphrase);
    RowsWritten(snap.rows, now);
    TimesWritable(now);
    TimesWritable(now + cfg.crlValidity);
    assert CA_KEY_USAGE & CRL_SIGN != 0;
    LoadedIsStored(keys, snap.ca.keyId, passphrase);
  }

  lemma LoadedIsStored(keys: Keys, keyId: string, passphrase: Bytes)
    ensures LoadResult(keys, keyId, passphrase).Ok? ==>
              keyId in keys && LoadResult(keys, keyId, passphrase).value == keys[keyId].priv
  {
    hide ValidKeyId;
  }

  lemma ListedRows(sh: Shared, ca: CARow)
    requires SharedOk(sh) && HasCA(sh.db.cas, ca)
    ensures RowsOk(SortedRows(RevokedRows(sh.db, ca.id))) && ca.id in sh.db.cas && sh.db.cas[ca.id] == ca
  {
    hide CAOk, LeafOk, CachesOk, KeysFit, SnapOk, SortedRows, RevokedRows;
    ListedOk(sh.db, ca);
    SnapshotRowsOk(sh.db, Snapshot(ca, SortedRows(RevokedRows(sh.db, ca.id)), |sh.db.history|));
  }

  /** CRL succeeds exactly for a known CA with a cached or a writable list. */
  lemma CrlSucceedsExactly(cfg: Config, caId: string, passphrase: Bytes, sh: Shared, env: Env)
    requires SharedOk(sh)
    ensures CrlResult(RunCrl(cfg, CrlStart(caId, passphrase), sh, env).0).Ok? <==>
              ListAccepted(cfg, caId, passphrase, sh, env)
  {
    hide SharedOk, RunCrl, SortedRows, RevokedRows, Build, ListWritable, Opens, Truncate, CACertOk, RowsOk,
         ValidKeyId;
    CrlOutcome(cfg, caId, passphrase, sh, env);
    if caId in sh.db.cas {
      KeyedRow(sh, caId);
      ListedRows(sh, sh.db.cas[caId]);
      ParentIsFit(sh, caId);
      BuildSucceedsExactly(cfg, SnapshotOf(sh.db, caId), passphrase, Truncate(env.now), sh.keys);
    }
  }

  // ---------------------------------------------------------------- an example

  /** The call, as far as it has come, makes a row under this parent with this end. */
  predicate HeadsFor(c: C.CreateCall, parentId: string, end: int) {
    match c
    case CreatePlanned(plan) => plan.req.parentId == parentId && plan.notAfter == end
    case CreateKeyed(plan, _, _, _) => plan.req.parentId == parentId && plan.notAfter == end
    case CreateInsert(row) => row.parentId == parentId && row.cert.notAfter == end
    case CreateDone(result, _) =>
      result.Ok? ==> result.value.parentId == parentId && result.value.cert.notAfter == end
    case _ => true
  }

  lemma GeneratedHeads(plan: C.CAPlan, sh: Shared, env: Env)
    requires SharedOk(sh) && PlanOk(sh.db.cas, plan) && EnvOk(env)
    ensures HeadsFor(C.GenerateStep(plan, sh.keys, env).0, plan.req.parentId, plan.notAfter)
  {
    hide C.SignCA, PlanOk, CAOk, CACertOk, ValidKeyId, AddDays;
    if env.keyId.Some? && env.serial.Some? && plan.parent.None? && env.expands {
      var priv := PrivateKey(plan.algorithm, env.seed);
      SignedCAOk(sh.db.cas, plan, env.keyId.value, priv, priv, env.serial.value, env);
    }
  }

  lemma LoadedHeads(plan: C.CAPlan, keyId: string, priv: PrivateKey, serial: int, sh: Shared, env: Env)
    requires SharedOk(sh) && EnvOk(env) && CreateOk(C.CreateKeyed(plan, keyId, priv, serial), sh)
    ensures HeadsFor(C.LoadStep(plan, keyId, priv, serial, sh.keys, env), plan.req.parentId, plan.notAfter)
  {
    hide C.SignCA, PlanOk, CAOk, LeafOk, CACertOk, ValidKeyId, AddDays;
    if LoadResult(sh.keys, plan.parent.value.keyId, plan.req.parentPassphrase).Ok? {
      var signer := LoadResult(sh.keys, plan.parent.value.keyId, plan.req.parentPassphrase).value;
      PlanParent(sh.db.cas, plan);
      ParentCertOk(sh.db.cas, plan);
      assert KeyFits(sh.keys, plan.parent.value.keyId, plan.parent.value.cert.publicKey);
      SignedCAOk(sh.db.cas, plan, keyId, priv, signer, serial, env);
    }
  }

  lemma {:induction false} RunCreateHeads(c: C.CreateCall, sh: Shared, env: Env, parentId: string, end: int)
    requires SharedOk(sh) && CreateOk(c, sh) && EnvOk(env) && HeadsFor(c, parentId, end) && C.CreateRank(c) <= 4
    requires C.CreateHeld(c) <= sh.keys.Keys && C.CreateHeld(c) !! Referenced(sh.db)
    ensures HeadsFor(C.RunCreate(c, sh, env).0, parentId, end)
    decreases C.CreateRank(c)
  {
    hide SharedOk, CreateOk, Grows, KeyStep, Referenced, EnvOk, C.GenerateStep, C.LoadStep, C.RunCreate;
    if c.CreateDone? {
      RunDone(c, sh, env);
    } else {
      CreateStepOk(c, sh, env);
      C.CreateProgress(c, sh, env);
      RunCreateStep(c, sh, env);
      var (next, sh') := C.AdvanceCreate(c, sh, env);
      match c {
        case CreatePlanned(plan) =>
          PlannedIsOk(plan, sh);
          GeneratedHeads(plan, sh, env);
        case CreateKeyed(plan, keyId, priv, serial) => LoadedHeads(plan, keyId, priv, serial, sh, env);
        case _ =>
      }
      KeyStepCloses(sh, C.CreateHeld(c), sh', C.CreateHeld(next));
      RunCreateHeads(next, sh', env, parentId, end);
    }
  }

  lemma PlannedIsOk(plan: C.CAPlan, sh: Shared)
    requires CreateOk(C.CreatePlanned(plan), sh)
    ensures PlanOk(sh.db.cas, plan)
  {
  }

  /** A created CA stands under the parent that was asked for and lives as long as was asked, from
      the moment of the call. */
  lemma CreatedEnds(req: C.CreateRequest, sh: Shared, env: Env)
    requires SharedOk(sh) && EnvOk(env) && C.RunCreate(C.CreateStart(req), sh, env).0.result.Ok?
    ensures var row := C.RunCreate(C.CreateStart(req), sh, env).0.result.value;
            row.parentId == req.parentId && row.cert.notAfter == AddDays(Truncate(env.now), ResolvedDays(req))
  {
    hide SharedOk, CreateOk, C.RunCreate, C.CheckRequest, C.GenerateStep, CARequestAccepted, AddDays, Truncate, EnvOk,
         Referenced, Grows, KeyStep, ResolvedDays;
    var start := C.CreateStart(req);
    StartIsOk(req, sh);
    CreateStepOk(start, sh, env);
    RunCreateStep(start, sh, env);
    CreateGuardsExactly(req, sh.db);
    var checked := C.CheckRequest(req, sh.db);
    RunDoneIfDone(checked, sh, env);
    CreateStepOk(checked, sh, env);
    RunCreateStep(checked, sh, env);
    var planned, sh1 := C.PlanValidity(req, checked.algorithm, checked.days, checked.parent, env.now),
        sh.(clock := env.now);
    RunDoneIfDone(planned, sh1, env);
    RunCreateHeads(planned, sh1, env, req.parentId, AddDays(Truncate(env.now), ResolvedDays(req)));
  }

  lemma StartIsOk(req: C.CreateRequest, sh: Shared)
    ensures CreateOk(C.CreateStart(req), sh)
  {
  }

  function Repeated(c: char): (id: string)
    requires 'a' <= c <= 'f'
    ensures ValidKeyId(id)
  {
    seq(32, i requires 0 <= i < 32 => c)
  }

  function Beside(used: string): (id: string)
    ensures ValidKeyId(id) && id != used
  {
    assert Repeated('a')[0] != Repeated('b')[0];
    if used == Repeated('a') then Repeated('b') else Repeated('a')
  }

  /** An environment at the Unix epoch with identifiers other than those used. */
  function EnvironmentBeside(usedKey: string, usedId: string): (env: Env)
    ensures EnvOk(env)
  {
    Env(0, Some(Beside(usedKey)), 0, true, Some(1), Some(Beside(usedId)))
  }

  function IntermediateRequest(rootId: string): C.CreateRequest {
    C.CreateRequest([0x49], rootId, Chosen(MLDSA65), Named(0x49), 0, [2], [1])
  }

  function LeafRequest(caId: string): I.IssueRequest {
    I.IssueRequest(caId, [2], Named(0x4C), NO_SANS, Unset, 0, [], false, None)
  }

  const DEFAULTS := Config(MAX_END_ENTITY_VALIDITY_DAYS * DAY, 168 * HOUR)

  function Named(c: Byte): Name {
    EMPTY_NAME.(commonName := [c])
  }

  lemma NamedIsWritable(c: Byte)
    ensures NameWritable(Named(c))
  {
    hide Rdn.RdnOf;
    var pairs := DerOrder(Named(c));
    assert pairs == [Pair(CN, [c])];
    Rdn.RdnsWritable(pairs);
    assert pairs[..0] == [];
    SmallRdn(c);
    assert Rdn.RdnsOf(pairs).value == [] + Rdn.RdnOf(pairs[0]).value;
  }

  lemma SmallRdn(c: Byte)
    ensures Rdn.RdnOf(Pair(CN, [c])).Ok? && |Rdn.RdnOf(Pair(CN, [c])).value| <= 100
  {
    Rdn.RdnWritable(Pair(CN, [c]));
    var s := Tlv(Rdn.StringTag([c]), [c]);
    var content := Tlv(TAG_OBJECT_ID, Rdn.OidContent(CN)) + s;
    TlvLength(Rdn.StringTag([c]), [c]);
    TlvLength(TAG_OBJECT_ID, Rdn.OidContent(CN));
    TlvLength(SEQUENCE, content);
    TlvLength(SET, Tlv(SEQUENCE, content));
  }

  /** From the epoch, ten years and less are exact and can be written. */
  lemma EpochWindow(days: int)
    requires 0 < days <= ROOT_VALIDITY_DAYS
    ensures AddDays(0, days) == days * DAY
    ensures WindowWritable(-CLOCK_SKEW, AddDays(0, days)) && Writable(0) && Writable(168 * HOUR)
  {
    hide DaysBeforeYear;
    AddDaysExact(0, days);
    DaysBeforeYearLeast(10000);
    FirstDay(0);
  }

  lemma NameIsNotBlank(c: Byte)
    requires 0x41 <= c <= 0x5A
    ensures NameText.TrimSpace([c]) == [c]
  {
  }

  lemma EmptyIsShared()
    ensures SharedOk(EMPTY)
  {
  }

  /** What a successful CreateCA leaves behind, for what comes next. */
  predicate Made(row: CARow, req: C.CreateRequest, before: Shared, after: Shared) {
    && row.id !in before.db.cas && row.keyId !in before.keys
    && after.db == before.db.(cas := before.db.cas[row.id := row])
    && after.keys.Keys == before.keys.Keys + {row.keyId} && after.keys[row.keyId].passphrase == req.passphrase
    && row.parentId == req.parentId && row.cert.notAfter == AddDays(0, ResolvedDays(req))
  }

  lemma MakeCA(req: C.CreateRequest, sh: Shared, env: Env) returns (row: CARow, after: Shared)
    requires SharedOk(sh) && EnvOk(env) && CreateAccepted(req, sh, env) && env.now == 0
    ensures C.RunCreate(C.CreateStart(req), sh, env).0.result == Ok(row)
    ensures C.RunCreate(C.CreateStart(req), sh, env).1 == after
    ensures SharedOk(after) && Made(row, req, sh, after)
  {
    hide SharedOk, C.RunCreate, CreateAccepted, AddDays, ReachesKey, EnvOk, ResolvedDays;
    CreateSucceedsExactly(req, sh, env);
    CreatedEnds(req, sh, env);
    CreateAlone(req, sh, env);
    StartIsOk(req, sh);
    RunCreateKeeps(C.CreateStart(req), sh, env);
    row, after := C.RunCreate(C.CreateStart(req), sh, env).0.result.value, C.RunCreate(C.CreateStart(req), sh, env).1;
  }

  lemma RootAccepted()
    ensures CreateAccepted(ROOT_REQUEST, EMPTY, EnvironmentBeside("", ""))
    ensures ResolvedDays(ROOT_REQUEST) == ROOT_VALIDITY_DAYS
  {
    hide NameText.TrimSpace, NameWritable, WindowWritable, AddDays;
    NameIsNotBlank(0x52);
    NamedIsWritable(0x52);
    EpochWindow(ROOT_VALIDITY_DAYS);
  }

  lemma IntermediateAccepted(root: CARow, sh: Shared)
    requires Made(root, ROOT_REQUEST, EMPTY, sh)
    ensures var req := IntermediateRequest(root.id);
            && (root.id != "" ==> CreateAccepted(req, sh, EnvironmentBeside(root.keyId, root.id)))
            && (root.id != "" ==> ResolvedDays(req) == INTERMEDIATE_VALIDITY_DAYS)
  {
    hide NameText.TrimSpace, NameWritable, WindowWritable, AddDays;
    NameIsNotBlank(0x49);
    NamedIsWritable(0x49);
    EpochWindow(ROOT_VALIDITY_DAYS);
    EpochWindow(INTERMEDIATE_VALIDITY_DAYS);
  }

  lemma LeafAccepted(root: CARow, inter: CARow, sh1: Shared, sh2: Shared)
    requires Made(root, ROOT_REQUEST, EMPTY, sh1) && Made(inter, IntermediateRequest(root.id), sh1, sh2)
             && root.id != ""
    ensures IssueAccepted(DEFAULTS, LeafRequest(inter.id), sh2, EnvironmentBeside("", ""))
  {
    hide NameText.TrimSpace, NameWritable, WindowWritable, AddDays, SerialHex;
    NamedIsWritable(0x4C);
    EpochWindow(INTERMEDIATE_VALIDITY_DAYS);
    EpochWindow(END_ENTITY_VALIDITY_DAYS);
  }

  lemma EmptyListAccepted(root: CARow, inter: CARow, sh1: Shared, sh2: Shared)
    requires Made(root, ROOT_REQUEST, EMPTY, sh1) && Made(inter, IntermediateRequest(root.id), sh1, sh2)
             && root.id != ""
    ensures ListAccepted(DEFAULTS, inter.id, [2], sh2, EnvironmentBeside("", ""))
  {
    hide AddDays, Writable, CacheHit;
    EpochWindow(END_ENTITY_VALIDITY_DAYS);
    assert RevokedRows(sh2.db, inter.id) == {};
  }

  lemma RootHasId(sh: Shared, id: string)
    requires SharedOk(sh) && id in sh.db.cas
    ensures id != ""
  {
    hide LeafOk, CACertOk, HistoryOk, CachesOk, KeysFit, IssuedUnder;
    assert CAOk(sh.db.cas, sh.db.cas[id]);
  }

  /** A root, an intermediate under it, then a certificate or a revocation list: the calls succeed,
      one after the other, from empty tables and an empty directory. */
  lemma Example() returns (root: CARow, inter: CARow, sh1: Shared, sh2: Shared)
    ensures var env := EnvironmentBeside("", "");
            && C.RunCreate(C.CreateStart(ROOT_REQUEST), EMPTY, env).0.result == Ok(root)
            && C.RunCreate(C.CreateStart(ROOT_REQUEST), EMPTY, env).1 == sh1
    ensures var req, env := IntermediateRequest(root.id), EnvironmentBeside(root.keyId, root.id);
            && C.RunCreate(C.CreateStart(req), sh1, env).0.result == Ok(inter)
            && C.RunCreate(C.CreateStart(req), sh1, env).1 == sh2
    ensures I.RunIssue(DEFAULTS, I.IssueStart(LeafRequest(inter.id)), sh2, EnvironmentBeside("", "")).0.result.Ok?
    ensures CrlResult(RunCrl(DEFAULTS, CrlStart(inter.id, [2]), sh2, EnvironmentBeside("", "")).0).Ok?
  {
    hide SharedOk, C.RunCreate, I.RunIssue, RunCrl, CreateAccepted, IssueAccepted, ListAccepted, EnvOk, ResolvedDays;
    EmptyIsShared();
    RootAccepted();
    root, sh1 := MakeCA(ROOT_REQUEST, EMPTY, EnvironmentBeside("", ""));
    RootHasId(sh1, root.id);
    IntermediateAccepted(root, sh1);
    inter, sh2 := MakeCA(IntermediateRequest(root.id), sh1, EnvironmentBeside(root.keyId, root.id));
    LeafAccepted(root, inter, sh1, sh2);
    IssueSucceedsExactly(DEFAULTS, LeafRequest(inter.id), sh2, EnvironmentBeside("", ""));
    EmptyListAccepted(root, inter, sh1, sh2);
    CrlSucceedsExactly(DEFAULTS, inter.id, [2], sh2, EnvironmentBeside("", ""));
  }
}
