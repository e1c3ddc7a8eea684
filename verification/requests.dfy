/** What a call makes answers its request: the contents of issued and CA certificates, traced
    back to the step that began the call. */
module Requests {
  import opened Prelude
  import opened X509
  import opened Certificates
  import opened Profiles
  import opened Stores
  import opened Keystores
  import opened EngineStates
  import opened Hierarchy
  import opened Systems
  import opened Invariants
  import opened Preservation
  import opened Theorems
  import opened Timeliness
  import opened Times
  import CrlCalls
  import C = CreateCalls
  import I = IssueCalls
  import R = RevokeCalls
  import NameText
  import Rdn
  import RevocationLists
  import SubjectAltNames

  // ---------------------------------------------------------------- IssueCertificate

  function WrittenSANs(s: SANs): SANs {
    if s.Empty() then NO_SANS else SubjectAltNames.Normalized(s)
  }

  /** The days asked for, or 90. */
  function AskedDays(req: I.IssueRequest): (days: int)
    ensures days == 90 || days == req.validityDays
  {
    if req.validityDays == 0 then 90 else req.validityDays
  }

  /** The certificate is for the subject, the names and the key of the signing request when there is
      one, and else for those of the call, with an ML-DSA-44 key when no algorithm is named. The
      purpose is server authentication and the length 90 days when none is asked for. */
  predicate CertAnswers(c: Certificate, req: I.IssueRequest) {
    && (match req.csr
        case Some(csr) =>
          c.subject == csr.subject && c.sans == WrittenSANs(csr.sans) && c.publicKey == csr.publicKey
        case None =>
          && c.subject == req.subject && c.sans == WrittenSANs(req.sans) && !req.algorithm.Unsupported?
          && c.publicKey.algorithm == if req.algorithm.Chosen? then req.algorithm.algorithm else MLDSA44)
    && !c.basicConstraints.isCA && c.keyUsage == 0x0001
    && c.extKeyUsage == (if |req.extKeyUsage| == 0 then [1] else req.extKeyUsage)
    && AskedDays(req) > 0 && c.notBefore < c.notAfter
    && c.notAfter - c.notBefore == AddedSpan(AskedDays(req)) + 300 * SECOND
    && c.subjectKeyId == Some(KeyIdentifier(c.publicKey))
    && c.signature.Signed? && c.authorityKeyId == Some(KeyIdentifier(c.signature.signer))
    && c.unhandledExtensions == []
  }

  /** With a request of its own the key holder has signed it, its key is certified and none is kept. */
  predicate KeyAnswers(row: CertRow, req: I.IssueRequest) {
    && (row.keyId != "" <==> req.storeKey)
    && (req.csr.Some? ==>
          var csr := req.csr.value;
          && row.keyId == ""
          && SignatureValid(csr.publicKey, csr.rawTbs, csr.signature))
  }

  predicate RowAnswers(row: CertRow, req: I.IssueRequest) {
    && CertAnswers(row.cert, req) && KeyAnswers(row, req)
    && row.caId == req.caId && row.algorithm == row.cert.publicKey.algorithm
    && row.subjectDN == NameText.Printed(row.cert.subject)
  }

  predicate OrderAnswers(order: I.Order, req: I.IssueRequest) {
    && order.req == req && order.ca.id == req.caId
    && order.subject == I.RequestedSubject(req) && order.sans == I.RequestedSANs(req)
    && Chosen(order.algorithm) == I.RequestedAlgorithm(req)
    && order.purposes == I.RequestedPurposes(req)
    && order.days == I.RequestedDays(req) > 0
    && (req.csr.Some? ==>
          var csr := req.csr.value;
          SignatureValid(csr.publicKey, csr.rawTbs, csr.signature) && !req.storeKey)
  }

  predicate Stored(row: CertRow, db: DB) {
    row.serial in db.certs && RowKept(row, db.certs[row.serial])
  }

  predicate IssueAnswers(call: I.IssueCall, req: I.IssueRequest, db: DB) {
    match call
    case IssueStart(r) => r == req
    case IssueChecked(order) => OrderAnswers(order, req)
    case IssuePlanned(order, _, _, _) => OrderAnswers(order, req)
    case IssueStoreKey(row, _, _, _) => RowAnswers(row, req)
    case IssueInsert(row, _) => RowAnswers(row, req)
    case IssueUndo(_, _) => true
    case IssueChain(row, _) => RowAnswers(row, req) && Stored(row, db)
    case IssueDone(result) => result.Ok? ==> RowAnswers(result.value, req) && Stored(result.value, db)
  }

  lemma CheckedAnswers(cfg: Config, req: I.IssueRequest, db: DB)
    requires Keyed(db)
    ensures IssueAnswers(I.CheckRequest(req, db, cfg), req, db)
  {
    hide DaysDuration, KnownPurposes;
  }

  /** The contents of a freshly read leaf certificate. */
  lemma LeafContents(order: I.Order, req: I.IssueRequest, now: int, notBefore: int, notAfter: int, signer: PrivateKey,
                     serial: int, seed: nat)
    requires OrderAnswers(order, req) && WindowOk(order, now, notBefore, notAfter)
    requires CACertOk(order.ca.cert, false) && PublicOf(signer) == order.ca.cert.publicKey
    requires var t := I.LeafTemplate(order, notBefore, notAfter, serial);
             && CreateCertificate(t, Some(order.ca.cert), I.LeafKey(order, seed), signer).Ok?
             && ParsedCertificate(CreateCertificate(t, Some(order.ca.cert), I.LeafKey(order, seed), signer).value).Ok?
    ensures var t := I.LeafTemplate(order, notBefore, notAfter, serial);
            var der := CreateCertificate(t, Some(order.ca.cert), I.LeafKey(order, seed), signer).value;
            var c := ParsedCertificate(der).value;
            && CertAnswers(c, req)
            && c.subject == order.subject && c.publicKey.algorithm == order.algorithm
  {
    hide Rdn.RdnSequence, Rdn.ParsedName, ApplyExtensions, Truncate, ParsedCertificate, CreateCertificate, ReadSANs,
         WrittenSANs, AddDays, AddedSpan, MarshalTime;
    var t := I.LeafTemplate(order, notBefore, notAfter, serial);
    CreatedTimes(t, Some(order.ca.cert), I.LeafKey(order, seed), signer);
    LeafSpan(now, order.days);
    CertificateRoundTrip(t, Some(order.ca.cert), I.LeafKey(order, seed), signer);
    WholeSeconds(now, order.days);
    WrittenSANsRead(t, Some(order.ca.cert), I.LeafKey(order, seed), signer);
  }

  lemma WrittenSANsRead(t: Certificate, parent: Option<Certificate>, pub: PublicKey, signer: PrivateKey)
    requires CreateCertificate(t, parent, pub, signer).Ok?
    ensures Extensible(t) && (ReadSANs(t).Ok? ==> ReadSANs(t).value == WrittenSANs(t.sans))
  {
    hide SubjectAltNames.ParsedSANs, SubjectAltNames.MarshalledSANs, SubjectAltNames.Normalized, NameBytes, IssuerBytes;
    if !t.sans.Empty() {
      SubjectAltNames.SANsRoundTrip(t.sans);
    }
  }

  lemma SignedAnswers(order: I.Order, req: I.IssueRequest, now: int, notBefore: int, notAfter: int, signer: PrivateKey,
                      env: Env, db: DB)
    requires OrderAnswers(order, req) && WindowOk(order, now, notBefore, notAfter) && EnvOk(env)
    requires CACertOk(order.ca.cert, false) && PublicOf(signer) == order.ca.cert.publicKey
    ensures IssueAnswers(I.SignLeaf(order, notBefore, notAfter, signer, env), req, db)
  {
    hide CreateCertificate, ParsedCertificate, CertAnswers, CACertOk, WindowOk, NameText.Printed,
         RevocationLists.SerialHex;
    var call := I.SignLeaf(order, notBefore, notAfter, signer, env);
    if call.IssueInsert? || call.IssueStoreKey? {
      LeafContents(order, req, now, notBefore, notAfter, signer, env.serial.value, env.seed);
    }
  }

  lemma LoadedAnswers(order: I.Order, req: I.IssueRequest, now: int, notBefore: int, notAfter: int, sh: Shared,
                      env: Env)
    requires SharedOk(sh) && IssueOk(I.IssuePlanned(order, now, notBefore, notAfter), sh) && EnvOk(env)
    requires OrderAnswers(order, req)
    ensures IssueAnswers(I.LoadStep(order, notBefore, notAfter, sh.keys, env), req, sh.db)
  {
    hide I.SignLeaf, CACertOk, OrderAnswers, ValidKeyId, WindowOk, IssueAnswers;
    var signer := LoadResult(sh.keys, order.ca.keyId, order.req.caPassphrase);
    if signer.Ok? {
      assert CAOk(sh.db.cas, sh.db.cas[order.ca.id]);
      assert KeyFits(sh.keys, order.ca.keyId, order.ca.cert.publicKey);
      SignedAnswers(order, req, now, notBefore, notAfter, signer.value, env, sh.db);
    } else {
      FailureAnswers(signer.error, req, sh.db);
    }
  }

  lemma FailureAnswers(e: Error, req: I.IssueRequest, db: DB)
    ensures IssueAnswers(I.Failed(e), req, db)
  {
  }

  lemma InsertedAnswers(row: CertRow, ca: CARow, req: I.IssueRequest, sh: Shared)
    requires SharedOk(sh) && IssueOk(I.IssueInsert(row, ca), sh) && RowAnswers(row, req)
    ensures var (call', db') := I.InsertStep(row, ca, sh.db); IssueAnswers(call', req, db')
  {
    hide SharedOk, RowAnswers, KeyFits, LeafOk;
    ValidRowIsBare(sh.db.cas, row);
  }

  lemma IssueStepAnswers(cfg: Config, c: I.IssueCall, req: I.IssueRequest, sh: Shared, env: Env)
    requires SharedOk(sh) && IssueOk(c, sh) && EnvOk(env) && IssueAnswers(c, req, sh.db)
    ensures var (c', sh') := I.AdvanceIssue(cfg, c, sh, env); IssueAnswers(c', req, sh'.db)
  {
    hide SharedOk, OrderAnswers, RowAnswers, Stored, I.CheckRequest, I.LoadStep, I.InsertStep, OrderOk, WindowOk, EnvOk,
         NewLeafOk, KeyFits, ValidKeyId;
    match c
    case IssueStart(r) =>
      SharedIsKeyed(sh);
      CheckedAnswers(cfg, r, sh.db);
    case IssuePlanned(order, now, notBefore, notAfter) => LoadedAnswers(order, req, now, notBefore, notAfter, sh, env);
    case IssueInsert(row, ca) => InsertedAnswers(row, ca, req, sh);
    case _ =>
  }

  // ---------------------------------------------------------------- CreateCA

  predicate DaysAnswer(days: int, req: C.CreateRequest) {
    ResolveDays(ProfileOf(req.parentId == ""), req.validityDays) == Ok(days)
  }

  /** The days asked for, or ten years for a root and five for an intermediate. */
  function CADays(req: C.CreateRequest): (days: int)
    ensures days == req.validityDays || days == 3650 || days == 1825
  {
    if req.validityDays != 0 then req.validityDays else if req.parentId == "" then 3650 else 1825
  }

  /** The CA certificate has the requested subject, algorithm and length, and the two key identifiers. */
  predicate CARowAnswers(row: CARow, req: C.CreateRequest) {
    var c := row.cert;
    && row.name == req.name && row.parentId == req.parentId
    && Chosen(row.algorithm) == req.algorithm
    && c.subject == req.subject && c.sans == NO_SANS && c.extKeyUsage == [] && c.unhandledExtensions == []
    && c.notAfter - c.notBefore == CADays(req) * 86_400 * SECOND + 300 * SECOND
    && row.createdAt == c.notBefore + 300 * SECOND
    && c.subjectKeyId == Some(KeyIdentifier(c.publicKey))
    && c.signature.Signed? && c.authorityKeyId == Some(KeyIdentifier(c.signature.signer))
  }

  predicate PlanAnswers(plan: C.CAPlan, req: C.CreateRequest) {
    && plan.req == req && Chosen(plan.algorithm) == req.algorithm && DaysAnswer(plan.days, req)
    && (plan.parent.None? <==> req.parentId == "")
  }

  predicate CreateAnswers(call: C.CreateCall, req: C.CreateRequest, db: DB) {
    match call
    case CreateStart(r) => r == req
    case CreateChecked(r, algorithm, days, parent) =>
      && r == req && Chosen(algorithm) == req.algorithm && DaysAnswer(days, req)
      && (parent.None? <==> req.parentId == "")
    case CreatePlanned(plan) => PlanAnswers(plan, req)
    case CreateKeyed(plan, _, _, _) => PlanAnswers(plan, req)
    case CreateInsert(row) => CARowAnswers(row, req)
    case CreateUndo(_, _) => true
    case CreateDone(result, _) => result.Ok? ==> CARowAnswers(result.value, req) && HasCA(db.cas, result.value)
  }

  lemma CheckedCreateAnswers(req: C.CreateRequest, db: DB)
    ensures CreateAnswers(C.CheckRequest(req, db), req, db)
  {
    hide NameText.TrimSpace;
  }

  lemma CAContents(plan: C.CAPlan, req: C.CreateRequest, priv: PrivateKey, signer: PrivateKey, serial: int)
    requires PlanAnswers(plan, req)
    requires plan.now % SECOND == 0 && plan.notBefore == plan.now - CLOCK_SKEW
    requires plan.notAfter == AddDays(plan.now, plan.days) && 0 < plan.days <= ROOT_VALIDITY_DAYS
    requires plan.parent.Some? ==> CACertOk(plan.parent.value.cert, true)
    requires var t := C.CATemplate(plan, signer.algorithm, serial);
             && CreateCertificate(t, C.ParentCert(plan), PublicOf(priv), signer).Ok?
             && ParsedCertificate(CreateCertificate(t, C.ParentCert(plan), PublicOf(priv), signer).value).Ok?
    ensures var t := C.CATemplate(plan, signer.algorithm, serial);
            var c := ParsedCertificate(CreateCertificate(t, C.ParentCert(plan), PublicOf(priv), signer).value).value;
            forall id: string, keyId: string ::
              CARowAnswers(CARow(id, req.name, req.parentId, plan.algorithm, c, keyId, ACTIVE, plan.now), req)
  {
    hide Rdn.RdnSequence, Rdn.ParsedName, ApplyExtensions, Truncate, ParsedCertificate, CreateCertificate, ReadSANs,
         AddDays, MarshalTime;
    var t := C.CATemplate(plan, signer.algorithm, serial);
    CreatedTimes(t, C.ParentCert(plan), PublicOf(priv), signer);
    CADaysExact(plan.now, plan.days);
    CertificateRoundTrip(t, C.ParentCert(plan), PublicOf(priv), signer);
    WholeSeconds(plan.now, plan.days);
    WrittenSANsRead(t, C.ParentCert(plan), PublicOf(priv), signer);
  }

  lemma SignedCAAnswers(plan: C.CAPlan, req: C.CreateRequest, keyId: string, priv: PrivateKey, signer: PrivateKey,
                        serial: int, env: Env, cas: CAs, db: DB)
    requires PlanOk(cas, plan) && PlanAnswers(plan, req)
    requires plan.parent.None? ==> signer == priv && priv.algorithm == plan.algorithm
    requires plan.parent.Some? ==>
               CACertOk(plan.parent.value.cert, true) && PublicOf(signer) == plan.parent.value.cert.publicKey
    ensures CreateAnswers(C.SignCA(plan, keyId, priv, signer, serial, env), req, db)
  {
    hide CreateCertificate, ParsedCertificate, CARowAnswers, CACertOk, DaysAnswer;
    var call := C.SignCA(plan, keyId, priv, signer, serial, env);
    if call.CreateInsert? {
      CAContents(plan, req, priv, signer, serial);
    }
  }

  lemma GeneratedAnswers(plan: C.CAPlan, req: C.CreateRequest, sh: Shared, env: Env)
    requires PlanOk(sh.db.cas, plan) && PlanAnswers(plan, req)
    ensures CreateAnswers(C.GenerateStep(plan, sh.keys, env).0, req, sh.db)
  {
    hide C.SignCA, PlanOk, CARowAnswers, DaysAnswer, ValidKeyId;
    if env.keyId.Some? && env.serial.Some? && plan.parent.None? && env.expands {
      var priv := PrivateKey(plan.algorithm, env.seed);
      SignedCAAnswers(plan, req, env.keyId.value, priv, priv, env.serial.value, env, sh.db.cas, sh.db);
    }
  }

  lemma LoadedCAAnswers(plan: C.CAPlan, req: C.CreateRequest, keyId: string, priv: PrivateKey, serial: int,
                        sh: Shared, env: Env)
    requires SharedOk(sh) && CreateOk(C.CreateKeyed(plan, keyId, priv, serial), sh) && PlanAnswers(plan, req)
    ensures CreateAnswers(C.LoadStep(plan, keyId, priv, serial, sh.keys, env), req, sh.db)
  {
    hide C.SignCA, PlanOk, CAOk, LeafOk, CACertOk, PlanAnswers, CARowAnswers, ValidKeyId;
    if LoadResult(sh.keys, plan.parent.value.keyId, plan.req.parentPassphrase).Ok? {
      var signer := LoadResult(sh.keys, plan.parent.value.keyId, plan.req.parentPassphrase).value;
      PlanParent(sh.db.cas, plan);
      ParentCertOk(sh.db.cas, plan);
      assert KeyFits(sh.keys, plan.parent.value.keyId, plan.parent.value.cert.publicKey);
      SignedCAAnswers(plan, req, keyId, priv, signer, serial, env, sh.db.cas, sh.db);
    }
  }

  lemma CreateStepAnswers(c: C.CreateCall, req: C.CreateRequest, sh: Shared, env: Env)
    requires SharedOk(sh) && CreateOk(c, sh) && CreateAnswers(c, req, sh.db)
    ensures var (c', sh') := C.AdvanceCreate(c, sh, env); CreateAnswers(c', req, sh'.db)
  {
    hide SharedOk, C.CheckRequest, C.GenerateStep, C.LoadStep, CARowAnswers, DaysAnswer, PlanOk, CAOk, KeyFits,
         ValidKeyId;
    match c
    case CreateStart(r) => CheckedCreateAnswers(r, sh.db);
    case CreatePlanned(plan) => GeneratedAnswers(plan, req, sh, env);
    case CreateKeyed(plan, keyId, priv, serial) => LoadedCAAnswers(plan, req, keyId, priv, serial, sh, env);
    case _ =>
  }

  // ---------------------------------------------------------------- Revoke

  predicate RevokedAs(db: DB, serial: string, reason: int) {
    serial in db.certs && db.certs[serial].status == REVOKED && db.certs[serial].revocationReason == Some(reason)
  }

  predicate RevokeAnswers(call: R.RevokeCall, serial: string, reason: int, db: DB) {
    var lower := RevocationLists.Lower(serial);
    match call
    case RevokeStart(s, r) => s == serial && r == reason
    case RevokeFound(s, r, caId) => s == lower && r == reason && s in db.certs && db.certs[s].caId == caId
    case RevokeTimed(s, r, caId, _) => s == lower && r == reason && s in db.certs && db.certs[s].caId == caId
    case RevokeInvalidate(caId) => RevokedAs(db, lower, reason) && db.certs[lower].caId == caId
    case RevokeDone(error) => error.None? ==> RevokedAs(db, lower, reason)
  }

  lemma RevokeStepAnswers(c: R.RevokeCall, serial: string, reason: int, sh: Shared, env: Env)
    requires RevokeAnswers(c, serial, reason, sh.db)
    ensures var (c', sh') := R.AdvanceRevoke(c, sh, env); RevokeAnswers(c', serial, reason, sh'.db)
  {
    hide RevocationLists.Lower, R.IsReason, Truncate;
  }

  // ---------------------------------------------------------------- in every run

  /** The state of a call fits the request it began with. */
  predicate Answers(call: Call, first: Call, db: DB) {
    match call
    case Issuing(c) => first.Issuing? && first.issue.IssueStart? && IssueAnswers(c, first.issue.req, db)
    case Creating(c) => first.Creating? && first.create.CreateStart? && CreateAnswers(c, first.create.req, db)
    case Revoking(c) =>
      first.Revoking? && first.revoke.RevokeStart? && RevokeAnswers(c, first.revoke.serial, first.revoke.reason, db)
    case _ => true
  }

  lemma StartAnswers(call: Call, db: DB)
    requires IsStart(call)
    ensures Answers(call, call, db)
  {
  }

  lemma StepAnswers(cfg: Config, call: Call, first: Call, sh: Shared, env: Env)
    requires SharedOk(sh) && CallOk(call, sh) && EnvOk(env) && Answers(call, first, sh.db)
    ensures var (call', sh') := Advance(cfg, call, sh, env); Answers(call', first, sh'.db)
  {
    hide SharedOk, IssueOk, CreateOk, EnvOk, IssueAnswers, CreateAnswers, RevokeAnswers, I.AdvanceIssue,
         C.AdvanceCreate, R.AdvanceRevoke, CrlCalls.AdvanceCrl;
    match call
    case Issuing(c) => IssueStepAnswers(cfg, c, first.issue.req, sh, env);
    case Creating(c) => CreateStepAnswers(c, first.create.req, sh, env);
    case Revoking(c) => RevokeStepAnswers(c, first.revoke.serial, first.revoke.reason, sh, env);
    case _ =>
  }

  lemma AnswersStable(call: Call, first: Call, db: DB, db': DB)
    requires Answers(call, first, db) && TablesKept(db, db')
    ensures Answers(call, first, db')
  {
    hide RowAnswers, CARowAnswers, OrderAnswers, PlanAnswers, DaysAnswer, RevocationLists.Lower;
  }

  /** Every call answers the request that the step beginning it carried, at every moment of
      every run. */
  lemma {:induction false} CallsAnswer(cfg: Config, states: seq<System>, steps: seq<Step>, n: nat, id: nat)
    returns (m: nat)
    requires IsRun(cfg, states, steps) && n < |states|
    requires id in states[n].calls && !states[n].calls[id].Stopped?
    ensures m < n && steps[m].Begin? && steps[m].id == id
    ensures Answers(states[n].calls[id], steps[m].call, states[n].shared.db)
  {
    hide Advance, Answers, SharedOk, CallOk, Accounted, TablesKept, HasWritten, EnvOk, Finished, Held, IsStart;
    assert n > 0;
    var s, s', step := states[n - 1], states[n], steps[n - 1];
    assert Next(cfg, s, states[n - 1 + 1], step);
    RunInv(cfg, states, steps, n - 1);
    if step.Begin? && step.id == id {
      m := n - 1;
      StartAnswers(step.call, s'.shared.db);
    } else {
      if step.Run? {
        StepTables(cfg, s.calls[step.id], s.shared, step.env);
      }
      m := CallsAnswer(cfg, states, steps, n - 1, id);
      if step.Run? && step.id == id {
        StepAnswers(cfg, s.calls[id], steps[m].call, s.shared, step.env);
      } else if step.Run? {
        AnswersStable(s.calls[id], steps[m].call, s.shared.db, s'.shared.db);
      }
    }
  }

  /** What IssueCertificate returns and stores is what was asked for, in every interleaving. */
  lemma IssuedAsRequested(cfg: Config, states: seq<System>, steps: seq<Step>, n: nat, id: nat) returns (m: nat)
    requires IsRun(cfg, states, steps) && n < |states|
    requires id in states[n].calls && states[n].calls[id].Issuing?
    requires states[n].calls[id].issue.IssueDone? && states[n].calls[id].issue.result.Ok?
    ensures var row, db := states[n].calls[id].issue.result.value, states[n].shared.db;
            && m < n && steps[m].Begin? && steps[m].id == id
            && steps[m].call.Issuing? && steps[m].call.issue.IssueStart?
            && RowAnswers(row, steps[m].call.issue.req)
            && row.serial in db.certs && RowKept(row, db.certs[row.serial])
  {
    hide RowAnswers, RowKept, Next;
    m := CallsAnswer(cfg, states, steps, n, id);
  }

  /** In time order, the compared duration is the true length, and it is the requested one exactly
      when the request does not wrap in nanoseconds. */
  lemma IssuedLength(cfg: Config, states: seq<System>, steps: seq<Step>, n: nat, id: nat) returns (m: nat)
    requires IsTimelyRun(cfg, states, steps) && n < |states|
    requires id in states[n].calls && states[n].calls[id].Issuing?
    requires states[n].calls[id].issue.IssueDone? && states[n].calls[id].issue.result.Ok?
    ensures m < n && steps[m].Begin? && steps[m].id == id
    ensures steps[m].call.Issuing? && steps[m].call.issue.IssueStart?
    ensures var c, days := states[n].calls[id].issue.result.value.cert, AskedDays(steps[m].call.issue.req);
            var length := c.notAfter - (c.notBefore + CLOCK_SKEW);
            && length == DaysDuration(days) <= cfg.maxValidity
            && length <= INTERMEDIATE_VALIDITY_DAYS * DAY
            && (length == days * DAY <==> days * DAY <= MAX_INT)
  {
    hide Next, Inv, CATimeOk, CallTimely, DaysDuration, AddedSpan, LeafTimeOk, IssuedUnder, CAOk;
    m := IssuedAsRequested(cfg, states, steps, n, id);
    TimelyRunInv(cfg, states, steps, n);
    var row, db := states[n].calls[id].issue.result.value, states[n].shared.db;
    LifeLeft(cfg, states[n], row.serial);
    var days := AskedDays(steps[m].call.issue.req);
    SpanIsDuration(days);
    DurationMeaning(days);
  }

  lemma LifeLeft(cfg: Config, s: System, serial: string)
    requires Inv(s) && TimeInv(cfg, s) && serial in s.shared.db.certs
    ensures var c := s.shared.db.certs[serial].cert;
            && c.notAfter - (c.notBefore + CLOCK_SKEW) <= INTERMEDIATE_VALIDITY_DAYS * DAY
            && c.notAfter - (c.notBefore + CLOCK_SKEW) <= cfg.maxValidity
  {
    hide SharedOk, CallOk, Accounted, CallTimely, CACertOk, LeafCertOk, StatusOk, RevocationLists.SerialHex;
    SharedRows(s.shared);
    var db := s.shared.db;
    var row := db.certs[serial];
    assert LeafOk(db.cas, row) && LeafTimeOk(cfg, db.cas, row) && CATimeOk(db.cas, db.cas[row.caId], s.shared.clock);
  }

  lemma DurationMeaning(days: int)
    requires days > 0
    ensures DaysDuration(days) == days * DAY <==> days * DAY <= MAX_INT
  {
  }

  /** The same for CreateCA; its row stands unchanged in the table. */
  lemma CreatedAsRequested(cfg: Config, states: seq<System>, steps: seq<Step>, n: nat, id: nat) returns (m: nat)
    requires IsRun(cfg, states, steps) && n < |states|
    requires id in states[n].calls && states[n].calls[id].Creating?
    requires states[n].calls[id].create.CreateDone? && states[n].calls[id].create.result.Ok?
    ensures var row, db := states[n].calls[id].create.result.value, states[n].shared.db;
            && m < n && steps[m].Begin? && steps[m].id == id
            && steps[m].call.Creating? && steps[m].call.create.CreateStart?
            && CARowAnswers(row, steps[m].call.create.req)
            && HasCA(db.cas, row)
  {
    hide CARowAnswers, Next;
    m := CallsAnswer(cfg, states, steps, n, id);
  }
}
