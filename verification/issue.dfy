/** IssueCertificate (engine.go:296-459) as a sequence of atomic steps on the shared state. */
module IssueCalls {
  import opened Prelude
  import opened Names
  import opened X509
  import opened Certificates
  import opened Profiles
  import opened Stores
  import opened Keystores
  import opened EngineStates
  import opened Times
  import RevocationLists
  import NameText

  datatype Csr = Csr(subject: Name, publicKey: PublicKey, rawTbs: Bytes, signature: Signature<Bytes>, sans: SANs)

  datatype IssueRequest = IssueRequest(
    caId: string,
    caPassphrase: Bytes,
    subject: Name,
    sans: SANs,
    algorithm: AlgorithmChoice,
    validityDays: int,
    extKeyUsage: seq<int>,
    storeKey: bool,
    csr: Option<Csr>)

  /** What the checks resolve a request to. */
  datatype Order = Order(req: IssueRequest, ca: CARow, subject: Name, sans: SANs, algorithm: Algorithm,
                         purposes: seq<int>, days: int)

  datatype IssueCall =
    | IssueStart(req: IssueRequest)
    | IssueChecked(order: Order)
    | IssuePlanned(order: Order, now: int, notBefore: int, notAfter: int)
    | IssueStoreKey(row: CertRow, ca: CARow, priv: PrivateKey, passphrase: Bytes)
    | IssueInsert(row: CertRow, ca: CARow)
    | IssueUndo(keyId: string, error: Error)
    | IssueChain(row: CertRow, ca: CARow)
    | IssueDone(result: Result<CertRow>)

  function Failed(e: Error): IssueCall {
    IssueDone(Err(e))
  }

  function RequestedAlgorithm(req: IssueRequest): AlgorithmChoice {
    if req.csr.Some? then Chosen(req.csr.value.publicKey.algorithm)
    else if req.algorithm.Unset? then Chosen(MLDSA44)
    else req.algorithm
  }

  function RequestedPurposes(req: IssueRequest): seq<int> {
    if req.extKeyUsage == [] then [1] else req.extKeyUsage
  }

  function RequestedDays(req: IssueRequest): int {
    if req.validityDays == 0 then END_ENTITY_VALIDITY_DAYS else req.validityDays
  }

  function RequestedSubject(req: IssueRequest): Name {
    if req.csr.Some? then req.csr.value.subject else req.subject
  }

  function RequestedSANs(req: IssueRequest): SANs {
    if req.csr.Some? then req.csr.value.sans else req.sans
  }

  /** The guards before the clock is read. */
  function CheckOrder(req: IssueRequest, ca: CARow, cfg: Config): IssueCall {
    if ca.status != ACTIVE || ca.parentId == "" then Failed(ConstraintViolation)
    else if req.csr.Some? && !SignatureValid(req.csr.value.publicKey, req.csr.value.rawTbs, req.csr.value.signature)
    then Failed(CSRSignature)
    else if req.csr.Some? && req.storeKey then Failed(ConstraintViolation)
    else
      var algorithm := RequestedAlgorithm(req);
      if !Allows(END_ENTITY_ALGORITHMS, algorithm) then Failed(ConstraintViolation)
      else if !KnownPurposes(RequestedPurposes(req)) then Failed(ConstraintViolation)
      else if RequestedSubject(req).commonName == [] && RequestedSANs(req).Empty() then Failed(ConstraintViolation)
      else
        var days := RequestedDays(req);
        if days < 0 || DaysDuration(days) > cfg.maxValidity then Failed(ConstraintViolation)
        else IssueChecked(Order(req, ca, RequestedSubject(req), RequestedSANs(req), algorithm.algorithm,
                                RequestedPurposes(req), days))
  }

  function CheckRequest(req: IssueRequest, db: DB, cfg: Config): IssueCall {
    var ca := GetCAResult(db, req.caId);
    if ca.Err? then Failed(ca.error) else CheckOrder(req, ca.value, cfg)
  }

  function PlanValidity(order: Order, clock: int): IssueCall {
    var now := Truncate(clock);
    var notAfter := AddDays(now, order.days);
    if notAfter > order.ca.cert.notAfter then Failed(ConstraintViolation)
    else IssuePlanned(order, now, now - CLOCK_SKEW, notAfter)
  }

  function LeafTemplate(order: Order, notBefore: int, notAfter: int, serial: int): Certificate {
    NewTemplate(serial, order.ca.cert.publicKey.algorithm, order.subject, notBefore, notAfter,
                BasicConstraints(false, 0, false), DIGITAL_SIGNATURE, order.purposes, order.sans)
  }

  function LeafKey(order: Order, seed: nat): PublicKey {
    if order.req.csr.Some? then order.req.csr.value.publicKey else PublicOf(PrivateKey(order.algorithm, seed))
  }

  function LeafRow(order: Order, notBefore: int, notAfter: int, serial: nat, cert: Certificate,
                   keyId: string): CertRow {
    CertRow(RevocationLists.SerialHex(serial), order.ca.id, NameText.Printed(order.subject), order.algorithm, cert,
            keyId, VALID, notBefore, notAfter, None, None)
  }

  /** From the CA's signer to the row that is ready to insert. */
  function SignLeaf(order: Order, notBefore: int, notAfter: int, signer: PrivateKey, env: Env): IssueCall {
    if env.serial.None? || env.serial.value <= 0 then Failed(Other)
    else
      var serial := env.serial.value;
      var der := CreateCertificate(LeafTemplate(order, notBefore, notAfter, serial), Some(order.ca.cert),
                                   LeafKey(order, env.seed), signer);
      if der.Err? then Failed(der.error)
      else
        var cert := ParsedCertificate(der.value);
        if cert.Err? then Failed(cert.error)
        else if !order.req.storeKey then
          IssueInsert(LeafRow(order, notBefore, notAfter, serial, cert.value, ""), order.ca)
        else if env.newId.None? then Failed(Other)
        else IssueStoreKey(LeafRow(order, notBefore, notAfter, serial, cert.value, env.newId.value), order.ca,
                           PrivateKey(order.algorithm, env.seed), order.req.caPassphrase)
  }

  function LoadStep(order: Order, notBefore: int, notAfter: int, keys: Keys, env: Env): IssueCall {
    var signer := LoadResult(keys, order.ca.keyId, order.req.caPassphrase);
    if signer.Err? then Failed(signer.error) else SignLeaf(order, notBefore, notAfter, signer.value, env)
  }

  function StoreStep(row: CertRow, ca: CARow, priv: PrivateKey, passphrase: Bytes, keys: Keys): (IssueCall, Keys) {
    var stored := AfterStore(keys, row.keyId, priv, passphrase);
    (if stored.1.Some? then Failed(stored.1.value) else IssueInsert(row, ca), stored.0)
  }

  function InsertStep(row: CertRow, ca: CARow, db: DB): (IssueCall, DB) {
    var inserted := AfterInsertCertificate(db, row);
    if inserted.1.None? then (IssueChain(row, ca), inserted.0)
    else if row.keyId != "" then (IssueUndo(row.keyId, inserted.1.value), inserted.0)
    else (Failed(inserted.1.value), inserted.0)
  }

  /** caResult (engine.go:246-267): the parent's row completes the chain. */
  function ChainStep(row: CertRow, ca: CARow, db: DB): IssueCall {
    if ca.parentId != "" && GetCAResult(db, ca.parentId).Err? then Failed(GetCAResult(db, ca.parentId).error)
    else IssueDone(Ok(row))
  }

  function AdvanceIssue(cfg: Config, call: IssueCall, sh: Shared, env: Env): (IssueCall, Shared) {
    match call
    case IssueStart(req) => (CheckRequest(req, sh.db, cfg), sh)
    case IssueChecked(order) => (PlanValidity(order, env.now), sh.(clock := env.now))
    case IssuePlanned(order, now, notBefore, notAfter) => (LoadStep(order, notBefore, notAfter, sh.keys, env), sh)
    case IssueStoreKey(row, ca, priv, passphrase) =>
      var (next, keys) := StoreStep(row, ca, priv, passphrase, sh.keys);
      (next, sh.(keys := keys))
    case IssueInsert(row, ca) =>
      var (next, db) := InsertStep(row, ca, sh.db);
      (next, sh.(db := db))
    case IssueUndo(keyId, error) => (Failed(error), sh.(keys := AfterDelete(sh.keys, keyId).0))
    case IssueChain(row, ca) => (ChainStep(row, ca, sh.db), sh)
    case IssueDone(_) => (call, sh)
  }

  function IssueRank(call: IssueCall): nat {
    match call
    case IssueStart(_) => 6
    case IssueChecked(_) => 5
    case IssuePlanned(_, _, _, _) => 4
    case IssueStoreKey(_, _, _, _) => 3
    case IssueInsert(_, _) => 2
    case IssueUndo(_, _) => 1
    case IssueChain(_, _) => 1
    case IssueDone(_) => 0
  }

  lemma IssueProgress(cfg: Config, call: IssueCall, sh: Shared, env: Env)
    requires !call.IssueDone?
    ensures IssueRank(AdvanceIssue(cfg, call, sh, env).0) < IssueRank(call)
  {
    hide CreateCertificate, ParsedCertificate, NameText.Printed, RevocationLists.SerialHex;
  }

  function RunIssue(cfg: Config, call: IssueCall, sh: Shared, env: Env): (r: (IssueCall, Shared))
    ensures r.0.IssueDone?
    decreases IssueRank(call)
  {
    if call.IssueDone? then (call, sh)
    else
      IssueProgress(cfg, call, sh, env);
      var (next, sh') := AdvanceIssue(cfg, call, sh, env);
      RunIssue(cfg, next, sh', env)
  }

  function IssueHeld(call: IssueCall): set<string> {
    match call
    case IssueInsert(row, _) => if row.keyId != "" then {row.keyId} else {}
    case IssueUndo(keyId, _) => {keyId}
    case _ => {}
  }
}
