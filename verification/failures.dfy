/** Which error a call returns: for CreateCA, IssueCertificate and CRL, run with nothing in between,
    the error in terms of the request, the shared state and the environment before the call. */
module Failures {
  import opened Prelude
  import opened Names
  import opened X509
  import opened Profiles
  import opened Stores
  import opened Keystores
  import opened EngineStates
  import opened Hierarchy
  import opened Invariants
  import opened Preservation
  import opened AloneRuns
  import opened Caching
  import opened Successes
  import opened CrlCalls
  import opened RevocationLists
  import opened Times
  import C = CreateCalls
  import Certificates
  import I = IssueCalls
  import NameText
  import Rdn
  import Snapshots

  // ---------------------------------------------------------------- IssueCertificate

  predicate Named(subject: Name, sans: SANs) {
    subject.commonName != [] || !sans.Empty()
  }

  /** The first requirement that the request itself misses: a signing request must be signed by its own
      key and leaves no key to store; then policy. */
  function RequestError(cfg: Config, req: I.IssueRequest): Option<Error> {
    if req.csr.Some? && req.csr.value.signature != Signed(req.csr.value.publicKey, req.csr.value.rawTbs)
    then Some(CSRSignature)
    else if req.csr.Some? && req.storeKey then Some(ConstraintViolation)
    else if !AlgorithmAccepted(req) then Some(ConstraintViolation)
    else if exists p :: p in req.extKeyUsage && p != 1 && p != 2 then Some(ConstraintViolation)
    else if req.csr.Some? && !Named(req.csr.value.subject, req.csr.value.sans) then Some(ConstraintViolation)
    else if req.csr.None? && !Named(req.subject, req.sans) then Some(ConstraintViolation)
    else if !LengthAccepted(cfg, req) then Some(ConstraintViolation)
    else None
  }

  /** The error of opening a key that is there. */
  function OpenError(keys: Keys, keyId: string, passphrase: Bytes): Option<Error>
    requires keyId in keys
  {
    if passphrase == [] then Some(EmptyPassphrase)
    else if passphrase != keys[keyId].passphrase then Some(WrongPassphrase)
    else None
  }

  /** The first of the steps before the certificate is made that fails. */
  function IssueError(cfg: Config, req: I.IssueRequest, sh: Shared, env: Env): Option<Error>
    requires req.caId in sh.db.cas ==> sh.db.cas[req.caId].keyId in sh.keys
  {
    if req.caId !in sh.db.cas then Some(NotFound)
    else
      var ca, days := sh.db.cas[req.caId], if req.validityDays == 0 then 90 else req.validityDays;
      if ca.parentId == "" then Some(ConstraintViolation)
      else if RequestError(cfg, req).Some? then RequestError(cfg, req)
      else if AddDays(Truncate(env.now), days) > ca.cert.notAfter then Some(ConstraintViolation)
      else if OpenError(sh.keys, ca.keyId, req.caPassphrase).Some? then OpenError(sh.keys, ca.keyId, req.caPassphrase)
      else if env.serial.None? then Some(Other)
      else None
  }

  lemma KeyIsThere(sh: Shared, caId: string)
    requires SharedOk(sh) && caId in sh.db.cas
    ensures sh.db.cas[caId].keyId in sh.keys && ValidKeyId(sh.db.cas[caId].keyId)
  {
    hide SharedOk, CACertOk, ValidKeyId;
    ParentIsFit(sh, caId);
  }

  lemma RequestChecked(cfg: Config, req: I.IssueRequest, ca: CARow)
    requires ca.status == ACTIVE && ca.parentId != ""
    ensures var call, e := I.CheckOrder(req, ca, cfg), RequestError(cfg, req);
            if e.Some? then call == I.Failed(e.value)
            else call.IssueChecked? && call.order.req == req && call.order.ca == ca
                 && call.order.days == (if req.validityDays == 0 then 90 else req.validityDays)
  {
    hide DaysDuration, SANs.Empty;
    var purposes := I.RequestedPurposes(req);
    Certificates.KnownPurposesAre(purposes);
    assert req.extKeyUsage == [] ==> purposes == [1];
  }

  lemma LoadErrors(order: I.Order, notBefore: int, notAfter: int, keys: Keys, env: Env)
    requires order.ca.keyId in keys && ValidKeyId(order.ca.keyId)
    ensures var call, e := I.LoadStep(order, notBefore, notAfter, keys, env),
                           OpenError(keys, order.ca.keyId, order.req.caPassphrase);
            && (e.Some? ==> call == I.Failed(e.value))
            && (e.None? && env.serial.None? ==> call == I.Failed(Other))
  {
    hide ValidKeyId;
  }

  /** The error of a guard is the error of the call. */
  lemma IssueFailsWith(cfg: Config, req: I.IssueRequest, sh: Shared, env: Env)
    requires SharedOk(sh) && EnvOk(env)
    ensures req.caId in sh.db.cas ==> sh.db.cas[req.caId].keyId in sh.keys
    ensures IssueError(cfg, req, sh, env).Some? ==>
              I.RunIssue(cfg, I.IssueStart(req), sh, env).0.result == Err(IssueError(cfg, req, sh, env).value)
  {
    hide SharedOk, I.RunIssue, I.CheckOrder, I.LoadStep, RequestError, OpenError, AddDays, Truncate, ValidKeyId;
    RunIssueStep(cfg, I.IssueStart(req), sh, env);
    if req.caId !in sh.db.cas {
      RunIssueIfDone(cfg, I.Failed(NotFound), sh, env);
    } else {
      var ca := sh.db.cas[req.caId];
      KeyIsThere(sh, req.caId);
      ActiveRow(sh, req.caId);
      if ca.parentId == "" {
        RootRefused(cfg, req, ca);
        RunIssueIfDone(cfg, I.Failed(ConstraintViolation), sh, env);
      } else {
        RequestChecked(cfg, req, ca);
        var checked := I.CheckOrder(req, ca, cfg);
        RunIssueIfDone(cfg, checked, sh, env);
        if checked.IssueChecked? {
          RunIssueStep(cfg, checked, sh, env);
          var planned, timed := I.PlanValidity(checked.order, env.now), sh.(clock := env.now);
          RunIssueIfDone(cfg, planned, timed, env);
          if planned.IssuePlanned? {
            RunIssueStep(cfg, planned, timed, env);
            LoadErrors(checked.order, planned.notBefore, planned.notAfter, sh.keys, env);
            var loaded := I.LoadStep(checked.order, planned.notBefore, planned.notAfter, sh.keys, env);
            RunIssueIfDone(cfg, loaded, timed, env);
          }
        }
      }
    }
  }

  lemma RootRefused(cfg: Config, req: I.IssueRequest, ca: CARow)
    requires ca.parentId == ""
    ensures I.CheckOrder(req, ca, cfg) == I.Failed(ConstraintViolation)
  {
  }

  /** A row whose serial number is taken is a conflict, and the key file is undone. */
  lemma InsertConflict(cfg: Config, row: CertRow, ca: CARow, sh: Shared, env: Env)
    requires row.serial in sh.db.certs
    ensures I.RunIssue(cfg, I.IssueInsert(row, ca), sh, env).0.result == Err(Conflict)
  {
    hide I.RunIssue;
    RunIssueStep(cfg, I.IssueInsert(row, ca), sh, env);
    var (next, db) := I.InsertStep(row, ca, sh.db);
    var sh' := sh.(db := db);
    RunIssueIfDone(cfg, next, sh', env);
    if next.IssueUndo? {
      RunIssueStep(cfg, next, sh', env);
      RunIssueIfDone(cfg, I.Failed(Conflict), sh'.(keys := AfterDelete(sh'.keys, next.keyId).0), env);
    }
  }

  lemma SignedShape(order: I.Order, notBefore: int, notAfter: int, signer: PrivateKey, env: Env)
    requires OrderSound(order) && EnvOk(env) && CACertOk(order.ca.cert, false) && env.serial.Some?
    requires PublicOf(signer) == order.ca.cert.publicKey
    requires NameWritable(order.subject) && WindowWritable(notBefore, notAfter) && SANsReadable(order.sans)
    ensures var call := I.SignLeaf(order, notBefore, notAfter, signer, env);
            if !order.req.storeKey then call.IssueInsert? && call.row.serial == SerialHex(env.serial.value)
            else if env.newId.None? then call == I.Failed(Other)
            else call.IssueStoreKey? && call.row.serial == SerialHex(env.serial.value)
                 && call.row.keyId == env.newId.value && call.passphrase == order.req.caPassphrase
  {
    hide Certificates.CreateCertificate, Certificates.ParsedCertificate, NameWritable, WindowWritable, SANsReadable,
         SerialHex, NameText.Printed, Rdn.ParsedName, Certificates.KnownPurposes;
    CertifiedExactly(I.LeafTemplate(order, notBefore, notAfter, env.serial.value), Some(order.ca.cert),
                     I.LeafKey(order, env.seed), signer);
  }

  /** After the certificate: the identifier for the key, its file, and the serial number. */
  function LateError(req: I.IssueRequest, sh: Shared, env: Env): Option<Error> {
    if req.storeKey && env.newId.None? then Some(Other)
    else if req.storeKey && env.newId.value in sh.keys then Some(KeyExists)
    else if env.serial.Some? && env.serial.value > 0 && SerialHex(env.serial.value) in sh.db.certs then Some(Conflict)
    else None
  }

  lemma SignedErrors(cfg: Config, order: I.Order, notBefore: int, notAfter: int, signer: PrivateKey, sh: Shared,
                     env: Env)
    requires OrderSound(order) && EnvOk(env) && CACertOk(order.ca.cert, false) && env.serial.Some?
    requires PublicOf(signer) == order.ca.cert.publicKey && order.req.caPassphrase != []
    requires NameWritable(order.subject) && WindowWritable(notBefore, notAfter) && SANsReadable(order.sans)
    requires LateError(order.req, sh, env).Some?
    ensures I.RunIssue(cfg, I.SignLeaf(order, notBefore, notAfter, signer, env), sh, env).0.result
            == Err(LateError(order.req, sh, env).value)
  {
    hide I.RunIssue, I.SignLeaf, SerialHex, ValidKeyId, CACertOk, NameWritable, WindowWritable, SANsReadable;
    SignedShape(order, notBefore, notAfter, signer, env);
    var call := I.SignLeaf(order, notBefore, notAfter, signer, env);
    RunIssueIfDone(cfg, call, sh, env);
    if call.IssueInsert? && call.row.serial in sh.db.certs {
      InsertConflict(cfg, call.row, call.ca, sh, env);
    } else if call.IssueStoreKey? {
      RunIssueStep(cfg, call, sh, env);
      var (next, keys) := I.StoreStep(call.row, call.ca, call.priv, call.passphrase, sh.keys);
      RunIssueIfDone(cfg, next, sh.(keys := keys), env);
      if next.IssueInsert? && call.row.serial in sh.db.certs {
        InsertConflict(cfg, call.row, call.ca, sh.(keys := keys), env);
      }
    }
  }

  /** Every guard passes, and the names and times can be written. */
  ghost predicate Signs(cfg: Config, req: I.IssueRequest, sh: Shared, env: Env) {
    && req.caId in sh.db.cas && sh.db.cas[req.caId].keyId in sh.keys
    && IssueError(cfg, req, sh, env) == None
    && RequestAccepted(cfg, req)
    && var now, days := Truncate(env.now), if req.validityDays == 0 then 90 else req.validityDays;
    WindowWritable(now - 300 * SECOND, AddDays(now, days))
  }

  /** Then the call fails for what is already taken, or not at all. */
  lemma IssueEndsWith(cfg: Config, req: I.IssueRequest, sh: Shared, env: Env)
    requires SharedOk(sh) && EnvOk(env) && Signs(cfg, req, sh, env)
    ensures LateError(req, sh, env).Some? ==>
              I.RunIssue(cfg, I.IssueStart(req), sh, env).0.result == Err(LateError(req, sh, env).value)
  {
    hide SharedOk, I.RunIssue, I.CheckOrder, I.SignLeaf, RequestError, AddDays, Truncate, ValidKeyId,
         CACertOk, NameWritable, WindowWritable, SANsReadable, SerialHex, OrderSound, RequestAccepted, SANs.Empty;
    var ca := sh.db.cas[req.caId];
    RunIssueStep(cfg, I.IssueStart(req), sh, env);
    ParentIsFit(sh, req.caId);
    RequestChecked(cfg, req, ca);
    GuardsExactly(cfg, req, sh.db);
    AcceptedExactly(cfg, req, sh.db);
    var order := OrderOf(req, ca);
    RunIssueStep(cfg, I.IssueChecked(order), sh, env);
    var planned, timed := I.PlanValidity(order, env.now), sh.(clock := env.now);
    RunIssueStep(cfg, planned, timed, env);
    OpensExactly(sh.keys, ca.keyId, req.caPassphrase);
    var signer := LoadResult(sh.keys, ca.keyId, req.caPassphrase);
    LoadedIsStored(sh.keys, ca.keyId, req.caPassphrase);
    if LateError(req, sh, env).Some? {
      SignedErrors(cfg, order, planned.notBefore, planned.notAfter, signer.value, timed, env);
    }
  }

  // ---------------------------------------------------------------- CreateCA

  /** The first requirement that is missed before the key is made. */
  function CreateGuard(req: C.CreateRequest, sh: Shared, env: Env): Option<Error> {
    if NameText.TrimSpace(req.name) == [] || req.subject.commonName == [] || req.passphrase == [] then
      Some(ConstraintViolation)
    else if !IsRoot(req) && req.parentId !in sh.db.cas then Some(NotFound)
    else if !IsRoot(req) && sh.db.cas[req.parentId].parentId != "" then Some(ConstraintViolation)
    else if !LevelAccepts(req) then Some(ConstraintViolation)
    else if !IsRoot(req) && AddDays(Truncate(env.now), ResolvedDays(req)) > sh.db.cas[req.parentId].cert.notAfter then
      Some(ConstraintViolation)
    else None
  }

  /** Then the key file, the serial number and the signer. */
  function CreateKeyError(req: C.CreateRequest, sh: Shared, env: Env): Option<Error>
    requires !IsRoot(req) ==> req.parentId in sh.db.cas && sh.db.cas[req.parentId].keyId in sh.keys
  {
    if env.keyId.None? then Some(Other)
    else if env.keyId.value in sh.keys then Some(KeyExists)
    else if env.serial.None? then Some(Other)
    else if IsRoot(req) then if env.expands then None else Some(Other)
    else OpenError(sh.keys, sh.db.cas[req.parentId].keyId, req.parentPassphrase)
  }

  lemma CreateChecks(req: C.CreateRequest, sh: Shared, env: Env)
    requires SharedOk(sh)
    ensures var e, checked := CreateGuard(req, sh, env), C.CheckRequest(req, sh.db);
            if checked.CreateDone? then checked == C.Failed(if e.Some? then e.value else Other) && e.Some?
            else
              && checked.CreateChecked? && checked.req == req && checked.days == ResolvedDays(req)
              && (checked.parent == if IsRoot(req) then None else Some(sh.db.cas[req.parentId]))
              && (e.Some? <==> C.PlanValidity(req, checked.algorithm, checked.days, checked.parent, env.now)
                               == C.Failed(ConstraintViolation))
              && (e.Some? ==> e.value == ConstraintViolation)
              && (!IsRoot(req) ==> req.parentId in sh.db.cas)
              && (checked.algorithm == req.algorithm.algorithm)
  {
    hide SharedOk, NameText.TrimSpace, AddDays, Truncate;
    if !IsRoot(req) && req.parentId in sh.db.cas {
      ParentIsActive(sh, req.parentId);
    }
  }

  lemma ParentIsActive(sh: Shared, caId: string)
    requires SharedOk(sh) && caId in sh.db.cas
    ensures sh.db.cas[caId].status == ACTIVE
  {
    hide SharedOk, CACertOk, ValidKeyId;
    ParentIsFit(sh, caId);
  }

  /** A key error ends the call, after the new key's file has been deleted again or left. */
  lemma KeyErrors(plan: C.CAPlan, sh: Shared, env: Env)
    requires EnvOk(env) && plan.req.passphrase != []
    requires !IsRoot(plan.req) ==> plan.req.parentId in sh.db.cas && sh.db.cas[plan.req.parentId].keyId in sh.keys
    requires plan.parent == if IsRoot(plan.req) then None else Some(sh.db.cas[plan.req.parentId])
    requires !IsRoot(plan.req) ==> ValidKeyId(sh.db.cas[plan.req.parentId].keyId)
    requires CreateKeyError(plan.req, sh, env).Some?
    ensures C.RunCreate(C.CreatePlanned(plan), sh, env).0.result == Err(CreateKeyError(plan.req, sh, env).value)
  {
    hide C.RunCreate, C.SignCA, ValidKeyId;
    RunCreateStep(C.CreatePlanned(plan), sh, env);
    var (next, keys) := C.GenerateStep(plan, sh.keys, env);
    var sh' := sh.(keys := keys);
    RunDoneIfDone(next, sh', env);
    if next.CreateKeyed? {
      RunCreateStep(next, sh', env);
      var failed := C.LoadStep(plan, next.keyId, next.priv, next.serial, keys, env);
      assert keys[plan.parent.value.keyId] == sh.keys[plan.parent.value.keyId];
      UndoReturns(failed, sh', env);
    }
  }

  lemma UndoReturns(c: C.CreateCall, sh: Shared, env: Env)
    requires c.CreateUndo?
    ensures C.RunCreate(c, sh, env).0.result == Err(c.error)
  {
    hide C.RunCreate, AfterDelete;
    RunCreateStep(c, sh, env);
    RunDoneIfDone(C.Failed(c.error), sh.(keys := AfterDelete(sh.keys, c.keyId).0), env);
  }

  /** The error of CreateCA, up to the certificate. */
  lemma CreateFailsWith(req: C.CreateRequest, sh: Shared, env: Env)
    requires SharedOk(sh) && EnvOk(env)
    ensures var r, e := C.RunCreate(C.CreateStart(req), sh, env).0.result, CreateGuard(req, sh, env);
            && (e.Some? ==> r == Err(e.value))
            && (e.None? ==>
                  && (!IsRoot(req) ==> req.parentId in sh.db.cas && sh.db.cas[req.parentId].keyId in sh.keys)
                  && (CreateKeyError(req, sh, env).Some? ==> r == Err(CreateKeyError(req, sh, env).value)))
  {
    hide SharedOk, C.RunCreate, C.CheckRequest, CreateGuard, CreateKeyError, AddDays, ValidKeyId, LevelAccepts;
    RunCreateStep(C.CreateStart(req), sh, env);
    CreateChecks(req, sh, env);
    var checked := C.CheckRequest(req, sh.db);
    RunDoneIfDone(checked, sh, env);
    if checked.CreateChecked? {
      if !IsRoot(req) {
        KeyIsThere(sh, req.parentId);
      }
      RunCreateStep(checked, sh, env);
      var timed := sh.(clock := env.now);
      var planned := C.PlanValidity(req, checked.algorithm, checked.days, checked.parent, env.now);
      RunDoneIfDone(planned, timed, env);
      if planned.CreatePlanned? && CreateKeyError(req, sh, env).Some? {
        SameKeyError(req, sh, timed, env);
        HasPassphrase(req, sh.db);
        KeyErrors(planned.plan, timed, env);
      }
    }
  }

  lemma SameKeyError(req: C.CreateRequest, sh: Shared, sh': Shared, env: Env)
    requires sh'.db == sh.db && sh'.keys == sh.keys
    requires !IsRoot(req) ==> req.parentId in sh.db.cas && sh.db.cas[req.parentId].keyId in sh.keys
    ensures CreateKeyError(req, sh, env) == CreateKeyError(req, sh', env)
  {
  }

  lemma HasPassphrase(req: C.CreateRequest, db: DB)
    ensures C.CheckRequest(req, db).CreateChecked? ==> req.passphrase != []
  {
    hide NameText.TrimSpace;
  }

  /** With every guard passed, and a name and times that can be written, only the identifier of the
      new row can be missing or taken. */
  lemma CreateEndsWith(req: C.CreateRequest, sh: Shared, env: Env)
    requires SharedOk(sh) && EnvOk(env) && CreateGuard(req, sh, env) == None
    requires !IsRoot(req) ==> req.parentId in sh.db.cas && sh.db.cas[req.parentId].keyId in sh.keys
    requires CreateKeyError(req, sh, env) == None && NameWritable(req.subject)
    requires WindowWritable(Truncate(env.now) - 300 * SECOND, AddDays(Truncate(env.now), ResolvedDays(req)))
    ensures var r := C.RunCreate(C.CreateStart(req), sh, env).0.result;
            && (env.newId.None? ==> r == Err(Other))
            && (env.newId.Some? && env.newId.value in sh.db.cas ==> r == Err(Conflict))
  {
    hide SharedOk, C.RunCreate, C.CheckRequest, C.SignCA, CreateGuard, AddDays, ValidKeyId, LevelAccepts, CACertOk,
         NameWritable, WindowWritable;
    RunCreateStep(C.CreateStart(req), sh, env);
    CreateChecks(req, sh, env);
    CreateGuardsExactly(req, sh.db);
    var checked := C.CheckRequest(req, sh.db);
    RunCreateStep(checked, sh, env);
    var timed := sh.(clock := env.now);
    var planned := C.PlanValidity(req, checked.algorithm, checked.days, checked.parent, env.now);
    RunCreateStep(planned, timed, env);
    if !IsRoot(req) {
      ParentIsFit(sh, req.parentId);
    }
    SignedCAErrors(planned.plan, timed, env);
  }

  lemma SignedCAErrors(plan: C.CAPlan, sh: Shared, env: Env)
    requires EnvOk(env) && plan.req.passphrase != [] && plan.req.subject.commonName != []
    requires !IsRoot(plan.req) ==>
               && plan.req.parentId in sh.db.cas
               && var row := sh.db.cas[plan.req.parentId];
               && CACertOk(row.cert, true) && ValidKeyId(row.keyId) && row.keyId in sh.keys
               && PublicOf(sh.keys[row.keyId].priv) == row.cert.publicKey
    requires plan.parent == if IsRoot(plan.req) then None else Some(sh.db.cas[plan.req.parentId])
    requires CreateKeyError(plan.req, sh, env) == None
    requires NameWritable(plan.req.subject) && WindowWritable(plan.notBefore, plan.notAfter)
    ensures var (next, keys) := C.GenerateStep(plan, sh.keys, env);
            var r := C.RunCreate(next, sh.(keys := keys), env).0.result;
            && (env.newId.None? ==> r == Err(Other))
            && (env.newId.Some? && env.newId.value in sh.db.cas ==> r == Err(Conflict))
  {
    hide C.RunCreate, C.SignCA, ValidKeyId, CACertOk, NameWritable, WindowWritable;
    var (next, keys) := C.GenerateStep(plan, sh.keys, env);
    var sh', priv := sh.(keys := keys), PrivateKey(plan.algorithm, env.seed);
    if IsRoot(plan.req) {
      NewRowErrors(plan, env.keyId.value, priv, priv, sh', env);
    } else {
      RunCreateStep(next, sh', env);
      var signer := LoadResult(keys, plan.parent.value.keyId, plan.req.parentPassphrase);
      NewRowErrors(plan, env.keyId.value, priv, signer.value, sh', env);
    }
  }

  lemma NewRowErrors(plan: C.CAPlan, keyId: string, priv: PrivateKey, signer: PrivateKey, sh: Shared, env: Env)
    requires EnvOk(env) && env.serial.Some? && plan.req.subject.commonName != []
    requires plan.parent.None? ==> signer.algorithm == plan.algorithm
    requires plan.parent.Some? ==>
               CACertOk(plan.parent.value.cert, true) && PublicOf(signer) == plan.parent.value.cert.publicKey
    requires NameWritable(plan.req.subject) && WindowWritable(plan.notBefore, plan.notAfter)
    ensures var r := C.RunCreate(C.SignCA(plan, keyId, priv, signer, env.serial.value, env), sh, env).0.result;
            && (env.newId.None? ==> r == Err(Other))
            && (env.newId.Some? && env.newId.value in sh.db.cas ==> r == Err(Conflict))
  {
    hide C.RunCreate, Certificates.CreateCertificate, Certificates.ParsedCertificate, CACertOk, NameWritable,
         WindowWritable, AfterDelete;
    var serial := env.serial.value;
    var call := C.SignCA(plan, keyId, priv, signer, serial, env);
    SignedRowOrError(plan, keyId, priv, signer, serial, env);
    if call.CreateUndo? {
      UndoReturns(call, sh, env);
    } else if call.row.id in sh.db.cas {
      RunCreateStep(call, sh, env);
      UndoReturns(C.CreateUndo(call.row.keyId, Conflict), sh, env);
    }
  }

  lemma SignedRowOrError(plan: C.CAPlan, keyId: string, priv: PrivateKey, signer: PrivateKey, serial: int, env: Env)
    requires plan.req.subject.commonName != [] && serial > 0
    requires plan.parent.None? ==> signer.algorithm == plan.algorithm
    requires plan.parent.Some? ==>
               CACertOk(plan.parent.value.cert, true) && PublicOf(signer) == plan.parent.value.cert.publicKey
    requires NameWritable(plan.req.subject) && WindowWritable(plan.notBefore, plan.notAfter)
    ensures var call := C.SignCA(plan, keyId, priv, signer, serial, env);
            if env.newId.None? then call == C.CreateUndo(keyId, Other)
            else call.CreateInsert? && call.row.id == env.newId.value && call.row.keyId == keyId
  {
    hide Certificates.CreateCertificate, Certificates.ParsedCertificate, NameWritable, WindowWritable, Rdn.ParsedName;
    CertifiedExactly(C.CATemplate(plan, signer.algorithm, serial), C.ParentCert(plan), PublicOf(priv), signer);
  }

  // ---------------------------------------------------------------- CRL

  /** The error of CRL: an unknown CA, then, without a fresh list, the key and what cannot be written. */
  ghost function ListError(cfg: Config, caId: string, passphrase: Bytes, sh: Shared, env: Env): Option<Error>
    requires caId in sh.db.cas ==> sh.db.cas[caId].keyId in sh.keys
  {
    if caId !in sh.db.cas then Some(NotFound)
    else if ListFresh(sh, caId, Truncate(env.now)) then None
    else if OpenError(sh.keys, sh.db.cas[caId].keyId, passphrase).Some?
    then OpenError(sh.keys, sh.db.cas[caId].keyId, passphrase)
    else if ListWritable(cfg, SortedRows(RevokedRows(sh.db, caId)), Truncate(env.now)) then None
    else Some(Other)
  }

  lemma BuildErrors(cfg: Config, snap: Snapshot, passphrase: Bytes, now: int, keys: Keys)
    requires Snapshots.RowsOk(snap.rows) && CACertOk(snap.ca.cert, snap.ca.parentId == "") && ValidKeyId(snap.ca.keyId)
    requires snap.ca.keyId in keys && PublicOf(keys[snap.ca.keyId].priv) == snap.ca.cert.publicKey
    requires Build(cfg, snap, passphrase, now, keys).Err?
    ensures var e := OpenError(keys, snap.ca.keyId, passphrase);
            Build(cfg, snap, passphrase, now, keys).error == if e.Some? then e.value else Other
  {
    hide ValidKeyId, Rdn.ParsedName, Certificates.ParsedCertificate, RevocationListDer, EntriesOf;
    Snapshots.EntriesOfRows(snap.rows, now);
    if LoadResult(keys, snap.ca.keyId, passphrase).Ok? {
      ListWritten(snap.ca.cert, keys[snap.ca.keyId].priv, |snap.rows| + 1, Snapshots.EntriesFor(snap.rows), now,
                  now + cfg.crlValidity);
      assert CA_KEY_USAGE & 0x0040 != 0;
    }
  }

  /** CRL returns this error, and a list when there is none. */
  lemma CrlFailsWith(cfg: Config, caId: string, passphrase: Bytes, sh: Shared, env: Env)
    requires SharedOk(sh)
    ensures caId in sh.db.cas ==> sh.db.cas[caId].keyId in sh.keys
    ensures var r, e := CrlResult(RunCrl(cfg, CrlStart(caId, passphrase), sh, env).0),
                        ListError(cfg, caId, passphrase, sh, env);
            if e.Some? then r == Err(e.value) else r.Ok?
  {
    hide SharedOk, RunCrl, SortedRows, RevokedRows, Build, ListWritable, OpenError, Truncate, CACertOk, ValidKeyId,
         Snapshots.RowsOk;
    CrlOutcome(cfg, caId, passphrase, sh, env);
    if caId in sh.db.cas {
      var snap, now := SnapshotOf(sh.db, caId), Truncate(env.now);
      KeyedRow(sh, caId);
      ListedRows(sh, sh.db.cas[caId]);
      ParentIsFit(sh, caId);
      SnapshotSize(sh, caId);
      BuildSucceedsExactly(cfg, snap, passphrase, now, sh.keys);
      OpensOrError(sh.keys, snap.ca.keyId, passphrase);
      if Build(cfg, snap, passphrase, now, sh.keys).Err? {
        BuildErrors(cfg, snap, passphrase, now, sh.keys);
      }
    }
  }

  lemma OpensOrError(keys: Keys, keyId: string, passphrase: Bytes)
    requires keyId in keys
    ensures Opens(keys, keyId, passphrase) <==> OpenError(keys, keyId, passphrase).None?
  {
  }
}
