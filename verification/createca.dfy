/** CreateCA (engine.go:92-218) as a sequence of atomic steps on the shared state. */
module CreateCalls {
  import opened Prelude
  import opened Names
  import opened X509
  import opened Certificates
  import opened Profiles
  import opened Stores
  import opened Keystores
  import opened EngineStates
  import opened Times
  import NameText

  datatype CreateRequest = CreateRequest(
    name: Bytes,
    parentId: string,
    algorithm: AlgorithmChoice,
    subject: Name,
    validityDays: int,
    passphrase: Bytes,
    parentPassphrase: Bytes)

  datatype CAPlan = CAPlan(
    req: CreateRequest,
    algorithm: Algorithm,
    days: int,
    parent: Option<CARow>,
    now: int,
    notBefore: int,
    notAfter: int)

  /** Where a CreateCA call stands. `leaked` is a key that the failed call leaves behind. */
  datatype CreateCall =
    | CreateStart(req: CreateRequest)
    | CreateChecked(req: CreateRequest, algorithm: Algorithm, days: int, parent: Option<CARow>)
    | CreatePlanned(plan: CAPlan)
    | CreateKeyed(plan: CAPlan, keyId: string, priv: PrivateKey, serial: int)
    | CreateInsert(row: CARow)
    | CreateUndo(keyId: string, error: Error)
    | CreateDone(result: Result<CARow>, leaked: Option<string>)

  function Failed(e: Error): CreateCall {
    CreateDone(Err(e), None)
  }

  /** The guards before the clock is read, with the parent's row when there is one. */
  function CheckProfile(req: CreateRequest, parent: Option<CARow>): CreateCall {
    var profile := ProfileOf(parent.None?);
    if !Allows(profile.allowedAlgorithms, req.algorithm) then Failed(ConstraintViolation)
    else
      var days := ResolveDays(profile, req.validityDays);
      if days.Err? then Failed(days.error)
      else CreateChecked(req, req.algorithm.algorithm, days.value, parent)
  }

  function CheckRequest(req: CreateRequest, db: DB): CreateCall {
    if NameText.TrimSpace(req.name) == [] || req.subject.commonName == [] || req.passphrase == [] then
      Failed(ConstraintViolation)
    else if req.parentId == "" then CheckProfile(req, None)
    else
      var parent := GetCAResult(db, req.parentId);
      if parent.Err? then Failed(parent.error)
      else if parent.value.parentId != "" || parent.value.status != ACTIVE then Failed(ConstraintViolation)
      else CheckProfile(req, Some(parent.value))
  }

  function PlanValidity(req: CreateRequest, algorithm: Algorithm, days: int, parent: Option<CARow>,
                        clock: int): CreateCall {
    var now := Truncate(clock);
    var notAfter := AddDays(now, days);
    if parent.Some? && notAfter > parent.value.cert.notAfter then Failed(ConstraintViolation)
    else CreatePlanned(CAPlan(req, algorithm, days, parent, now, now - CLOCK_SKEW, notAfter))
  }

  function CATemplate(plan: CAPlan, signatureAlgorithm: Algorithm, serial: int): Certificate {
    var profile := ProfileOf(plan.parent.None?);
    NewTemplate(serial, signatureAlgorithm, plan.req.subject, plan.notBefore, plan.notAfter,
                BasicConstraints(true, profile.pathLen, true), profile.keyUsage, [], NO_SANS)
  }

  function ParentCert(plan: CAPlan): Option<Certificate> {
    if plan.parent.None? then None else Some(plan.parent.value.cert)
  }

  /** From the loaded signer to the row that is ready to insert; every failure undoes the key. */
  function SignCA(plan: CAPlan, keyId: string, priv: PrivateKey, signer: PrivateKey, serial: int,
                  env: Env): CreateCall {
    var signatureAlgorithm := if plan.parent.None? then plan.algorithm else plan.parent.value.cert.publicKey.algorithm;
    var der := CreateCertificate(CATemplate(plan, signatureAlgorithm, serial), ParentCert(plan), PublicOf(priv),
                                 signer);
    if der.Err? then CreateUndo(keyId, der.error)
    else
      var cert := ParsedCertificate(der.value);
      if cert.Err? then CreateUndo(keyId, cert.error)
      else if env.newId.None? then CreateUndo(keyId, Other)
      else CreateInsert(CARow(env.newId.value, plan.req.name, plan.req.parentId, plan.algorithm, cert.value, keyId,
                              ACTIVE, plan.now))
  }

  /** After the key file is written: a failing serial number or seed expansion returns without
      deleting it (engine.go:145-155). */
  function AfterGenerate(plan: CAPlan, keyId: string, priv: PrivateKey, env: Env): CreateCall {
    if env.serial.None? then CreateDone(Err(Other), Some(keyId))
    else if plan.parent.Some? then CreateKeyed(plan, keyId, priv, env.serial.value)
    else if !env.expands then CreateDone(Err(Other), Some(keyId))
    else SignCA(plan, keyId, priv, priv, env.serial.value, env)
  }

  function GenerateStep(plan: CAPlan, keys: Keys, env: Env): (CreateCall, Keys) {
    if env.keyId.None? then (Failed(Other), keys)
    else
      var priv := PrivateKey(plan.algorithm, env.seed);
      var stored := AfterStore(keys, env.keyId.value, priv, plan.req.passphrase);
      if stored.1.Some? then (Failed(stored.1.value), stored.0)
      else (AfterGenerate(plan, env.keyId.value, priv, env), stored.0)
  }

  function LoadStep(plan: CAPlan, keyId: string, priv: PrivateKey, serial: int, keys: Keys, env: Env): CreateCall
    requires plan.parent.Some?
  {
    var signer := LoadResult(keys, plan.parent.value.keyId, plan.req.parentPassphrase);
    if signer.Err? then CreateUndo(keyId, signer.error)
    else SignCA(plan, keyId, priv, signer.value, serial, env)
  }

  function InsertStep(row: CARow, db: DB): (CreateCall, DB) {
    var inserted := AfterCreateCA(db, row);
    if inserted.1.Some? then (CreateUndo(row.keyId, inserted.1.value), inserted.0)
    else (CreateDone(Ok(row), None), inserted.0)
  }

  /** One atomic step of a call; a finished call stays as it is. */
  function AdvanceCreate(call: CreateCall, sh: Shared, env: Env): (CreateCall, Shared) {
    match call
    case CreateStart(req) => (CheckRequest(req, sh.db), sh)
    case CreateChecked(req, algorithm, days, parent) =>
      (PlanValidity(req, algorithm, days, parent, env.now), sh.(clock := env.now))
    case CreatePlanned(plan) =>
      var (next, keys) := GenerateStep(plan, sh.keys, env);
      (next, sh.(keys := keys))
    case CreateKeyed(plan, keyId, priv, serial) =>
      (if plan.parent.None? then CreateUndo(keyId, Other) else LoadStep(plan, keyId, priv, serial, sh.keys, env), sh)
    case CreateInsert(row) =>
      var (next, db) := InsertStep(row, sh.db);
      (next, sh.(db := db))
    case CreateUndo(keyId, error) => (Failed(error), sh.(keys := AfterDelete(sh.keys, keyId).0))
    case CreateDone(_, _) => (call, sh)
  }

  function CreateRank(call: CreateCall): nat {
    match call
    case CreateStart(_) => 6
    case CreateChecked(_, _, _, _) => 5
    case CreatePlanned(_) => 4
    case CreateKeyed(_, _, _, _) => 3
    case CreateInsert(_) => 2
    case CreateUndo(_, _) => 1
    case CreateDone(_, _) => 0
  }

  lemma CreateProgress(call: CreateCall, sh: Shared, env: Env)
    requires !call.CreateDone?
    ensures CreateRank(AdvanceCreate(call, sh, env).0) < CreateRank(call)
  {
    hide CreateCertificate, ParsedCertificate, NameText.TrimSpace;
  }

  /** The call run to its end with nothing in between. */
  function RunCreate(call: CreateCall, sh: Shared, env: Env): (r: (CreateCall, Shared))
    ensures r.0.CreateDone?
    decreases CreateRank(call)
  {
    if call.CreateDone? then (call, sh)
    else
      CreateProgress(call, sh, env);
      var (next, sh') := AdvanceCreate(call, sh, env);
      RunCreate(next, sh', env)
  }

  /** The key files a call has written and neither deleted nor handed to a row. */
  function CreateHeld(call: CreateCall): set<string> {
    match call
    case CreateKeyed(_, keyId, _, _) => {keyId}
    case CreateInsert(row) => {row.keyId}
    case CreateUndo(keyId, _) => {keyId}
    case CreateDone(_, leaked) => if leaked.Some? then {leaked.value} else {}
    case _ => {}
  }
}
