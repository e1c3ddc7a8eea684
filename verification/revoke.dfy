/** Revoke (engine.go:469-487) as a sequence of atomic steps on the shared state. */
module RevokeCalls {
  import opened Prelude
  import opened Stores
  import opened EngineStates
  import opened Times
  import RevocationLists

  datatype RevokeCall =
    | RevokeStart(serial: string, reason: int)
    | RevokeFound(serial: string, reason: int, caId: string)
    | RevokeTimed(serial: string, reason: int, caId: string, at: int)
    | RevokeInvalidate(caId: string)
    | RevokeDone(error: Option<Error>)

  /** RFC 5280 section 5.3.1 leaves 7 unused. */
  predicate IsReason(reason: int) {
    0 <= reason <= 10 && reason != 7
  }

  function FindStep(serial: string, reason: int, db: DB): RevokeCall {
    if !IsReason(reason) then RevokeDone(Some(ConstraintViolation))
    else
      var lower := RevocationLists.Lower(serial);
      var row := GetCertificateResult(db, lower);
      if row.Err? then RevokeDone(Some(row.error)) else RevokeFound(lower, reason, row.value.caId)
  }

  function CommitStep(serial: string, reason: int, caId: string, at: int, db: DB): (RevokeCall, DB) {
    var revoked := AfterRevoke(db, serial, at, reason);
    if revoked.1.None? then (RevokeInvalidate(caId), revoked.0)
    else if revoked.1.value == Conflict then (RevokeDone(Some(AlreadyRevoked)), revoked.0)
    else (RevokeDone(revoked.1), revoked.0)
  }

  function AdvanceRevoke(call: RevokeCall, sh: Shared, env: Env): (RevokeCall, Shared) {
    match call
    case RevokeStart(serial, reason) => (FindStep(serial, reason, sh.db), sh)
    case RevokeFound(serial, reason, caId) =>
      (RevokeTimed(serial, reason, caId, Truncate(env.now)), sh.(clock := env.now))
    case RevokeTimed(serial, reason, caId, at) =>
      var (next, db) := CommitStep(serial, reason, caId, at, sh.db);
      (next, sh.(db := db))
    case RevokeInvalidate(caId) => (RevokeDone(None), sh.(cache := sh.cache - {caId}))
    case RevokeDone(_) => (call, sh)
  }

  function RevokeRank(call: RevokeCall): nat {
    match call
    case RevokeStart(_, _) => 4
    case RevokeFound(_, _, _) => 3
    case RevokeTimed(_, _, _, _) => 2
    case RevokeInvalidate(_) => 1
    case RevokeDone(_) => 0
  }

  function RunRevoke(call: RevokeCall, sh: Shared, env: Env): (r: (RevokeCall, Shared))
    ensures r.0.RevokeDone?
    decreases RevokeRank(call)
  {
    if call.RevokeDone? then (call, sh)
    else
      var (next, sh') := AdvanceRevoke(call, sh, env);
      RunRevoke(next, sh', env)
  }
}
