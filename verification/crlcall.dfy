/** CRL (crl.go of ca) as a sequence of atomic steps on the shared state. */
module CrlCalls {
  import opened Prelude
  import opened Stores
  import opened Keystores
  import opened EngineStates
  import opened RevocationLists
  import opened Times

  /** What the call read: its rows, and how many revocations had committed by then (a history
      variable). */
  datatype Snapshot = Snapshot(ca: CARow, rows: seq<CertRow>, readAt: nat)

  datatype CrlCall =
    | CrlStart(caId: string, passphrase: Bytes)
    | CrlFound(ca: CARow, passphrase: Bytes)
    | CrlListed(snap: Snapshot, passphrase: Bytes)
    | CrlTimed(snap: Snapshot, passphrase: Bytes, now: int)
    | CrlMissed(snap: Snapshot, passphrase: Bytes, now: int)
    | CrlBuilt(snap: Snapshot, now: int, entry: CacheEntry)
    | CrlDone(result: Result<CrlDer>, snap: Snapshot, now: int)
    | CrlFailed(error: Error)

  /** A cached list is served when its count and its window fit. */
  predicate CacheHit(cache: map<string, CacheEntry>, snap: Snapshot, now: int) {
    && snap.ca.id in cache
    && cache[snap.ca.id].entryCount == |snap.rows|
    && now < cache[snap.ca.id].nextUpdate
  }

  function EntryOf(row: CertRow, now: int): Option<RevocationEntry> {
    var serial := ParsedSerial(row.serial);
    if serial.None? then None
    else Some(RevocationEntry(serial.value,
                              if row.revokedAt.Some? then row.revokedAt.value else now,
                              if row.revocationReason.Some? then row.revocationReason.value else 0))
  }

  function EntriesOf(rows: seq<CertRow>, now: int): Option<seq<RevocationEntry>> {
    if rows == [] then Some([])
    else
      var before, last := EntriesOf(rows[..|rows| - 1], now), EntryOf(rows[|rows| - 1], now);
      if before.None? || last.None? then None else Some(before.value + [last.value])
  }

  /** Loading the key and building the list. */
  function Build(cfg: Config, snap: Snapshot, passphrase: Bytes, now: int, keys: Keys): Result<CacheEntry> {
    var signer := LoadResult(keys, snap.ca.keyId, passphrase);
    if signer.Err? then Err(signer.error)
    else
      var entries := EntriesOf(snap.rows, now);
      if entries.None? then Err(Other)
      else
        var number := |snap.rows| + 1;
        var nextUpdate := now + cfg.crlValidity;
        var der := RevocationListDer(snap.ca.cert, signer.value, number, entries.value, now, nextUpdate);
        if der.Err? then Err(der.error)
        else Ok(CacheEntry(der.value, |snap.rows|, nextUpdate, number))
  }

  ghost function AdvanceCrl(cfg: Config, call: CrlCall, sh: Shared, env: Env): (CrlCall, Shared) {
    match call
    case CrlStart(caId, passphrase) =>
      var ca := GetCAResult(sh.db, caId);
      (if ca.Err? then CrlFailed(ca.error) else CrlFound(ca.value, passphrase), sh)
    case CrlFound(ca, passphrase) =>
      (CrlListed(Snapshot(ca, SortedRows(RevokedRows(sh.db, ca.id)), |sh.db.history|), passphrase), sh)
    case CrlListed(snap, passphrase) => (CrlTimed(snap, passphrase, Truncate(env.now)), sh.(clock := env.now))
    case CrlTimed(snap, passphrase, now) =>
      (if CacheHit(sh.cache, snap, now) then CrlDone(Ok(sh.cache[snap.ca.id].der), snap, now)
       else CrlMissed(snap, passphrase, now), sh)
    case CrlMissed(snap, passphrase, now) =>
      var built := Build(cfg, snap, passphrase, now, sh.keys);
      (if built.Err? then CrlDone(Err(built.error), snap, now) else CrlBuilt(snap, now, built.value), sh)
    case CrlBuilt(snap, now, entry) =>
      (CrlDone(Ok(entry.der), snap, now), sh.(cache := sh.cache[snap.ca.id := entry]))
    case CrlDone(_, _, _) => (call, sh)
    case CrlFailed(_) => (call, sh)
  }

  predicate CrlFinished(call: CrlCall) {
    call.CrlDone? || call.CrlFailed?
  }

  function CrlRank(call: CrlCall): nat {
    match call
    case CrlStart(_, _) => 6
    case CrlFound(_, _) => 5
    case CrlListed(_, _) => 4
    case CrlTimed(_, _, _) => 3
    case CrlMissed(_, _, _) => 2
    case CrlBuilt(_, _, _) => 1
    case CrlDone(_, _, _) => 0
    case CrlFailed(_) => 0
  }

  ghost function RunCrl(cfg: Config, call: CrlCall, sh: Shared, env: Env): (r: (CrlCall, Shared))
    ensures CrlFinished(r.0)
    decreases CrlRank(call)
  {
    if CrlFinished(call) then (call, sh)
    else
      var (next, sh') := AdvanceCrl(cfg, call, sh, env);
      RunCrl(cfg, next, sh', env)
  }

  function CrlResult(call: CrlCall): Result<CrlDer>
    requires CrlFinished(call)
  {
    if call.CrlDone? then call.result else Err(call.error)
  }
}
