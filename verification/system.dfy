/** The transition system: any number of CreateCA, IssueCertificate, Revoke and CRL calls, one
    atomic step of one of them at a time, and restarts of the process. */
module Systems {
  import opened Stores
  import opened EngineStates
  import opened CreateCalls
  import opened IssueCalls
  import opened RevokeCalls
  import opened CrlCalls

  /** A call in flight or finished; `Stopped` is what a restart leaves of an unfinished one. */
  datatype Call =
    | Creating(create: CreateCall)
    | Issuing(issue: IssueCall)
    | Revoking(revoke: RevokeCall)
    | Listing(crl: CrlCall)
    | Stopped(held: set<string>)

  datatype System = System(shared: Shared, calls: map<nat, Call>)

  datatype Step =
    | Begin(id: nat, call: Call)
    | Run(id: nat, env: Env)
    | Restart

  predicate IsStart(call: Call) {
    match call
    case Creating(c) => c.CreateStart?
    case Issuing(c) => c.IssueStart?
    case Revoking(c) => c.RevokeStart?
    case Listing(c) => c.CrlStart?
    case Stopped(_) => false
  }

  predicate Finished(call: Call) {
    match call
    case Creating(c) => c.CreateDone?
    case Issuing(c) => c.IssueDone?
    case Revoking(c) => c.RevokeDone?
    case Listing(c) => CrlFinished(c)
    case Stopped(_) => true
  }

  /** The key files a call has written and neither deleted nor handed to a row. */
  function Held(call: Call): set<string> {
    match call
    case Creating(c) => CreateHeld(c)
    case Issuing(c) => IssueHeld(c)
    case Revoking(_) => {}
    case Listing(_) => {}
    case Stopped(held) => held
  }

  ghost function Advance(cfg: Config, call: Call, sh: Shared, env: Env): (Call, Shared) {
    match call
    case Creating(c) => var (c', sh') := AdvanceCreate(c, sh, env); (Creating(c'), sh')
    case Issuing(c) => var (c', sh') := AdvanceIssue(cfg, c, sh, env); (Issuing(c'), sh')
    case Revoking(c) => var (c', sh') := AdvanceRevoke(c, sh, env); (Revoking(c'), sh')
    case Listing(c) => var (c', sh') := AdvanceCrl(cfg, c, sh, env); (Listing(c'), sh')
    case Stopped(_) => (call, sh)
  }

  function Stop(call: Call): Call {
    if Finished(call) then call else Stopped(Held(call))
  }

  ghost predicate Init(s: System) {
    && s.shared.db == DB(map[], map[], [])
    && s.shared.keys == map[]
    && s.shared.cache == map[]
    && s.calls == map[]
  }

  /** A restart keeps the tables and the key files and loses the cache and the calls. */
  ghost predicate Next(cfg: Config, s: System, s': System, step: Step) {
    match step
    case Begin(id, call) => id !in s.calls && IsStart(call) && s' == s.(calls := s.calls[id := call])
    case Run(id, env) =>
      && id in s.calls && EnvOk(env)
      && var (call, sh) := Advance(cfg, s.calls[id], s.shared, env);
      s' == System(sh, s.calls[id := call])
    case Restart =>
      s' == System(s.shared.(cache := map[]), map id | id in s.calls :: Stop(s.calls[id]))
  }

  /** The clock never runs backwards. */
  predicate Timely(s: System, step: Step) {
    step.Run? ==> s.shared.clock <= step.env.now
  }

  ghost predicate IsRun(cfg: Config, states: seq<System>, steps: seq<Step>) {
    && |states| == |steps| + 1
    && Init(states[0])
    && forall i :: 0 <= i < |steps| ==> Next(cfg, states[i], states[i + 1], steps[i])
  }

  ghost predicate IsTimelyRun(cfg: Config, states: seq<System>, steps: seq<Step>) {
    && IsRun(cfg, states, steps)
    && forall i :: 0 <= i < |steps| ==> Timely(states[i], steps[i])
  }
}

/** The invariant of the transition system and its preservation by every step. */
module Invariants {
  import opened Prelude
  import opened X509
  import opened Profiles
  import opened Stores
  import opened Keystores
  import opened EngineStates
  import opened Hierarchy
  import opened Snapshots
  import opened Systems
  import opened CrlCalls
  import opened RevocationLists
  import opened Times
  import C = CreateCalls
  import I = IssueCalls
  import R = RevokeCalls

  // ---------------------------------------------------------------- shared state

  predicate RowsInPlace(db: DB) {
    && Keyed(db)
    && (forall id :: id in db.cas ==> CAOk(db.cas, db.cas[id]))
    && (forall serial :: serial in db.certs ==> LeafOk(db.cas, db.certs[serial]))
  }

  predicate KeyFits(keys: Keys, keyId: string, pub: PublicKey) {
    keyId in keys && PublicOf(keys[keyId].priv) == pub
  }

  /** Every key a row names is present and is the key the row's certificate certifies. */
  predicate KeysFit(db: DB, keys: Keys) {
    && (forall id :: id in db.cas ==> KeyFits(keys, db.cas[id].keyId, db.cas[id].cert.publicKey))
    && (forall serial :: serial in db.certs && db.certs[serial].keyId != ""
          ==> KeyFits(keys, db.certs[serial].keyId, db.certs[serial].cert.publicKey))
  }

  ghost predicate CachesOk(db: DB, cache: map<string, CacheEntry>) {
    forall caId :: caId in cache ==> CacheOk(db, caId, cache[caId])
  }

  ghost predicate SharedOk(sh: Shared) {
    && RowsInPlace(sh.db)
    && HistoryOk(sh.db)
    && KeysFit(sh.db, sh.keys)
    && CachesOk(sh.db, sh.cache)
  }

  function Referenced(db: DB): set<string> {
    (set id | id in db.cas :: db.cas[id].keyId)
    + (set serial | serial in db.certs && db.certs[serial].keyId != "" :: db.certs[serial].keyId)
  }

  // ---------------------------------------------------------------- calls

  predicate CreateOk(call: C.CreateCall, sh: Shared) {
    match call
    case CreateStart(_) => true
    case CreateChecked(req, algorithm, days, parent) =>
      && ParentOk(sh.db.cas, req, parent)
      && algorithm in ProfileOf(parent.None?).allowedAlgorithms
      && 0 < days <= ProfileOf(parent.None?).maxDays
    case CreatePlanned(plan) => PlanOk(sh.db.cas, plan)
    case CreateKeyed(plan, keyId, priv, _) =>
      && PlanOk(sh.db.cas, plan) && plan.parent.Some? && priv.algorithm == plan.algorithm
      && ValidKeyId(keyId) && KeyFits(sh.keys, keyId, PublicOf(priv))
    case CreateInsert(row) => CAOk(sh.db.cas, row) && KeyFits(sh.keys, row.keyId, row.cert.publicKey)
    case CreateUndo(keyId, _) => ValidKeyId(keyId)
    case CreateDone(result, _) => result.Ok? ==> HasCA(sh.db.cas, result.value)
  }

  predicate IssueOk(call: I.IssueCall, sh: Shared) {
    match call
    case IssueStart(_) => true
    case IssueChecked(order) => OrderOk(sh.db.cas, order)
    case IssuePlanned(order, now, notBefore, notAfter) =>
      OrderOk(sh.db.cas, order) && WindowOk(order, now, notBefore, notAfter)
    case IssueStoreKey(row, ca, priv, _) =>
      && NewLeafOk(sh.db.cas, row, ca)
      && ValidKeyId(row.keyId) && row.cert.publicKey == PublicOf(priv)
    case IssueInsert(row, ca) =>
      && NewLeafOk(sh.db.cas, row, ca)
      && (row.keyId != "" ==> KeyFits(sh.keys, row.keyId, row.cert.publicKey))
    case IssueUndo(keyId, _) => ValidKeyId(keyId)
    case IssueChain(row, ca) => HasCA(sh.db.cas, ca) && row.serial in sh.db.certs
    case IssueDone(result) => result.Ok? ==> result.value.serial in sh.db.certs
  }

  predicate NewLeafOk(cas: CAs, row: CertRow, ca: CARow) {
    LeafOk(cas, row) && row.status == VALID && HasCA(cas, ca) && row.caId == ca.id
  }

  predicate RevokeOk(call: R.RevokeCall, sh: Shared) {
    match call
    case RevokeFound(_, reason, _) => R.IsReason(reason)
    case RevokeTimed(_, reason, _, at) => R.IsReason(reason) && at % SECOND == 0
    case _ => true
  }

  /** What a finished CRL call has returned: a list of exactly the rows it read, whose window
      has not passed at the call's own time. */
  predicate Serves(der: CrlDer, snap: Snapshot, now: int) {
    Describes(der, snap.ca, snap.rows) && Current(der, now)
  }

  ghost predicate CrlOk(call: CrlCall, sh: Shared) {
    match call
    case CrlStart(_, _) => true
    case CrlFound(ca, _) => HasCA(sh.db.cas, ca)
    case CrlListed(snap, _) => SnapOk(sh.db, snap)
    case CrlTimed(snap, _, now) => SnapOk(sh.db, snap) && now % SECOND == 0
    case CrlMissed(snap, _, now) => SnapOk(sh.db, snap) && now % SECOND == 0
    case CrlBuilt(snap, now, entry) =>
      SnapOk(sh.db, snap) && now % SECOND == 0 && EntryOk(entry, snap.ca, snap.rows) && now < entry.nextUpdate
    case CrlDone(result, snap, now) => SnapOk(sh.db, snap) && (result.Ok? ==> Serves(result.value, snap, now))
    case CrlFailed(_) => true
  }

  ghost predicate CallOk(call: Call, sh: Shared) {
    match call
    case Creating(c) => CreateOk(c, sh)
    case Issuing(c) => IssueOk(c, sh)
    case Revoking(c) => RevokeOk(c, sh)
    case Listing(c) => CrlOk(c, sh)
    case Stopped(_) => true
  }

  predicate HeldBySome(s: System, k: string) {
    exists id :: id in s.calls && k in Held(s.calls[id])
  }

  /** The key files are exactly those that rows name and those that calls hold, without overlap. */
  ghost predicate Accounted(s: System) {
    && (forall k :: k in s.shared.keys <==>
          k in Referenced(s.shared.db) || HeldBySome(s, k))
    && (forall id :: id in s.calls ==> Held(s.calls[id]) !! Referenced(s.shared.db))
    && (forall i, j :: i in s.calls && j in s.calls && i != j ==> Held(s.calls[i]) !! Held(s.calls[j]))
  }

  ghost predicate Inv(s: System) {
    && SharedOk(s.shared)
    && (forall id :: id in s.calls ==> CallOk(s.calls[id], s.shared))
    && Accounted(s)
  }

  // ---------------------------------------------------------------- what a step may change

  /** The tables only grow, and keys that the stepping call does not hold are untouched. */
  predicate Grows(sh: Shared, sh': Shared, held: set<string>) {
    && DbGrows(sh.db, sh'.db)
    && (forall serial :: serial in sh.db.certs ==> serial in sh'.db.certs)
    && (forall k :: k in sh.keys && k !in held ==> k in sh'.keys && sh'.keys[k] == sh.keys[k])
  }

  /** How one step moves key identifiers between the three places. */
  predicate KeyStep(keys: Keys, db: DB, held: set<string>, keys': Keys, db': DB, held': set<string>) {
    && Referenced(db') == Referenced(db) + (held * Referenced(db'))
    && held' !! Referenced(db')
    && (held' - held) !! keys.Keys
    && keys'.Keys == (keys.Keys - (held - Referenced(db') - held')) + held'
  }

  lemma CAOkStable(cas: CAs, cas': CAs, row: CARow)
    requires CAOk(cas, row) && forall id :: id in cas ==> id in cas' && cas'[id] == cas[id]
    ensures CAOk(cas', row)
  {
    hide CACertOk;
  }

  lemma LeafOkStable(cas: CAs, cas': CAs, row: CertRow)
    requires LeafOk(cas, row) && forall id :: id in cas ==> id in cas' && cas'[id] == cas[id]
    ensures LeafOk(cas', row)
  {
    hide LeafCertOk, StatusOk, SerialHex;
  }

  /** The invariant of a call survives the steps of the others. */
  lemma CallOkStable(call: Call, sh: Shared, sh': Shared, held: set<string>)
    requires CallOk(call, sh) && Grows(sh, sh', held) && Held(call) !! held
    ensures CallOk(call, sh')
  {
    hide CAOk, LeafOk, SnapOk, EntryOk, Serves, ValidKeyId;
    match call
    case Creating(CreateInsert(row)) =>
      CAOkStable(sh.db.cas, sh'.db.cas, row);
      assert row.keyId in Held(call);
    case Creating(CreateKeyed(_, keyId, _, _)) =>
      assert keyId in Held(call);
    case Issuing(IssueStoreKey(row, _, _, _)) =>
      LeafOkStable(sh.db.cas, sh'.db.cas, row);
    case Issuing(IssueInsert(row, _)) =>
      LeafOkStable(sh.db.cas, sh'.db.cas, row);
      assert row.keyId != "" ==> row.keyId in Held(call);
    case Listing(CrlListed(snap, _)) => SnapStable(sh.db, sh'.db, snap);
    case Listing(CrlTimed(snap, _, _)) => SnapStable(sh.db, sh'.db, snap);
    case Listing(CrlMissed(snap, _, _)) => SnapStable(sh.db, sh'.db, snap);
    case Listing(CrlBuilt(snap, _, _)) => SnapStable(sh.db, sh'.db, snap);
    case Listing(CrlDone(_, snap, _)) => SnapStable(sh.db, sh'.db, snap);
    case _ =>
  }

  lemma CachesStable(db: DB, db': DB, cache: map<string, CacheEntry>)
    requires CachesOk(db, cache) && DbGrows(db, db')
    ensures CachesOk(db', cache)
  {
    forall caId | caId in cache ensures CacheOk(db', caId, cache[caId]) {
      CacheStable(db, db', caId, cache[caId]);
    }
  }
}
