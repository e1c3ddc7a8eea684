/** Every step of every call keeps the invariant. */
module Preservation {
  import opened Prelude
  import opened X509
  import opened Profiles
  import opened Stores
  import opened Keystores
  import opened EngineStates
  import opened Hierarchy
  import opened Snapshots
  import opened Systems
  import opened Invariants
  import opened CrlCalls
  import opened RevocationLists
  import opened Times
  import C = CreateCalls
  import I = IssueCalls
  import R = RevokeCalls
  import NameText

  // ---------------------------------------------------------------- tables

  lemma CARowsKept(db: DB, row: CARow)
    requires RowsInPlace(db) && CAOk(db.cas, row) && row.id !in db.cas
    ensures RowsInPlace(db.(cas := db.cas[row.id := row]))
  {
    hide CAOk, LeafOk;
    var db' := db.(cas := db.cas[row.id := row]);
    forall id | id in db'.cas ensures CAOk(db'.cas, db'.cas[id]) {
      CAOkStable(db.cas, db'.cas, db'.cas[id]);
    }
    forall serial | serial in db'.certs ensures LeafOk(db'.cas, db'.certs[serial]) {
      LeafOkStable(db.cas, db'.cas, db'.certs[serial]);
    }
  }

  lemma InsertCAKeepsRows(db: DB, keys: Keys, row: CARow)
    requires RowsInPlace(db) && HistoryOk(db) && KeysFit(db, keys)
    requires CAOk(db.cas, row) && KeyFits(keys, row.keyId, row.cert.publicKey)
    requires AfterCreateCA(db, row).1.None?
    ensures var db' := AfterCreateCA(db, row).0;
            && RowsInPlace(db') && HistoryOk(db') && KeysFit(db', keys)
            && DbGrows(db, db') && HasCA(db'.cas, row)
            && Referenced(db') == Referenced(db) + {row.keyId}
  {
    hide CAOk, LeafOk, RowsInPlace, Referenced;
    CARowsKept(db, row);
    ReferencedAfterCA(db, row);
  }

  lemma ReferencedAfterCA(db: DB, row: CARow)
    requires row.id !in db.cas
    ensures Referenced(db.(cas := db.cas[row.id := row])) == Referenced(db) + {row.keyId}
  {
    var db' := db.(cas := db.cas[row.id := row]);
    var a, b := Referenced(db'), Referenced(db) + {row.keyId};
    forall k | k in b ensures k in a {
      if k == row.keyId {
        assert db'.cas[row.id].keyId == k;
      } else if id :| id in db.cas && db.cas[id].keyId == k {
        assert db'.cas[id].keyId == k;
      }
    }
  }

  lemma LeafRowsKept(db: DB, row: CertRow)
    requires RowsInPlace(db) && HistoryOk(db) && LeafOk(db.cas, row) && row.status == VALID && row.serial !in db.certs
    ensures RowsInPlace(db.(certs := db.certs[row.serial := row]))
    ensures HistoryOk(db.(certs := db.certs[row.serial := row]))
  {
    hide CAOk, LeafOk;
    var db' := db.(certs := db.certs[row.serial := row]);
    forall serial | serial in db'.certs && db'.certs[serial].status == REVOKED
      ensures db'.certs[serial] in db'.history
    {
      assert serial in db.certs;
    }
  }

  lemma ValidRowIsBare(cas: CAs, row: CertRow)
    requires LeafOk(cas, row) && row.status == VALID
    ensures row.(revokedAt := None, revocationReason := None) == row
  {
    hide LeafCertOk, IssuedUnder, SerialHex;
  }

  lemma InsertLeafKeepsRows(db: DB, keys: Keys, row: CertRow)
    requires RowsInPlace(db) && HistoryOk(db) && KeysFit(db, keys)
    requires LeafOk(db.cas, row) && row.status == VALID
    requires row.keyId != "" ==> KeyFits(keys, row.keyId, row.cert.publicKey)
    requires AfterInsertCertificate(db, row).1.None?
    ensures var db' := AfterInsertCertificate(db, row).0;
            && RowsInPlace(db') && HistoryOk(db') && KeysFit(db', keys)
            && DbGrows(db, db') && row.serial in db'.certs && db.certs.Keys <= db'.certs.Keys
            && Referenced(db') == Referenced(db) + if row.keyId != "" then {row.keyId} else {}
  {
    hide CAOk, LeafOk, RowsInPlace, HistoryOk, Referenced;
    ValidRowIsBare(db.cas, row);
    LeafRowsKept(db, row);
    ReferencedAfterLeaf(db, row);
  }

  lemma ReferencedAfterLeaf(db: DB, row: CertRow)
    requires row.serial !in db.certs
    ensures Referenced(db.(certs := db.certs[row.serial := row]))
            == Referenced(db) + if row.keyId != "" then {row.keyId} else {}
  {
    var db' := db.(certs := db.certs[row.serial := row]);
    var a, b := Referenced(db'), Referenced(db) + if row.keyId != "" then {row.keyId} else {};
    forall k | k in b ensures k in a {
      if k == row.keyId && row.keyId != "" {
        assert db'.certs[row.serial].keyId == k;
      } else if serial :| serial in db.certs && db.certs[serial].keyId != "" && db.certs[serial].keyId == k {
        assert db'.certs[serial].keyId == k;
      }
    }
  }

  lemma RevokedLeafOk(cas: CAs, row: CertRow, at: int, reason: int)
    requires LeafOk(cas, row) && R.IsReason(reason) && at % SECOND == 0
    ensures LeafOk(cas, RevokedVersion(row, at, reason))
  {
    hide LeafCertOk, IssuedUnder, SerialHex, R.IsReason;
  }

  lemma RevokedRowsKept(db: DB, serial: string, row: CertRow)
    requires RowsInPlace(db) && serial in db.certs && LeafOk(db.cas, row) && row.serial == serial
    ensures RowsInPlace(db.(certs := db.certs[serial := row], history := db.history + [row]))
  {
    hide CAOk, LeafOk;
  }

  lemma RevokedHistoryKept(db: DB, serial: string, row: CertRow)
    requires HistoryOk(db) && serial in db.certs && db.certs[serial].status != REVOKED
    requires row.serial == serial && row.status == REVOKED
    ensures HistoryOk(db.(certs := db.certs[serial := row], history := db.history + [row]))
  {
    var db' := db.(certs := db.certs[serial := row], history := db.history + [row]);
    forall s | s in db'.certs && db'.certs[s].status == REVOKED
      ensures db'.certs[s] in db'.history
    {
      if s == serial {
        assert db'.history[|db.history|] == db'.certs[s];
      } else {
        assert db.certs[s] in db.history;
      }
    }
  }

  lemma ReferencedAfterRevoke(db: DB, serial: string, row: CertRow)
    requires serial in db.certs && row.keyId == db.certs[serial].keyId
    ensures Referenced(db.(certs := db.certs[serial := row], history := db.history + [row])) == Referenced(db)
  {
    var db' := db.(certs := db.certs[serial := row], history := db.history + [row]);
    forall k ensures k in Referenced(db') <==> k in Referenced(db) {
      if s :| s in db.certs && db.certs[s].keyId != "" && db.certs[s].keyId == k {
        assert db'.certs[s].keyId == k;
      }
      if s :| s in db'.certs && db'.certs[s].keyId != "" && db'.certs[s].keyId == k {
        assert db.certs[s].keyId == k;
      }
    }
  }

  lemma RevokeKeepsRows(db: DB, keys: Keys, serial: string, at: int, reason: int)
    requires RowsInPlace(db) && HistoryOk(db) && KeysFit(db, keys)
    requires R.IsReason(reason) && at % SECOND == 0
    requires AfterRevoke(db, serial, at, reason).1.None?
    ensures var db' := AfterRevoke(db, serial, at, reason).0;
            && RowsInPlace(db') && HistoryOk(db') && KeysFit(db', keys)
            && DbGrows(db, db') && db'.certs.Keys == db.certs.Keys
            && Referenced(db') == Referenced(db)
  {
    hide CAOk, LeafOk, HistoryOk, Referenced;
    var row := RevokedVersion(db.certs[serial], at, reason);
    assert LeafOk(db.cas, db.certs[serial]);
    RevokedLeafOk(db.cas, db.certs[serial], at, reason);
    RevokedRowsKept(db, serial, row);
    RevokedHistoryKept(db, serial, row);
    ReferencedAfterRevoke(db, serial, row);
  }

  /** A key that no row names can come or go. */
  lemma UnnamedKey(db: DB, keys: Keys, keys': Keys, k: string)
    requires KeysFit(db, keys) && k !in Referenced(db)
    requires forall x :: x in keys && x != k ==> x in keys' && keys'[x] == keys[x]
    ensures KeysFit(db, keys')
  {
    forall id | id in db.cas ensures KeyFits(keys', db.cas[id].keyId, db.cas[id].cert.publicKey) {
      assert db.cas[id].keyId in Referenced(db);
    }
    forall serial | serial in db.certs && db.certs[serial].keyId != ""
      ensures KeyFits(keys', db.certs[serial].keyId, db.certs[serial].cert.publicKey)
    {
      assert db.certs[serial].keyId in Referenced(db);
    }
  }

  lemma ReferencedPresent(db: DB, keys: Keys)
    requires KeysFit(db, keys)
    ensures Referenced(db) <= keys.Keys
  {
  }

  // ---------------------------------------------------------------- CreateCA

  lemma CheckedCreateOk(req: C.CreateRequest, sh: Shared)
    requires RowsInPlace(sh.db)
    ensures CreateOk(C.CheckRequest(req, sh.db), sh)
    ensures C.CreateHeld(C.CheckRequest(req, sh.db)) == {}
  {
    hide NameText.TrimSpace, CAOk, LeafOk;
  }

  lemma PlannedCreateOk(req: C.CreateRequest, algorithm: Algorithm, days: int, parent: Option<CARow>, clock: int,
                        sh: Shared)
    requires CreateOk(C.CreateChecked(req, algorithm, days, parent), sh)
    ensures CreateOk(C.PlanValidity(req, algorithm, days, parent, clock), sh)
    ensures C.CreateHeld(C.PlanValidity(req, algorithm, days, parent, clock)) == {}
  {
  }

  lemma SignedCreateOk(plan: C.CAPlan, keyId: string, priv: PrivateKey, signer: PrivateKey, serial: int, env: Env,
                       sh: Shared)
    requires PlanOk(sh.db.cas, plan) && EnvOk(env) && ValidKeyId(keyId) && priv.algorithm == plan.algorithm
    requires plan.parent.None? ==> signer == priv
    requires plan.parent.Some? ==>
               CACertOk(plan.parent.value.cert, true) && PublicOf(signer) == plan.parent.value.cert.publicKey
    requires KeyFits(sh.keys, keyId, PublicOf(priv))
    ensures CreateOk(C.SignCA(plan, keyId, priv, signer, serial, env), sh)
    ensures C.CreateHeld(C.SignCA(plan, keyId, priv, signer, serial, env)) == {keyId}
  {
    hide C.SignCA, PlanOk, CAOk, CACertOk, ValidKeyId, KeyFits;
    SignedCAOk(sh.db.cas, plan, keyId, priv, signer, serial, env);
  }

  lemma ParentCertOk(cas: CAs, plan: C.CAPlan)
    requires PlanOk(cas, plan) && plan.parent.Some? && forall id :: id in cas ==> CAOk(cas, cas[id])
    ensures CACertOk(plan.parent.value.cert, true)
  {
    hide CACertOk;
    assert CAOk(cas, cas[plan.parent.value.id]);
  }

  lemma GeneratedCreateOk(plan: C.CAPlan, sh: Shared, env: Env)
    requires SharedOk(sh) && PlanOk(sh.db.cas, plan) && EnvOk(env)
    ensures var (call', keys') := C.GenerateStep(plan, sh.keys, env);
            && CreateOk(call', sh.(keys := keys'))
            && KeysFit(sh.db, keys')
            && Grows(sh, sh.(keys := keys'), {})
            && KeyStep(sh.keys, sh.db, {}, keys', sh.db, C.CreateHeld(call'))
  {
    hide C.SignCA, PlanOk, CAOk, LeafOk, HistoryOk, CacheOk, ValidKeyId, KeyStep, Referenced;
    var (call', keys') := C.GenerateStep(plan, sh.keys, env);
    ReferencedPresent(sh.db, sh.keys);
    if keys' != sh.keys {
      var keyId := env.keyId.value;
      var priv := PrivateKey(plan.algorithm, env.seed);
      assert keyId !in sh.keys && keys'.Keys == sh.keys.Keys + {keyId};
      UnnamedKey(sh.db, sh.keys, keys', keyId);
      if plan.parent.None? && env.serial.Some? && env.expands {
        SignedCreateOk(plan, keyId, priv, priv, env.serial.value, env, sh.(keys := keys'));
      }
      assert C.CreateHeld(call') == {keyId};
      WrittenKeyStep(sh.keys, sh.db, keys', keyId);
    } else {
      assert C.CreateHeld(call') == {};
      SameKeys(sh.keys, sh.db, {});
    }
  }

  lemma LoadedCreateOk(plan: C.CAPlan, keyId: string, priv: PrivateKey, serial: int, sh: Shared, env: Env)
    requires SharedOk(sh) && EnvOk(env) && CreateOk(C.CreateKeyed(plan, keyId, priv, serial), sh)
    ensures CreateOk(C.LoadStep(plan, keyId, priv, serial, sh.keys, env), sh)
    ensures C.CreateHeld(C.LoadStep(plan, keyId, priv, serial, sh.keys, env)) == {keyId}
  {
    hide C.SignCA, PlanOk, CAOk, LeafOk, HistoryOk, CacheOk, ValidKeyId, CACertOk;
    var signer := LoadResult(sh.keys, plan.parent.value.keyId, plan.req.parentPassphrase);
    if signer.Ok? {
      PlanParent(sh.db.cas, plan);
      ParentCertOk(sh.db.cas, plan);
      assert KeyFits(sh.keys, plan.parent.value.keyId, plan.parent.value.cert.publicKey);
      SignedCreateOk(plan, keyId, priv, signer.value, serial, env, sh);
    }
  }

  lemma PlanParent(cas: CAs, plan: C.CAPlan)
    requires PlanOk(cas, plan) && plan.parent.Some?
    ensures HasCA(cas, plan.parent.value)
  {
  }

  /** The promise every step lemma makes. */
  ghost predicate StepOk(call: Call, sh: Shared, call': Call, sh': Shared) {
    && SharedOk(sh')
    && CallOk(call', sh')
    && Grows(sh, sh', Held(call))
    && KeyStep(sh.keys, sh.db, Held(call), sh'.keys, sh'.db, Held(call'))
  }

  lemma SameKeys(keys: Keys, db: DB, held: set<string>)
    requires held <= keys.Keys && held !! Referenced(db)
    ensures KeyStep(keys, db, held, keys, db, held)
  {
  }

  lemma CreateStepOk(c: C.CreateCall, sh: Shared, env: Env)
    requires SharedOk(sh) && CreateOk(c, sh) && EnvOk(env)
    requires C.CreateHeld(c) <= sh.keys.Keys && C.CreateHeld(c) !! Referenced(sh.db)
    ensures var (c', sh') := C.AdvanceCreate(c, sh, env); StepOk(Creating(c), sh, Creating(c'), sh')
  {
    hide C.SignCA, PlanOk, CAOk, LeafOk, HistoryOk, CacheOk, ValidKeyId, C.CheckRequest, C.PlanValidity,
         C.GenerateStep, C.LoadStep, ParentOk, RowsInPlace, KeysFit, CachesOk, Referenced;
    var (c', sh') := C.AdvanceCreate(c, sh, env);
    match c
    case CreateStart(req) => CheckedCreateOk(req, sh);
    case CreateChecked(req, algorithm, days, parent) =>
      PlannedCreateOk(req, algorithm, days, parent, env.now, sh);
    case CreatePlanned(plan) => GeneratedCreateOk(plan, sh, env);
    case CreateKeyed(plan, keyId, priv, serial) => LoadedCreateOk(plan, keyId, priv, serial, sh, env);
    case CreateInsert(row) => CreateInsertOk(row, sh);
    case CreateUndo(keyId, error) => CreateUndoOk(keyId, error, sh);
    case CreateDone(_, _) => SameKeys(sh.keys, sh.db, C.CreateHeld(c));
  }

  lemma CreateInsertOk(row: CARow, sh: Shared)
    requires SharedOk(sh) && CreateOk(C.CreateInsert(row), sh) && row.keyId !in Referenced(sh.db)
    ensures var (c', db') := C.InsertStep(row, sh.db);
            StepOk(Creating(C.CreateInsert(row)), sh, Creating(c'), sh.(db := db'))
  {
    hide LeafOk, CACertOk, HistoryOk, CacheOk, ValidKeyId, RowsInPlace, KeysFit, Referenced, CachesOk;
    var (c', db') := C.InsertStep(row, sh.db);
    if AfterCreateCA(sh.db, row).1.None? {
      InsertCAKeepsRows(sh.db, sh.keys, row);
      CachesStable(sh.db, db', sh.cache);
      assert sh.keys.Keys - ({row.keyId} - Referenced(db') - {}) + {} == sh.keys.Keys;
    } else {
      SameKeys(sh.keys, sh.db, {row.keyId});
    }
  }

  lemma CreateUndoOk(keyId: string, error: Error, sh: Shared)
    requires SharedOk(sh) && ValidKeyId(keyId) && keyId in sh.keys && keyId !in Referenced(sh.db)
    ensures StepOk(Creating(C.CreateUndo(keyId, error)), sh, Creating(C.Failed(error)),
                   sh.(keys := AfterDelete(sh.keys, keyId).0))
    ensures StepOk(Issuing(I.IssueUndo(keyId, error)), sh, Issuing(I.Failed(error)),
                   sh.(keys := AfterDelete(sh.keys, keyId).0))
  {
    hide CAOk, LeafOk, HistoryOk, CacheOk, ValidKeyId, RowsInPlace, KeysFit, Referenced, CachesOk, KeyStep;
    UnnamedKey(sh.db, sh.keys, sh.keys - {keyId}, keyId);
    DeletedKeyStep(sh.keys, sh.db, keyId);
  }

  lemma DeletedKeyStep(keys: Keys, db: DB, keyId: string)
    requires keyId in keys && keyId !in Referenced(db)
    ensures KeyStep(keys, db, {keyId}, keys - {keyId}, db, {})
  {
    hide Referenced;
  }

  lemma WrittenKeyStep(keys: Keys, db: DB, keys': Keys, keyId: string)
    requires keyId !in keys && keyId !in Referenced(db) && keys'.Keys == keys.Keys + {keyId}
    ensures KeyStep(keys, db, {}, keys', db, {keyId})
  {
    hide Referenced;
  }

  // ---------------------------------------------------------------- IssueCertificate

  lemma CheckedIssueOk(req: I.IssueRequest, sh: Shared, cfg: Config)
    requires RowsInPlace(sh.db)
    ensures IssueOk(I.CheckRequest(req, sh.db, cfg), sh)
    ensures I.IssueHeld(I.CheckRequest(req, sh.db, cfg)) == {}
  {
    hide CAOk, LeafOk, DaysDuration, SANs.Empty;
  }

  lemma PlannedIssueOk(order: I.Order, clock: int, sh: Shared)
    requires OrderOk(sh.db.cas, order)
    ensures IssueOk(I.PlanValidity(order, clock), sh)
    ensures I.IssueHeld(I.PlanValidity(order, clock)) == {}
  {
    hide OrderOk;
  }

  lemma LoadedIssueOk(order: I.Order, now: int, notBefore: int, notAfter: int, sh: Shared, env: Env)
    requires SharedOk(sh) && EnvOk(env) && IssueOk(I.IssuePlanned(order, now, notBefore, notAfter), sh)
    ensures IssueOk(I.LoadStep(order, notBefore, notAfter, sh.keys, env), sh)
    ensures I.IssueHeld(I.LoadStep(order, notBefore, notAfter, sh.keys, env)) == {}
  {
    hide I.SignLeaf, LeafOk, HistoryOk, CacheOk, ValidKeyId, CACertOk, WindowOk;
    var signer := LoadResult(sh.keys, order.ca.keyId, order.req.caPassphrase);
    if signer.Ok? {
      assert CAOk(sh.db.cas, sh.db.cas[order.ca.id]);
      assert KeyFits(sh.keys, order.ca.keyId, order.ca.cert.publicKey);
      SignedLeafOk(sh.db.cas, order, now, notBefore, notAfter, signer.value, env);
    }
  }

  lemma StoredIssueOk(row: CertRow, ca: CARow, priv: PrivateKey, passphrase: Bytes, sh: Shared)
    requires SharedOk(sh) && IssueOk(I.IssueStoreKey(row, ca, priv, passphrase), sh)
    ensures var (c', keys') := I.StoreStep(row, ca, priv, passphrase, sh.keys);
            StepOk(Issuing(I.IssueStoreKey(row, ca, priv, passphrase)), sh, Issuing(c'), sh.(keys := keys'))
  {
    hide CAOk, NewLeafOk, HistoryOk, CacheOk, RowsInPlace, Referenced, CachesOk, KeysFit;
    var (c', keys') := I.StoreStep(row, ca, priv, passphrase, sh.keys);
    ReferencedPresent(sh.db, sh.keys);
    if keys' != sh.keys {
      assert keys'.Keys == sh.keys.Keys + {row.keyId};
      UnnamedKey(sh.db, sh.keys, keys', row.keyId);
    }
  }

  lemma InsertedIssueOk(row: CertRow, ca: CARow, sh: Shared)
    requires SharedOk(sh) && IssueOk(I.IssueInsert(row, ca), sh)
    requires I.IssueHeld(I.IssueInsert(row, ca)) !! Referenced(sh.db)
    requires I.IssueHeld(I.IssueInsert(row, ca)) <= sh.keys.Keys
    ensures var (c', db') := I.InsertStep(row, ca, sh.db);
            StepOk(Issuing(I.IssueInsert(row, ca)), sh, Issuing(c'), sh.(db := db'))
  {
    hide CAOk, LeafCertOk, StatusOk, SerialHex, HistoryOk, CacheOk, ValidKeyId, RowsInPlace, KeysFit, Referenced,
         CachesOk;
    var held := I.IssueHeld(I.IssueInsert(row, ca));
    var (c', db') := I.InsertStep(row, ca, sh.db);
    if AfterInsertCertificate(sh.db, row).1.None? {
      InsertLeafKeepsRows(sh.db, sh.keys, row);
      CachesStable(sh.db, db', sh.cache);
      assert sh.keys.Keys - (held - Referenced(db') - {}) + {} == sh.keys.Keys;
    } else {
      SameKeys(sh.keys, sh.db, held);
    }
  }

  lemma IssueStepOk(cfg: Config, c: I.IssueCall, sh: Shared, env: Env)
    requires SharedOk(sh) && IssueOk(c, sh) && EnvOk(env)
    requires I.IssueHeld(c) <= sh.keys.Keys && I.IssueHeld(c) !! Referenced(sh.db)
    ensures var (c', sh') := I.AdvanceIssue(cfg, c, sh, env); StepOk(Issuing(c), sh, Issuing(c'), sh')
  {
    hide I.SignLeaf, OrderOk, WindowOk, LeafOk, HistoryOk, CacheOk, ValidKeyId, I.CheckRequest, I.PlanValidity,
         I.LoadStep, I.StoreStep, I.InsertStep, RowsInPlace, KeysFit, CachesOk, Referenced;
    match c
    case IssueStart(req) => CheckedIssueOk(req, sh, cfg);
    case IssueChecked(order) => PlannedIssueOk(order, env.now, sh);
    case IssuePlanned(order, now, notBefore, notAfter) => LoadedIssueOk(order, now, notBefore, notAfter, sh, env);
    case IssueStoreKey(row, ca, priv, passphrase) => StoredIssueOk(row, ca, priv, passphrase, sh);
    case IssueInsert(row, ca) => InsertedIssueOk(row, ca, sh);
    case IssueUndo(keyId, error) => CreateUndoOk(keyId, error, sh);
    case IssueChain(row, ca) =>
    case IssueDone(_) =>
  }

  // ---------------------------------------------------------------- Revoke and CRL

  lemma RevokeStepOk(c: R.RevokeCall, sh: Shared, env: Env)
    requires SharedOk(sh) && RevokeOk(c, sh) && EnvOk(env)
    ensures var (c', sh') := R.AdvanceRevoke(c, sh, env); StepOk(Revoking(c), sh, Revoking(c'), sh')
  {
    hide LeafOk, CAOk, HistoryOk, CacheOk, RowsInPlace, KeysFit, Referenced, Lower;
    var (c', sh') := R.AdvanceRevoke(c, sh, env);
    match c
    case RevokeTimed(serial, reason, caId, at) =>
      if AfterRevoke(sh.db, serial, at, reason).1.None? {
        RevokeKeepsRows(sh.db, sh.keys, serial, at, reason);
        CachesStable(sh.db, sh'.db, sh.cache);
      }
    case _ =>
  }

  lemma RowsAreKeyed(db: DB)
    requires RowsInPlace(db)
    ensures Keyed(db)
  {
    hide CAOk, LeafOk;
  }

  lemma ListedOk(db: DB, ca: CARow)
    requires RowsInPlace(db) && HistoryOk(db) && HasCA(db.cas, ca)
    ensures SnapOk(db, Snapshot(ca, SortedRows(RevokedRows(db, ca.id)), |db.history|))
  {
    hide LeafOk, CAOk;
    RevokedRowsDistinct(db, ca.id);
    SortedRowsIsListing(RevokedRows(db, ca.id));
    RevokedNow(db, ca.id);
  }

  /** The lookup: a hit is the caller's own list. */
  lemma LookupOk(snap: Snapshot, passphrase: Bytes, now: int, sh: Shared)
    requires SharedOk(sh) && CrlOk(CrlTimed(snap, passphrase, now), sh) && CacheHit(sh.cache, snap, now)
    ensures Serves(sh.cache[snap.ca.id].der, snap, now)
  {
    hide SnapOk, RowsInPlace, HistoryOk, KeysFit, EntryOk, Serves;
    var entry := sh.cache[snap.ca.id];
    HitDescribes(sh.db, entry, snap);
    EntryServes(entry, snap, now);
  }

  lemma EntryServes(entry: CacheEntry, snap: Snapshot, now: int)
    requires EntryOk(entry, snap.ca, snap.rows) && now % SECOND == 0 && now < entry.nextUpdate
    ensures Serves(entry.der, snap, now)
  {
    hide ParsedRevocationList, RowsOk, VerifiedFrom;
  }

  lemma BuiltOk(cfg: Config, snap: Snapshot, passphrase: Bytes, now: int, sh: Shared)
    requires SharedOk(sh) && CrlOk(CrlMissed(snap, passphrase, now), sh)
    requires Build(cfg, snap, passphrase, now, sh.keys).Ok?
    ensures CrlOk(CrlBuilt(snap, now, Build(cfg, snap, passphrase, now, sh.keys).value), sh)
  {
    hide Build, CACertOk, LeafOk, HistoryOk, Describes;
    SnapshotRowsOk(sh.db, snap);
    assert CAOk(sh.db.cas, sh.db.cas[snap.ca.id]);
    assert KeyFits(sh.keys, snap.ca.keyId, snap.ca.cert.publicKey);
    BuildDescribes(cfg, snap, passphrase, now, sh.keys);
  }

  lemma CrlStepOk(cfg: Config, c: CrlCall, sh: Shared, env: Env)
    requires SharedOk(sh) && CrlOk(c, sh) && EnvOk(env)
    ensures var (c', sh') := AdvanceCrl(cfg, c, sh, env); StepOk(Listing(c), sh, Listing(c'), sh')
  {
    hide HistoryOk, RowsInPlace, KeysFit, Referenced, Build, EntryOk, Serves, SnapOk, CacheHit;
    var (c', sh') := AdvanceCrl(cfg, c, sh, env);
    match c
    case CrlStart(_, _) => RowsAreKeyed(sh.db);
    case CrlFound(ca, _) => ListedOk(sh.db, ca);
    case CrlTimed(snap, passphrase, now) =>
      if CacheHit(sh.cache, snap, now) {
        LookupOk(snap, passphrase, now, sh);
      }
    case CrlMissed(snap, passphrase, now) =>
      if Build(cfg, snap, passphrase, now, sh.keys).Ok? {
        BuiltOk(cfg, snap, passphrase, now, sh);
      }
    case CrlBuilt(snap, now, entry) =>
      EntryServes(entry, snap, now);
      assert CacheOk(sh.db, snap.ca.id, entry);
    case _ =>
  }

  // ---------------------------------------------------------------- the whole system

  lemma AdvanceOk(cfg: Config, call: Call, sh: Shared, env: Env)
    requires SharedOk(sh) && CallOk(call, sh) && EnvOk(env)
    requires Held(call) <= sh.keys.Keys && Held(call) !! Referenced(sh.db)
    ensures var (call', sh') := Advance(cfg, call, sh, env); StepOk(call, sh, call', sh')
  {
    hide C.AdvanceCreate, I.AdvanceIssue, R.AdvanceRevoke, AdvanceCrl, SharedOk, StepOk, CreateOk, IssueOk, RevokeOk,
         CrlOk;
    match call
    case Creating(c) => CreateStepOk(c, sh, env);
    case Issuing(c) => IssueStepOk(cfg, c, sh, env);
    case Revoking(c) => RevokeStepOk(c, sh, env);
    case Listing(c) => CrlStepOk(cfg, c, sh, env);
    case Stopped(held) => StoppedOk(held, sh);
  }

  lemma StoppedOk(held: set<string>, sh: Shared)
    requires SharedOk(sh) && held <= sh.keys.Keys && held !! Referenced(sh.db)
    ensures StepOk(Stopped(held), sh, Stopped(held), sh)
  {
    hide SharedOk, Referenced;
  }

  /** Moving one call's identifiers as KeyStep says keeps the account. */
  lemma AccountKept(s: System, id: nat, call': Call, sh': Shared)
    requires Accounted(s) && id in s.calls
    requires KeyStep(s.shared.keys, s.shared.db, Held(s.calls[id]), sh'.keys, sh'.db, Held(call'))
    ensures Accounted(System(sh', s.calls[id := call']))
  {
    hide Held, Referenced;
    var s' := System(sh', s.calls[id := call']);
    var r, r' := Referenced(s.shared.db), Referenced(sh'.db);
    var h, h' := Held(s.calls[id]), Held(call');
    forall j | j in s'.calls && j != id ensures Held(s'.calls[j]) !! h' && Held(s'.calls[j]) !! r' {
      var o := Held(s.calls[j]);
      assert o !! h && o !! r;
      forall k | k in o ensures k in s.shared.keys {
        assert j in s.calls && k in Held(s.calls[j]);
      }
    }
    forall k
      ensures k in sh'.keys <==> k in r' || HeldBySome(s', k)
    {
      if k in sh'.keys && k !in r' {
        if k in h' {
          assert id in s'.calls && k in Held(s'.calls[id]);
        } else {
          var j :| j in s.calls && k in Held(s.calls[j]);
          assert j in s'.calls && k in Held(s'.calls[j]);
        }
      }
      if j :| j in s'.calls && k in Held(s'.calls[j]) {
        if j != id {
          assert j in s.calls && k in Held(s.calls[j]);
          assert k in s.shared.keys && k !in h;
        }
      }
      if k in r' {
        if k in r {
          assert k in s.shared.keys;
        } else {
          assert k in h;
          assert id in s.calls && k in Held(s.calls[id]);
        }
      }
    }
  }

  lemma RunKeepsInv(cfg: Config, s: System, id: nat, env: Env)
    requires Inv(s) && id in s.calls && EnvOk(env)
    ensures var (call', sh') := Advance(cfg, s.calls[id], s.shared, env); Inv(System(sh', s.calls[id := call']))
  {
    hide Advance, SharedOk, CallOk, Grows, KeyStep, Referenced;
    var (call', sh') := Advance(cfg, s.calls[id], s.shared, env);
    var h := Held(s.calls[id]);
    forall k | k in h ensures k in s.shared.keys {
      assert id in s.calls && k in Held(s.calls[id]);
    }
    AdvanceOk(cfg, s.calls[id], s.shared, env);
    AccountKept(s, id, call', sh');
    var s' := System(sh', s.calls[id := call']);
    forall j | j in s'.calls ensures CallOk(s'.calls[j], sh') {
      if j != id {
        CallOkStable(s.calls[j], s.shared, sh', h);
      }
    }
  }

  lemma StopKeeps(call: Call, sh: Shared)
    requires CallOk(call, sh)
    ensures CallOk(Stop(call), sh.(cache := map[])) && Held(Stop(call)) == Held(call)
  {
    hide SnapOk, Serves;
  }

  lemma RestartKeepsInv(s: System)
    requires Inv(s)
    ensures Inv(System(s.shared.(cache := map[]), map id | id in s.calls :: Stop(s.calls[id])))
  {
    hide CallOk, Held, Stop, Referenced, RowsInPlace, HistoryOk, KeysFit, Accounted;
    var s' := System(s.shared.(cache := map[]), map id | id in s.calls :: Stop(s.calls[id]));
    forall id | id in s'.calls
      ensures CallOk(s'.calls[id], s'.shared) && Held(s'.calls[id]) == Held(s.calls[id])
    {
      StopKeeps(s.calls[id], s.shared);
    }
    SameHolders(s, s');
  }

  lemma SameHolders(s: System, s': System)
    requires Accounted(s) && s'.shared.keys == s.shared.keys && s'.shared.db == s.shared.db
    requires s'.calls.Keys == s.calls.Keys
    requires forall id :: id in s.calls ==> Held(s'.calls[id]) == Held(s.calls[id])
    ensures Accounted(s')
  {
    hide Held, Referenced;
    forall k: string ensures HeldBySome(s, k) <==> HeldBySome(s', k) {
    }
  }

  lemma BeginKeepsInv(s: System, id: nat, call: Call)
    requires Inv(s) && id !in s.calls && IsStart(call)
    ensures Inv(s.(calls := s.calls[id := call]))
  {
    hide Referenced, RowsInPlace, HistoryOk, KeysFit;
    var s' := s.(calls := s.calls[id := call]);
    assert Held(call) == {};
    assert CallOk(call, s.shared);
    hide CallOk, Held;
    forall k: string ensures HeldBySome(s, k) <==> HeldBySome(s', k) {
      if i :| i in s.calls && k in Held(s.calls[i]) {
        assert i in s'.calls && k in Held(s'.calls[i]);
      }
      if i :| i in s'.calls && k in Held(s'.calls[i]) {
        assert i in s.calls && k in Held(s.calls[i]);
      }
    }
  }

  /** Every step keeps the invariant, whatever the interleaving and whatever the clock does. */
  lemma NextKeepsInv(cfg: Config, s: System, s': System, step: Step)
    requires Inv(s) && Next(cfg, s, s', step)
    ensures Inv(s')
  {
    hide Inv, Advance, IsStart, Stop;
    match step
    case Begin(id, call) => BeginKeepsInv(s, id, call);
    case Run(id, env) => RunKeepsInv(cfg, s, id, env);
    case Restart => RestartKeepsInv(s);
  }

  lemma InitInv(s: System)
    requires Init(s)
    ensures Inv(s)
  {
  }

  lemma {:induction false} RunInv(cfg: Config, states: seq<System>, steps: seq<Step>, n: nat)
    requires IsRun(cfg, states, steps) && n < |states|
    ensures Inv(states[n])
  {
    hide Inv, Next, Init;
    if n == 0 {
      InitInv(states[0]);
    } else {
      RunInv(cfg, states, steps, n - 1);
      assert Next(cfg, states[n - 1], states[n - 1 + 1], steps[n - 1]);
      NextKeepsInv(cfg, states[n - 1], states[n], steps[n - 1]);
    }
  }
}
