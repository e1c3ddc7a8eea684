/** What the CRL cache keeps: a successful CRL call leaves its list there, and later calls return
    that list, for any passphrase, until a row of the CA is revoked or the list's window ends. */
module Caching {
  import opened Prelude
  import opened Stores
  import opened EngineStates
  import opened RevocationLists
  import opened Hierarchy
  import opened Snapshots
  import opened Systems
  import opened Invariants
  import opened Preservation
  import opened AloneRuns
  import opened CrlCalls
  import opened Times
  import C = CreateCalls
  import I = IssueCalls
  import R = RevokeCalls

  // ---------------------------------------------------------------- one call

  lemma KeyedRow(sh: Shared, caId: string)
    requires SharedOk(sh) && caId in sh.db.cas
    ensures sh.db.cas[caId].id == caId
  {
    hide CAOk, LeafOk, CachesOk, KeysFit, HistoryOk;
  }

  /** What the call reads from the tables when it runs alone. */
  ghost function SnapshotOf(db: DB, caId: string): Snapshot
    requires caId in db.cas
  {
    Snapshot(db.cas[caId], SortedRows(RevokedRows(db, caId)), |db.history|)
  }

  /** A CRL call run alone: a lookup, then a rebuild that replaces the CA's entry. */
  lemma CrlOutcome(cfg: Config, caId: string, passphrase: Bytes, sh: Shared, env: Env)
    requires SharedOk(sh)
    ensures var (call, sh') := RunCrl(cfg, CrlStart(caId, passphrase), sh, env);
            if caId !in sh.db.cas then CrlResult(call) == Err(NotFound) && sh' == sh
            else
              var snap, now, timed := SnapshotOf(sh.db, caId), Truncate(env.now), sh.(clock := env.now);
              var built := Build(cfg, snap, passphrase, now, sh.keys);
              if CacheHit(sh.cache, snap, now) then CrlResult(call) == Ok(sh.cache[caId].der) && sh' == timed
              else if built.Err? then CrlResult(call) == Err(built.error) && sh' == timed
              else CrlResult(call) == Ok(built.value.der)
                   && sh' == timed.(cache := sh.cache[caId := built.value])
  {
    hide SharedOk, RunCrl, SortedRows, RevokedRows, Build, Truncate;
    CrlProgress(cfg, CrlStart(caId, passphrase), sh, env);
    if caId !in sh.db.cas {
      RunCrlIfDone(cfg, CrlFailed(NotFound), sh, env);
    } else {
      var ca, now, timed := sh.db.cas[caId], Truncate(env.now), sh.(clock := env.now);
      var snap := SnapshotOf(sh.db, caId);
      KeyedRow(sh, caId);
      CrlProgress(cfg, CrlFound(ca, passphrase), sh, env);
      CrlProgress(cfg, CrlListed(snap, passphrase), sh, env);
      CrlProgress(cfg, CrlTimed(snap, passphrase, now), timed, env);
      if CacheHit(timed.cache, snap, now) {
        RunCrlIfDone(cfg, CrlDone(Ok(timed.cache[caId].der), snap, now), timed, env);
      } else {
        CrlProgress(cfg, CrlMissed(snap, passphrase, now), timed, env);
        var built := Build(cfg, snap, passphrase, now, sh.keys);
        if built.Err? {
          RunCrlIfDone(cfg, CrlDone(Err(built.error), snap, now), timed, env);
        } else {
          CrlProgress(cfg, CrlBuilt(snap, now, built.value), timed, env);
          RunCrlIfDone(cfg, CrlDone(Ok(built.value.der), snap, now),
                       timed.(cache := timed.cache[caId := built.value]), env);
        }
      }
    }
  }

  /** The CA has a list in the cache that counts all its revoked rows and has not ended at `now`. */
  predicate ListFresh(sh: Shared, caId: string, now: int) {
    && caId in sh.db.cas && caId in sh.cache
    && sh.cache[caId].entryCount == |RevokedRows(sh.db, caId)|
    && now < sh.cache[caId].nextUpdate
  }

  lemma SnapshotSize(sh: Shared, caId: string)
    requires SharedOk(sh) && caId in sh.db.cas
    ensures |SnapshotOf(sh.db, caId).rows| == |RevokedRows(sh.db, caId)|
    ensures SnapOk(sh.db, SnapshotOf(sh.db, caId))
  {
    hide CAOk, LeafOk, CachesOk, KeysFit, HistoryOk, SnapOk, SortedRows, RevokedRows;
    KeyedRow(sh, caId);
    ListedOk(sh.db, sh.db.cas[caId]);
    RevokedRowsDistinct(sh.db, caId);
    SortedRowsIsListing(RevokedRows(sh.db, caId));
    ListingSize(SortedRows(RevokedRows(sh.db, caId)), RevokedRows(sh.db, caId));
  }

  /** A fresh list is served as it is. Any other successful call leaves the list it returns fresh
      in the cache, dated at the call's own time. No call touches the tables, the key files or the
      list of another CA, and a failed call changes nothing. */
  lemma CrlCaches(cfg: Config, caId: string, passphrase: Bytes, sh: Shared, env: Env)
    requires SharedOk(sh)
    ensures var (call, sh') := RunCrl(cfg, CrlStart(caId, passphrase), sh, env);
            var r, now := CrlResult(call), Truncate(env.now);
            && sh'.db == sh.db && sh'.keys == sh.keys
            && (ListFresh(sh, caId, now) ==> r == Ok(sh.cache[caId].der) && sh'.cache == sh.cache)
            && (r.Err? ==> sh'.cache == sh.cache)
            && (r.Ok? ==> ListFresh(sh', caId, now) && sh'.cache[caId].der == r.value)
            && (r.Ok? ==> forall id :: id != caId ==> (id in sh'.cache <==> id in sh.cache)
                                                      && (id in sh.cache ==> sh'.cache[id] == sh.cache[id]))
            && (r.Ok? && !ListFresh(sh, caId, now) ==>
                  && sh'.cache[caId].nextUpdate == now + cfg.crlValidity
                  && ParsedRevocationList(r.value).Ok?
                  && ParsedRevocationList(r.value).value.thisUpdate == now)
  {
    hide SharedOk, RunCrl, SortedRows, RevokedRows, Build, SnapOk, ParsedRevocationList;
    CrlOutcome(cfg, caId, passphrase, sh, env);
    if caId in sh.db.cas {
      var snap, now := SnapshotOf(sh.db, caId), Truncate(env.now);
      SnapshotSize(sh, caId);
      KeyedRow(sh, caId);
      assert ListFresh(sh, caId, now) <==> CacheHit(sh.cache, snap, now);
      if Build(cfg, snap, passphrase, now, sh.keys).Ok? {
        BuiltEntry(cfg, caId, passphrase, now, sh);
      }
    }
  }

  /** The list describes the CA's revoked rows at the time of the call. */
  lemma ListServed(cfg: Config, caId: string, passphrase: Bytes, sh: Shared, env: Env)
    requires SharedOk(sh) && EnvOk(env)
    ensures var r := CrlResult(RunCrl(cfg, CrlStart(caId, passphrase), sh, env).0);
            r.Ok? ==>
              && caId in sh.db.cas
              && Describes(r.value, sh.db.cas[caId], SortedRows(RevokedRows(sh.db, caId)))
              && Current(r.value, Truncate(env.now))
  {
    hide SharedOk, RunCrl, SortedRows, RevokedRows, Build, SnapOk, Describes, Current, Truncate;
    CrlOutcome(cfg, caId, passphrase, sh, env);
    if caId in sh.db.cas {
      var snap, now := SnapshotOf(sh.db, caId), Truncate(env.now);
      SnapshotSize(sh, caId);
      KeyedRow(sh, caId);
      if CacheHit(sh.cache, snap, now) {
        LookupOk(snap, passphrase, now, sh);
      } else if Build(cfg, snap, passphrase, now, sh.keys).Ok? {
        BuiltOk(cfg, snap, passphrase, now, sh);
        EntryServes(Build(cfg, snap, passphrase, now, sh.keys).value, snap, now);
      }
    }
  }

  lemma BuiltEntry(cfg: Config, caId: string, passphrase: Bytes, now: int, sh: Shared)
    requires SharedOk(sh) && caId in sh.db.cas && now % SECOND == 0
    requires Build(cfg, SnapshotOf(sh.db, caId), passphrase, now, sh.keys).Ok?
    ensures var snap := SnapshotOf(sh.db, caId);
            var entry := Build(cfg, snap, passphrase, now, sh.keys).value;
            && entry.entryCount == |snap.rows| && entry.nextUpdate == now + cfg.crlValidity > now
            && ParsedRevocationList(entry.der).Ok?
            && ParsedRevocationList(entry.der).value.thisUpdate == now
  {
    hide Build, CACertOk, LeafOk, HistoryOk, CachesOk, ParsedRevocationList, SortedRows, RevokedRows, VerifiedFrom;
    var snap := SnapshotOf(sh.db, caId);
    SnapshotSize(sh, caId);
    SnapshotRowsOk(sh.db, snap);
    assert CAOk(sh.db.cas, sh.db.cas[caId]);
    assert KeyFits(sh.keys, snap.ca.keyId, snap.ca.cert.publicKey);
    BuildDescribes(cfg, snap, passphrase, now, sh.keys);
  }

  // ---------------------------------------------------------------- calls in between

  ghost function RunWhole(cfg: Config, call: Call, sh: Shared, env: Env): Shared {
    match call
    case Creating(c) => C.RunCreate(c, sh, env).1
    case Issuing(c) => I.RunIssue(cfg, c, sh, env).1
    case Revoking(c) => R.RunRevoke(c, sh, env).1
    case Listing(c) => RunCrl(cfg, c, sh, env).1
    case Stopped(_) => sh
  }

  /** Whole calls, one after the other. */
  ghost function RunAll(cfg: Config, calls: seq<(Call, Env)>, sh: Shared): Shared {
    if calls == [] then sh
    else RunAll(cfg, calls[1..], RunWhole(cfg, calls[0].0, sh, calls[0].1))
  }

  lemma {:induction false} CreateFrame(c: C.CreateCall, sh: Shared, env: Env)
    ensures var sh' := C.RunCreate(c, sh, env).1;
            sh'.cache == sh.cache && sh'.db.certs == sh.db.certs && sh.db.cas.Keys <= sh'.db.cas.Keys
    decreases C.CreateRank(c)
  {
    hide C.RunCreate;
    if c.CreateDone? {
      RunDone(c, sh, env);
    } else {
      CreateStepFrame(c, sh, env);
      RunCreateStep(c, sh, env);
      C.CreateProgress(c, sh, env);
      CreateFrame(C.AdvanceCreate(c, sh, env).0, C.AdvanceCreate(c, sh, env).1, env);
    }
  }

  lemma CreateStepFrame(c: C.CreateCall, sh: Shared, env: Env)
    ensures var sh' := C.AdvanceCreate(c, sh, env).1;
            sh'.cache == sh.cache && sh'.db.certs == sh.db.certs && sh.db.cas.Keys <= sh'.db.cas.Keys
  {
    hide C.CheckRequest, C.SignCA, C.LoadStep, C.AfterGenerate;
  }

  lemma {:induction false} IssueFrame(cfg: Config, c: I.IssueCall, sh: Shared, env: Env)
    ensures var sh' := I.RunIssue(cfg, c, sh, env).1;
            sh'.cache == sh.cache && sh'.db.history == sh.db.history && sh'.db.cas == sh.db.cas
    decreases I.IssueRank(c)
  {
    hide I.RunIssue;
    if c.IssueDone? {
      RunIssueIfDone(cfg, c, sh, env);
    } else {
      IssueStepFrame(cfg, c, sh, env);
      RunIssueStep(cfg, c, sh, env);
      I.IssueProgress(cfg, c, sh, env);
      IssueFrame(cfg, I.AdvanceIssue(cfg, c, sh, env).0, I.AdvanceIssue(cfg, c, sh, env).1, env);
    }
  }

  lemma IssueStepFrame(cfg: Config, c: I.IssueCall, sh: Shared, env: Env)
    ensures var sh' := I.AdvanceIssue(cfg, c, sh, env).1;
            sh'.cache == sh.cache && sh'.db.history == sh.db.history && sh'.db.cas == sh.db.cas
  {
    hide I.CheckRequest, I.LoadStep;
  }

  /** Revoke, run alone: it changes a row and drops the list of the row's CA, or does nothing. */
  lemma RevokeOutcome(serial: string, reason: int, sh: Shared, env: Env)
    ensures var (call, sh') := R.RunRevoke(R.RevokeStart(serial, reason), sh, env);
            var lower := Lower(serial);
            if reason < 0 || reason == 7 || reason > 10 then call.error == Some(ConstraintViolation) && sh' == sh
            else if lower !in sh.db.certs then call.error == Some(NotFound) && sh' == sh
            else
              var row := sh.db.certs[lower];
              if row.status == REVOKED then call.error == Some(AlreadyRevoked) && sh' == sh.(clock := env.now)
              else
                && call.error == None && sh'.clock == env.now && sh'.keys == sh.keys
                && sh'.cache == sh.cache - {row.caId} && sh'.db.cas == sh.db.cas
                && sh'.db == AfterRevoke(sh.db, lower, Truncate(env.now), reason).0
                && sh'.db.certs
                   == sh.db.certs[lower := row.(status := REVOKED, revokedAt := Some(Truncate(env.now)),
                                                revocationReason := Some(reason))]
  {
    hide R.RunRevoke, Lower, Truncate;
    var lower := Lower(serial);
    RevokeProgress(R.RevokeStart(serial, reason), sh, env);
    var found := R.FindStep(serial, reason, sh.db);
    RunRevokeIfDone(found, sh, env);
    if found.RevokeFound? {
      var caId, at, timed := found.caId, Truncate(env.now), sh.(clock := env.now);
      RevokeProgress(found, sh, env);
      RevokeProgress(R.RevokeTimed(lower, reason, caId, at), timed, env);
      var (next, db) := R.CommitStep(lower, reason, caId, at, sh.db);
      RunRevokeIfDone(next, timed.(db := db), env);
      if next.RevokeInvalidate? {
        RevokeProgress(next, timed.(db := db), env);
        RunRevokeIfDone(R.RevokeDone(None), timed.(db := db, cache := sh.cache - {caId}), env);
      }
    }
  }

  /** A whole call keeps the invariant, and revoked rows stay revoked. */
  lemma WholeKeeps(cfg: Config, call: Call, sh: Shared, env: Env, caId: string)
    requires SharedOk(sh) && EnvOk(env) && IsStart(call)
    ensures var sh' := RunWhole(cfg, call, sh, env);
            SharedOk(sh') && RevokedRows(sh.db, caId) <= RevokedRows(sh'.db, caId)
  {
    hide SharedOk, C.RunCreate, I.RunIssue, R.RunRevoke, RunCrl, Referenced, AfterRevoke, Truncate, Lower, R.IsReason;
    match call
    case Creating(c) =>
      RunCreateKeeps(c, sh, env);
      CreateFrame(c, sh, env);
    case Issuing(c) =>
      RunIssueKeeps(cfg, c, sh, env);
      IssueFrame(cfg, c, sh, env);
      SameHistory(sh, I.RunIssue(cfg, c, sh, env).1, caId);
    case Revoking(c) =>
      RunRevokeKeeps(c, sh, env);
      RevokeOutcome(c.serial, c.reason, sh, env);
      var sh' := R.RunRevoke(c, sh, env).1;
      forall row | row in RevokedRows(sh.db, caId)
        ensures row in RevokedRows(sh'.db, caId)
      {
        var serial :| serial in sh.db.certs && sh.db.certs[serial] == row && row.status == REVOKED;
        assert sh'.db.certs[serial] == row;
      }
    case Listing(c) =>
      RunCrlKeeps(cfg, c, sh, env);
      CrlCaches(cfg, c.caId, c.passphrase, sh, env);
  }

  lemma SameHistory(sh: Shared, sh': Shared, caId: string)
    requires SharedOk(sh) && SharedOk(sh') && sh.db.history == sh'.db.history
    ensures RevokedRows(sh.db, caId) == RevokedRows(sh'.db, caId)
  {
    hide RowsInPlace, KeysFit, CachesOk, RevokedRows, HistoryOk;
    RevokedNow(sh.db, caId);
    RevokedNow(sh'.db, caId);
  }

  lemma RevokedRowIsNew(sh: Shared, sh': Shared, serial: string)
    requires SharedOk(sh) && serial in sh.db.certs && sh.db.certs[serial].status != REVOKED
    requires serial in sh'.db.certs && sh'.db.certs[serial].status == REVOKED
    requires sh'.db.certs[serial].serial == sh.db.certs[serial].serial
    ensures var row := sh'.db.certs[serial];
            row in RevokedRows(sh'.db, row.caId) && row !in RevokedRows(sh.db, row.caId)
  {
    hide CAOk, LeafOk, CachesOk, KeysFit, HistoryOk;
    assert Keyed(sh.db);
  }

  /** A whole call that revokes nothing of the CA keeps its list, while the list is fresh. */
  lemma WholeKeepsList(cfg: Config, call: Call, sh: Shared, env: Env, caId: string)
    requires SharedOk(sh) && EnvOk(env) && IsStart(call) && ListFresh(sh, caId, Truncate(env.now))
    requires RevokedRows(RunWhole(cfg, call, sh, env).db, caId) == RevokedRows(sh.db, caId)
    ensures var sh' := RunWhole(cfg, call, sh, env);
            ListFresh(sh', caId, Truncate(env.now)) && sh'.cache[caId] == sh.cache[caId]
  {
    hide SharedOk, C.RunCreate, I.RunIssue, R.RunRevoke, RunCrl, Referenced, AfterRevoke, Truncate, Lower;
    match call
    case Creating(c) => CreateFrame(c, sh, env);
    case Issuing(c) => IssueFrame(cfg, c, sh, env);
    case Revoking(c) =>
      RevokeOutcome(c.serial, c.reason, sh, env);
      if R.RunRevoke(c, sh, env).0.error.None? {
        RevokedRowIsNew(sh, R.RunRevoke(c, sh, env).1, Lower(c.serial));
      }
    case Listing(c) => CrlCaches(cfg, c.caId, c.passphrase, sh, env);
  }

  /** The calls' clock readings come before `end`. */
  predicate CallsBefore(calls: seq<(Call, Env)>, end: int) {
    forall i :: 0 <= i < |calls| ==> IsStart(calls[i].0) && EnvOk(calls[i].1) && Truncate(calls[i].1.now) < end
  }

  lemma {:induction false} AllKeepList(cfg: Config, calls: seq<(Call, Env)>, sh: Shared, caId: string, now: int)
    requires SharedOk(sh) && ListFresh(sh, caId, now) && CallsBefore(calls, sh.cache[caId].nextUpdate)
    ensures var sh' := RunAll(cfg, calls, sh);
            && SharedOk(sh') && RevokedRows(sh.db, caId) <= RevokedRows(sh'.db, caId)
            && (RevokedRows(sh'.db, caId) == RevokedRows(sh.db, caId) ==>
                  ListFresh(sh', caId, now) && sh'.cache[caId] == sh.cache[caId])
  {
    hide SharedOk, RevokedRows, RunWhole, IsStart, EnvOk, Truncate;
    if calls != [] {
      var (call, env) := calls[0];
      var sh1 := RunWhole(cfg, call, sh, env);
      WholeKeeps(cfg, call, sh, env, caId);
      RunAllKeeps(cfg, calls[1..], sh1, sh.cache[caId].nextUpdate, caId);
      if RevokedRows(RunAll(cfg, calls, sh).db, caId) == RevokedRows(sh.db, caId) {
        WholeKeepsList(cfg, call, sh, env, caId);
        AllKeepList(cfg, calls[1..], sh1, caId, now);
      }
    }
  }

  lemma {:induction false} RunAllKeeps(cfg: Config, calls: seq<(Call, Env)>, sh: Shared, end: int, caId: string)
    requires SharedOk(sh) && CallsBefore(calls, end)
    ensures var sh' := RunAll(cfg, calls, sh);
            SharedOk(sh') && RevokedRows(sh.db, caId) <= RevokedRows(sh'.db, caId)
  {
    hide SharedOk, RevokedRows, RunWhole, IsStart, EnvOk, Truncate;
    if calls != [] {
      WholeKeeps(cfg, calls[0].0, sh, calls[0].1, caId);
      RunAllKeeps(cfg, calls[1..], RunWhole(cfg, calls[0].0, sh, calls[0].1), end, caId);
    }
  }

  /** When a cached list ends. */
  function ServedUntil(sh: Shared, caId: string): int {
    if caId in sh.cache then sh.cache[caId].nextUpdate else 0
  }

  /** A CRL call returned a list; then any whole calls ran, none of which revoked a row of the CA,
      and the clock has stayed before the end of the list. The next CRL call returns the same list,
      whatever passphrase it is given, and leaves the cache as it is. */
  lemma ServedUntilRevoked(cfg: Config, caId: string, passphrase: Bytes, sh: Shared, env: Env,
                           between: seq<(Call, Env)>, passphrase': Bytes, env': Env)
    requires SharedOk(sh) && CrlResult(RunCrl(cfg, CrlStart(caId, passphrase), sh, env).0).Ok?
    requires var sh1 := RunCrl(cfg, CrlStart(caId, passphrase), sh, env).1;
             && EnvOk(env) && CallsBefore(between, ServedUntil(sh1, caId))
             && Truncate(env'.now) < ServedUntil(sh1, caId)
             && RevokedRows(RunAll(cfg, between, sh1).db, caId) == RevokedRows(sh.db, caId)
    ensures var list := CrlResult(RunCrl(cfg, CrlStart(caId, passphrase), sh, env).0);
            var sh2 := RunAll(cfg, between, RunCrl(cfg, CrlStart(caId, passphrase), sh, env).1);
            var (call, sh3) := RunCrl(cfg, CrlStart(caId, passphrase'), sh2, env');
            CrlResult(call) == list && sh3.cache == sh2.cache
  {
    hide SharedOk, RunCrl, RunAll, RevokedRows, Truncate;
    var first := CrlStart(caId, passphrase);
    var sh1 := RunCrl(cfg, first, sh, env).1;
    RunCrlKeeps(cfg, first, sh, env);
    CrlCaches(cfg, caId, passphrase, sh, env);
    AllKeepList(cfg, between, sh1, caId, Truncate(env.now));
    CrlCaches(cfg, caId, passphrase', RunAll(cfg, between, sh1), env');
  }
}
