/** The main results about runs of the engine, for every interleaving. */
module Theorems {
  import opened Prelude
  import opened X509
  import opened Certificates
  import opened Profiles
  import opened Stores
  import opened Keystores
  import opened EngineStates
  import opened Hierarchy
  import opened Snapshots
  import opened Systems
  import opened Invariants
  import opened Preservation
  import opened Timeliness
  import opened CrlCalls
  import opened RevocationLists
  import opened PathValidation
  import opened Times
  import AloneRuns
  import Rdn
  import C = CreateCalls
  import I = IssueCalls
  import R = RevokeCalls

  // ---------------------------------------------------------------- revocation lists

  predicate HasSnapshot(c: CrlCall) {
    c.CrlListed? || c.CrlTimed? || c.CrlMissed? || c.CrlBuilt? || c.CrlDone?
  }

  /** Step m of the run is this call's ListRevoked, and `snap` is what it read. */
  ghost predicate ReadsAt(states: seq<System>, steps: seq<Step>, id: nat, snap: Snapshot, m: nat) {
    && m < |steps| && m < |states|
    && steps[m].Run? && steps[m].id == id
    && id in states[m].calls && states[m].calls[id].Listing? && states[m].calls[id].crl.CrlFound?
    && snap.ca == states[m].calls[id].crl.ca
    && snap.rows == SortedRows(RevokedRows(states[m].shared.db, snap.ca.id))
    && snap.readAt == |states[m].shared.db.history|
  }

  lemma CrlStepSnapshot(cfg: Config, c: CrlCall, sh: Shared, env: Env)
    ensures var c' := AdvanceCrl(cfg, c, sh, env).0;
            HasSnapshot(c') ==>
              if c.CrlFound? then c'.snap == Snapshot(c.ca, SortedRows(RevokedRows(sh.db, c.ca.id)), |sh.db.history|)
              else HasSnapshot(c) && c'.snap == c.snap
  {
    hide Build, CacheHit;
  }

  /** A call's snapshot comes from exactly one step of the run, its own ListRevoked. */
  lemma {:induction false} SnapshotOrigin(cfg: Config, states: seq<System>, steps: seq<Step>, n: nat, id: nat)
    returns (m: nat)
    requires IsRun(cfg, states, steps) && n < |states|
    requires id in states[n].calls && states[n].calls[id].Listing? && HasSnapshot(states[n].calls[id].crl)
    ensures m < n && ReadsAt(states, steps, id, states[n].calls[id].crl.snap, m)
  {
    hide AdvanceCrl, C.AdvanceCreate, I.AdvanceIssue, R.AdvanceRevoke, SortedRows, RevokedRows, EnvOk, Held;
    assert n > 0;
    var s, s' := states[n - 1], states[n];
    assert Next(cfg, s, states[n - 1 + 1], steps[n - 1]);
    match steps[n - 1]
    case Begin(j, call) =>
      m := SnapshotOrigin(cfg, states, steps, n - 1, id);
    case Run(j, env) =>
      if j == id {
        var c := s.calls[id].crl;
        CrlStepSnapshot(cfg, c, s.shared, env);
        if c.CrlFound? {
          m := n - 1;
        } else {
          m := SnapshotOrigin(cfg, states, steps, n - 1, id);
        }
      } else {
        m := SnapshotOrigin(cfg, states, steps, n - 1, id);
      }
    case Restart =>
      m := SnapshotOrigin(cfg, states, steps, n - 1, id);
  }

  /** Every list that CRL returns, from the cache or rebuilt, in any interleaving with
      revocations, other CRL calls and restarts: it parses, verifies under the CA's certificate,
      has one entry for each row that this call's own ListRevoked read and no other, in order,
      and is not past its nextUpdate at the call's own time. */
  lemma CrlServesOwnSnapshot(cfg: Config, states: seq<System>, steps: seq<Step>, n: nat, id: nat) returns (m: nat)
    requires IsRun(cfg, states, steps) && n < |states|
    requires id in states[n].calls && states[n].calls[id].Listing?
    requires states[n].calls[id].crl.CrlDone? && states[n].calls[id].crl.result.Ok?
    ensures var done := states[n].calls[id].crl;
            && m < n && ReadsAt(states, steps, id, done.snap, m)
            && IsListing(done.snap.rows, RevokedRows(states[m].shared.db, done.snap.ca.id))
            && Describes(done.result.value, done.snap.ca, done.snap.rows)
            && Current(done.result.value, done.now)
  {
    hide Describes, SnapOk, SharedOk, Accounted;
    RunInv(cfg, states, steps, n);
    assert CallOk(states[n].calls[id], states[n].shared);
    m := SnapshotOrigin(cfg, states, steps, n, id);
    RunInv(cfg, states, steps, m);
    var db := states[m].shared.db;
    SharedIsKeyed(states[m].shared);
    RevokedRowsDistinct(db, states[n].calls[id].crl.snap.ca.id);
    SortedRowsIsListing(RevokedRows(db, states[n].calls[id].crl.snap.ca.id));
  }

  lemma SharedIsKeyed(sh: Shared)
    requires SharedOk(sh)
    ensures Keyed(sh.db)
  {
    hide CAOk, LeafOk, HistoryOk, CacheOk;
  }

  predicate RevokedIn(db: DB, caId: string, serial: nat) {
    var hex := SerialHex(serial);
    hex in db.certs && db.certs[hex].caId == caId && db.certs[hex].status == REVOKED
  }

  lemma ListedIffRevoked(db: DB, caId: string, rows: seq<CertRow>, serial: nat)
    requires RowsInPlace(db) && RowsOk(rows) && IsListing(rows, RevokedRows(db, caId))
    ensures Lists(EntriesFor(rows), serial) <==> RevokedIn(db, caId, serial)
  {
    hide LeafCertOk, IssuedUnder, CAOk, SerialHex;
    var hex := SerialHex(serial);
    if i :| 0 <= i < |EntriesFor(rows)| && EntriesFor(rows)[i].serialNumber == serial {
      assert rows[i] in rows;
    }
    if RevokedIn(db, caId, serial) {
      var row := db.certs[hex];
      assert row in RevokedRows(db, caId);
      var i :| 0 <= i < |rows| && rows[i] == row;
      assert LeafOk(db.cas, row);
      SerialRoundTrip(serial);
      SerialRoundTrip(row.cert.serialNumber);
      assert EntriesFor(rows)[i].serialNumber == serial;
    }
  }

  /** The entry repeats what the CA's row for that number says. */
  predicate EntryOfRow(e: RevocationEntry, db: DB, caId: string) {
    && e.serialNumber > 0
    && RevokedIn(db, caId, e.serialNumber)
    && var row := db.certs[SerialHex(e.serialNumber)];
    row.revokedAt == Some(e.revocationTime) && e.revocationTime % SECOND == 0
    && row.revocationReason == Some(e.reasonCode) && R.IsReason(e.reasonCode)
  }

  /** End to end: for every serial number, the parsed list of a finished CRL call has an entry for
      it exactly when the CA's row for that number was revoked in the state the call read; and
      every entry, so also the one that IsRevoked returns, has that row's reason and time. */
  lemma EndToEndRevocation(cfg: Config, states: seq<System>, steps: seq<Step>, n: nat, id: nat, serial: nat)
    returns (m: nat)
    requires IsRun(cfg, states, steps) && n < |states|
    requires id in states[n].calls && states[n].calls[id].Listing?
    requires states[n].calls[id].crl.CrlDone? && states[n].calls[id].crl.result.Ok?
    ensures var done := states[n].calls[id].crl;
            && m < n && ReadsAt(states, steps, id, done.snap, m)
            && ParsedRevocationList(done.result.value).Ok?
            && var entries := ParsedRevocationList(done.result.value).value.entries;
            && (Lists(entries, serial) <==> RevokedIn(states[m].shared.db, done.snap.ca.id, serial))
            && (forall i :: 0 <= i < |entries| ==> EntryOfRow(entries[i], states[m].shared.db, done.snap.ca.id))
  {
    hide ParsedRevocationList, VerifiedFrom, SerialHex, EntriesFor, RowsOk, SharedOk, Accounted, Lists, RevokedIn,
         EntryOfRow, Current;
    m := CrlServesOwnSnapshot(cfg, states, steps, n, id);
    RunInv(cfg, states, steps, m);
    SharedRows(states[m].shared);
    var done := states[n].calls[id].crl;
    ListedIffRevoked(states[m].shared.db, done.snap.ca.id, done.snap.rows, serial);
    EntriesAreRows(states[m].shared.db, done.snap.ca.id, done.snap.rows);
  }

  lemma EntriesAreRows(db: DB, caId: string, rows: seq<CertRow>)
    requires RowsInPlace(db) && RowsOk(rows) && IsListing(rows, RevokedRows(db, caId))
    ensures forall i :: 0 <= i < |rows| ==> EntryOfRow(EntriesFor(rows)[i], db, caId)
  {
    hide CAOk, LeafOk, SerialHex, Sorted;
    forall i | 0 <= i < |rows| ensures EntryOfRow(EntriesFor(rows)[i], db, caId) {
      assert rows[i] in rows;
      assert rows[i] in RevokedRows(db, caId);
    }
  }

  lemma SharedRows(sh: Shared)
    requires SharedOk(sh)
    ensures RowsInPlace(sh.db) && HistoryOk(sh.db) && KeysFit(sh.db, sh.keys)
  {
    hide RowsInPlace, HistoryOk, KeysFit;
  }

  predicate NamesRow(serial: string, db: DB, number: nat) {
    SerialHex(number) in db.certs && SameDigits(serial, SerialHex(number))
  }

  /** Revoke finds a row exactly when it is given the row's serial number in hexadecimal, in any
      letter case, and then finds that row. */
  lemma RevokeFindsAnyCase(cfg: Config, states: seq<System>, steps: seq<Step>, n: nat, serial: string, reason: int)
    requires IsRun(cfg, states, steps) && n < |states|
    ensures var db := states[n].shared.db;
            && (R.FindStep(serial, reason, db).RevokeFound? <==>
                  R.IsReason(reason) && exists number: nat :: NamesRow(serial, db, number))
            && (forall number: nat :: R.IsReason(reason) && NamesRow(serial, db, number) ==>
                  R.FindStep(serial, reason, db)
                  == R.RevokeFound(SerialHex(number), reason, db.certs[SerialHex(number)].caId))
  {
    hide SharedOk, CallOk, Accounted, SerialHex, SameDigits, Lower, R.IsReason, RowsInPlace, HistoryOk, KeysFit;
    RunInv(cfg, states, steps, n);
    SharedRows(states[n].shared);
    var db := states[n].shared.db;
    forall number: nat ensures Lower(serial) == SerialHex(number) <==> SameDigits(serial, SerialHex(number)) {
      SerialAnyCase(serial, number);
    }
    if Lower(serial) in db.certs {
      RowParents(db, Lower(serial));
      assert NamesRow(serial, db, db.certs[Lower(serial)].cert.serialNumber);
    }
  }

  /** CRL numbers follow the revoked set, also across restarts: ordered by their ListRevoked,
      they never decrease, they grow when a revocation for the CA lies between, and equal numbers
      mean identical entries in the same order. */
  lemma CrlNumbersFollowRevocations(cfg: Config, states: seq<System>, steps: seq<Step>, n: nat, i: nat, j: nat)
    requires IsRun(cfg, states, steps) && n < |states|
    requires i in states[n].calls && states[n].calls[i].Listing? && states[n].calls[i].crl.CrlDone?
    requires j in states[n].calls && states[n].calls[j].Listing? && states[n].calls[j].crl.CrlDone?
    requires var a, b := states[n].calls[i].crl, states[n].calls[j].crl;
             && a.result.Ok? && b.result.Ok? && a.snap.ca.id == b.snap.ca.id && a.snap.readAt <= b.snap.readAt
    ensures var a, b := states[n].calls[i].crl, states[n].calls[j].crl;
            var history := states[n].shared.db.history;
            && b.snap.readAt <= |history|
            && ParsedRevocationList(a.result.value).Ok? && ParsedRevocationList(b.result.value).Ok?
            && var x, y := ParsedRevocationList(a.result.value).value, ParsedRevocationList(b.result.value).value;
            && x.number.Some? && y.number.Some?
            && x.number.value <= y.number.value
            && ((exists k :: a.snap.readAt <= k < b.snap.readAt && history[k].caId == a.snap.ca.id) ==>
                  x.number.value < y.number.value)
            && (x.number == y.number ==> x.entries == y.entries)
  {
    hide RowsOk, EntriesFor, VerifiedFrom, Accounted, RowsInPlace, HistoryOk, KeysFit, CacheOk;
    RunInv(cfg, states, steps, n);
    var db := states[n].shared.db;
    var a, b := states[n].calls[i].crl, states[n].calls[j].crl;
    assert CallOk(states[n].calls[i], states[n].shared) && CallOk(states[n].calls[j], states[n].shared);
    SnapshotsOrdered(db, a.snap, b.snap);
    if k :| a.snap.readAt <= k < b.snap.readAt && db.history[k].caId == a.snap.ca.id {
      SnapshotsGrow(db, a.snap, b.snap, k);
    }
  }

  // ---------------------------------------------------------------- hierarchy

  predicate RootRow(row: CARow) {
    && row.cert.basicConstraints == BasicConstraints(true, 1, true)
    && row.cert.keyUsage == 0x0060 && CAExtensions(row.cert, 1)
    && row.algorithm == row.cert.publicKey.algorithm
    && row.algorithm in {MLDSA87, SLHDSA_SHA2_256s, SLHDSA_SHAKE_256s}
    && row.cert.rawIssuer == row.cert.rawSubject
    && row.cert.signature == Signed(row.cert.publicKey, row.cert.rawTbs)
  }

  /** Named and signed by the issuer, under its algorithm, and not outlasting it. */
  predicate Under(c: Certificate, issuer: Certificate) {
    && c.rawIssuer == issuer.rawSubject
    && c.signatureAlgorithm == issuer.publicKey.algorithm
    && c.signature == Signed(issuer.publicKey, c.rawTbs)
    && c.notAfter <= issuer.notAfter
  }

  predicate IntermediateRow(row: CARow, parent: CARow) {
    && row.cert.basicConstraints == BasicConstraints(true, 0, true)
    && row.cert.keyUsage == 0x0060 && CAExtensions(row.cert, 0)
    && row.algorithm == row.cert.publicKey.algorithm
    && row.algorithm in {MLDSA65, SLHDSA_SHA2_192s, SLHDSA_SHAKE_192s}
    && parent.parentId == "" && Under(row.cert, parent.cert)
  }

  predicate EndEntityRow(row: CertRow, ca: CARow) {
    && !row.cert.basicConstraints.isCA && LeafExtensions(row.cert)
    && row.algorithm == row.cert.publicKey.algorithm
    && row.algorithm in {MLDSA44, MLDSA65, SLHDSA_SHA2_128s, SLHDSA_SHA2_128f, SLHDSA_SHAKE_128s, SLHDSA_SHAKE_128f}
    && ca.parentId != "" && Under(row.cert, ca.cert)
    && row.cert.serialNumber > 0 && row.serial == SerialHex(row.cert.serialNumber)
  }

  /** Every reachable table is a two-level hierarchy: a CA row has no parent or names an existing
      parentless row; path lengths, algorithms, signatures, names, expiry and the signed extensions
      follow the level; and end-entity rows hang off intermediates, so a root has nothing to revoke. */
  lemma TwoLevelHierarchy(cfg: Config, states: seq<System>, steps: seq<Step>, n: nat)
    requires IsRun(cfg, states, steps) && n < |states|
    ensures var db := states[n].shared.db;
            && (forall id :: id in db.cas ==>
                  var row := db.cas[id];
                  if row.parentId == "" then RootRow(row) && RevokedRows(db, id) == {}
                  else row.parentId in db.cas && IntermediateRow(row, db.cas[row.parentId]))
            && (forall serial :: serial in db.certs ==>
                  var row := db.certs[serial];
                  row.caId in db.cas && EndEntityRow(row, db.cas[row.caId]))
  {
    hide SharedOk, CallOk, Accounted, CAOk, LeafOk, RootRow, IntermediateRow, EndEntityRow;
    RunInv(cfg, states, steps, n);
    SharedRows(states[n].shared);
    var db := states[n].shared.db;
    RootsRevokeNothing(db);
    forall id | id in db.cas ensures CALevel(db.cas, db.cas[id]) {
      CALevelOk(db.cas, db.cas[id]);
    }
    forall serial | serial in db.certs ensures LeafLevel(db.cas, db.certs[serial]) {
      LeafLevelOk(db.cas, db.certs[serial]);
    }
  }

  predicate CALevel(cas: CAs, row: CARow) {
    if row.parentId == "" then RootRow(row) else row.parentId in cas && IntermediateRow(row, cas[row.parentId])
  }

  predicate LeafLevel(cas: CAs, row: CertRow) {
    row.caId in cas && EndEntityRow(row, cas[row.caId])
  }

  lemma CALevelOk(cas: CAs, row: CARow)
    requires CAOk(cas, row)
    ensures CALevel(cas, row)
  {
    hide ParsedCertificate, Rdn.ParsedName;
  }

  lemma LeafLevelOk(cas: CAs, row: CertRow)
    requires LeafOk(cas, row)
    ensures LeafLevel(cas, row)
  {
    hide ParsedCertificate, SerialHex;
  }

  lemma RootsRevokeNothing(db: DB)
    requires RowsInPlace(db)
    ensures forall id :: id in db.cas ==> CAOk(db.cas, db.cas[id])
    ensures forall serial :: serial in db.certs ==> LeafOk(db.cas, db.certs[serial])
    ensures forall id :: id in db.cas && db.cas[id].parentId == "" ==> RevokedRows(db, id) == {}
  {
    hide CAOk, LeafCertOk, IssuedUnder, StatusOk, SerialHex;
    forall id | id in db.cas && db.cas[id].parentId == "" ensures RevokedRows(db, id) == {} {
      forall serial | serial in db.certs ensures db.certs[serial].caId != id {
        assert LeafOk(db.cas, db.certs[serial]);
      }
    }
  }

  // ---------------------------------------------------------------- keys

  /** No key is lost and none is left over: at every moment of every run the key files are
      exactly those that rows name and those that calls hold, without overlap, and a row's key
      fits its certificate. */
  lemma KeysAccountedFor(cfg: Config, states: seq<System>, steps: seq<Step>, n: nat)
    requires IsRun(cfg, states, steps) && n < |states|
    ensures var s := states[n];
            && KeysFit(s.shared.db, s.shared.keys)
            && Accounted(s)
            && ((forall id :: id in s.calls ==> Held(s.calls[id]) == {}) ==>
                  s.shared.keys.Keys == Referenced(s.shared.db))
  {
    hide SharedOk, CallOk, Referenced, Held, KeysFit;
    RunInv(cfg, states, steps, n);
    SharedRows(states[n].shared);
    var s := states[n];
    if forall id :: id in s.calls ==> Held(s.calls[id]) == {} {
      forall k: string ensures !HeldBySome(s, k) {
      }
    }
  }

  /** A key that a row names is never replaced or deleted, whatever other calls undo. */
  lemma {:induction false} NamedKeysStay(cfg: Config, states: seq<System>, steps: seq<Step>, m: nat, n: nat, k: string)
    requires IsRun(cfg, states, steps) && m <= n < |states|
    requires k in Referenced(states[m].shared.db)
    ensures k in Referenced(states[n].shared.db)
    ensures k in states[m].shared.keys && k in states[n].shared.keys
    ensures states[n].shared.keys[k] == states[m].shared.keys[k]
  {
    hide Advance, Inv, Referenced, Stop, IsStart, EnvOk;
    RunInv(cfg, states, steps, m);
    NamedIsPresent(states[m], k);
    if m < n {
      NamedKeysStay(cfg, states, steps, m, n - 1, k);
      RunInv(cfg, states, steps, n - 1);
      var s, step := states[n - 1], steps[n - 1];
      assert Next(cfg, s, states[n - 1 + 1], step);
      if step.Run? {
        NamedKeyStep(cfg, s, step.id, step.env, k);
      }
    }
  }

  lemma NamedIsPresent(s: System, k: string)
    requires Inv(s) && k in Referenced(s.shared.db)
    ensures k in s.shared.keys
  {
    hide SharedOk, CallOk, Accounted, Referenced;
    SharedRows(s.shared);
    ReferencedPresent(s.shared.db, s.shared.keys);
  }

  lemma NamedKeyStep(cfg: Config, s: System, id: nat, env: Env, k: string)
    requires Inv(s) && id in s.calls && EnvOk(env) && k in Referenced(s.shared.db) && k in s.shared.keys
    ensures var sh' := Advance(cfg, s.calls[id], s.shared, env).1;
            k in Referenced(sh'.db) && k in sh'.keys && sh'.keys[k] == s.shared.keys[k]
  {
    hide Advance, SharedOk, CallOk, Accounted, Referenced, Held, EnvOk, DbGrows;
    RunMembers(s, id);
    AdvanceOk(cfg, s.calls[id], s.shared, env);
  }

  /** The call has written its row: a new CA, a new certificate, a revocation. */
  predicate HasWritten(call: Call) {
    match call
    case Creating(c) => c.CreateDone? && c.result.Ok?
    case Issuing(c) => c.IssueChain? || (c.IssueDone? && c.result.Ok?)
    case Revoking(c) => c.RevokeInvalidate? || (c.RevokeDone? && c.error.None?)
    case Listing(_) => false
    case Stopped(_) => false
  }

  lemma IssueStepTables(cfg: Config, c: I.IssueCall, sh: Shared, env: Env)
    requires SharedOk(sh) && IssueOk(c, sh)
    ensures var (c', sh') := I.AdvanceIssue(cfg, c, sh, env);
            && (HasWritten(Issuing(c)) ==> HasWritten(Issuing(c')))
            && (!HasWritten(Issuing(c')) ==> sh'.db == sh.db)
  {
    hide SharedOk, I.LoadStep, I.StoreStep;
    match c
    case IssueStart(req) => AloneRuns.CheckedIssueShape(cfg, req, sh.db);
    case IssuePlanned(order, _, notBefore, notAfter) => LoadedShape(order, notBefore, notAfter, sh.keys, env);
    case IssueStoreKey(row, ca, priv, passphrase) => StoredShape(row, ca, priv, passphrase, sh.keys);
    case IssueChain(row, ca) => AloneRuns.ChainNeverFails(row, ca, sh);
    case _ =>
  }

  lemma LoadedShape(order: I.Order, notBefore: int, notAfter: int, keys: Keys, env: Env)
    ensures !HasWritten(Issuing(I.LoadStep(order, notBefore, notAfter, keys, env)))
  {
    hide I.SignLeaf;
    var signer := LoadResult(keys, order.ca.keyId, order.req.caPassphrase);
    if signer.Ok? {
      AloneRuns.SignLeafShape(order, notBefore, notAfter, signer.value, env);
    }
  }

  lemma StoredShape(row: CertRow, ca: CARow, priv: PrivateKey, passphrase: Bytes, keys: Keys)
    ensures !HasWritten(Issuing(I.StoreStep(row, ca, priv, passphrase, keys).0))
  {
    hide AfterStore;
  }

  /** A step either leaves the tables alone or is the call's one write. */
  lemma StepTables(cfg: Config, call: Call, sh: Shared, env: Env)
    requires SharedOk(sh) && CallOk(call, sh)
    ensures var (call', sh') := Advance(cfg, call, sh, env);
            && (HasWritten(call) ==> HasWritten(call') && sh'.db == sh.db)
            && (!HasWritten(call') ==> sh'.db == sh.db)
            && TablesKept(sh.db, sh'.db)
            && (call.Stopped? ==> call'.Stopped?)
  {
    hide SharedOk, I.AdvanceIssue, AdvanceCrl, C.CheckRequest, C.GenerateStep, C.LoadStep, R.FindStep;
    match call
    case Creating(c) => CreateStepTables(c, sh, env);
    case Issuing(c) =>
      IssueStepTables(cfg, c, sh, env);
      IssueWritesOnce(cfg, c, sh, env);
    case Revoking(c) => RevokeStepTables(c, sh, env);
    case Listing(c) => CrlStepTables(cfg, c, sh, env);
    case Stopped(_) =>
  }

  /** A certificate row keeps every column; it is revoked at most once, for good. */
  predicate RowKept(row: CertRow, row': CertRow) {
    || row' == row
    || (row.status != REVOKED && row'.revokedAt.Some? && row'.revocationReason.Some?
        && row' == RevokedVersion(row, row'.revokedAt.value, row'.revocationReason.value))
  }

  predicate TablesKept(db: DB, db': DB) {
    && (forall id :: id in db.cas ==> id in db'.cas && db'.cas[id] == db.cas[id])
    && (forall serial :: serial in db.certs ==>
          serial in db'.certs && RowKept(db.certs[serial], db'.certs[serial]))
  }

  lemma CreateStepTables(c: C.CreateCall, sh: Shared, env: Env)
    ensures var (c', sh') := C.AdvanceCreate(c, sh, env);
            && (HasWritten(Creating(c)) ==> HasWritten(Creating(c')) && sh'.db == sh.db)
            && (!HasWritten(Creating(c')) ==> sh'.db == sh.db)
            && TablesKept(sh.db, sh'.db)
  {
    hide C.CheckRequest, C.GenerateStep, C.LoadStep, C.PlanValidity;
  }

  lemma IssueWritesOnce(cfg: Config, c: I.IssueCall, sh: Shared, env: Env)
    ensures var (c', sh') := I.AdvanceIssue(cfg, c, sh, env);
            (HasWritten(Issuing(c)) ==> sh'.db == sh.db) && TablesKept(sh.db, sh'.db)
  {
    hide I.CheckRequest, I.LoadStep, I.StoreStep, I.PlanValidity;
  }

  lemma RevokeStepTables(c: R.RevokeCall, sh: Shared, env: Env)
    ensures var (c', sh') := R.AdvanceRevoke(c, sh, env);
            && (HasWritten(Revoking(c)) ==> HasWritten(Revoking(c')) && sh'.db == sh.db)
            && (!HasWritten(Revoking(c')) ==> sh'.db == sh.db)
            && TablesKept(sh.db, sh'.db)
  {
    hide Lower, R.IsReason;
  }

  lemma CrlStepTables(cfg: Config, c: CrlCall, sh: Shared, env: Env)
    ensures AdvanceCrl(cfg, c, sh, env).1.db == sh.db
  {
    hide Build, CacheHit, SortedRows;
  }

  /** A call that has not written its row, failed or still running, has changed no table in any
      of its steps, however they interleave with the steps of others. */
  lemma {:induction false} UnwrittenChangesNoTable(cfg: Config, states: seq<System>, steps: seq<Step>, n: nat,
                                                   id: nat, m: nat)
    requires IsRun(cfg, states, steps) && n < |states| && m < n
    requires id in states[n].calls && !states[n].calls[id].Stopped? && !HasWritten(states[n].calls[id])
    requires steps[m].Run? && steps[m].id == id
    ensures states[m + 1].shared.db == states[m].shared.db
  {
    hide Advance, SharedOk, CallOk, Accounted, EnvOk, HasWritten, Finished, Held, TablesKept;
    var s := states[n - 1];
    assert Next(cfg, s, states[n - 1 + 1], steps[n - 1]);
    RunInv(cfg, states, steps, n - 1);
    if steps[n - 1].Run? && steps[n - 1].id == id {
      StepTables(cfg, s.calls[id], s.shared, steps[n - 1].env);
    }
    if m < n - 1 {
      assert id in s.calls by { CallsStay(cfg, states, steps, m, n - 1, id); }
      UnwrittenChangesNoTable(cfg, states, steps, n - 1, id, m);
    }
  }

  /** Rows are never removed; a CA row never changes; a certificate row changes at most once, to
      its revoked version, and a revoked row never again. */
  lemma {:induction false} RowsStay(cfg: Config, states: seq<System>, steps: seq<Step>, m: nat, n: nat)
    requires IsRun(cfg, states, steps) && m <= n < |states|
    ensures TablesKept(states[m].shared.db, states[n].shared.db)
  {
    hide Advance, SharedOk, CallOk, Accounted, EnvOk, HasWritten, TablesKept, Stop, IsStart;
    if m == n {
      KeptByNothing(states[n].shared.db);
    } else {
      RowsStay(cfg, states, steps, m, n - 1);
      RunInv(cfg, states, steps, n - 1);
      var s, step := states[n - 1], steps[n - 1];
      assert Next(cfg, s, states[n - 1 + 1], step);
      if step.Run? {
        StepTables(cfg, s.calls[step.id], s.shared, step.env);
      } else {
        KeptByNothing(s.shared.db);
      }
      KeptTwice(states[m].shared.db, s.shared.db, states[n].shared.db);
    }
  }

  lemma KeptByNothing(db: DB)
    ensures TablesKept(db, db)
  {
  }

  lemma KeptTwice(a: DB, b: DB, c: DB)
    requires TablesKept(a, b) && TablesKept(b, c)
    ensures TablesKept(a, c)
  {
    forall serial | serial in a.certs ensures RowKept(a.certs[serial], c.certs[serial]) {
      assert RowKept(a.certs[serial], b.certs[serial]) && RowKept(b.certs[serial], c.certs[serial]);
    }
  }

  lemma {:induction false} CallsStay(cfg: Config, states: seq<System>, steps: seq<Step>, m: nat, n: nat, id: nat)
    requires IsRun(cfg, states, steps) && m <= n < |states|
    requires m < |steps| && steps[m].Run? && steps[m].id == id
    ensures id in states[n].calls
  {
    hide Advance, Stop;
    if m == n {
      assert Next(cfg, states[m], states[m + 1], steps[m]);
    } else {
      CallsStay(cfg, states, steps, m, n - 1, id);
      assert Next(cfg, states[n - 1], states[n - 1 + 1], steps[n - 1]);
    }
  }

  // ---------------------------------------------------------------- issued certificates verify

  /** Under a clock that never runs backwards, every issued certificate's true length is within
      the cap, counted from the moment of issue. */
  lemma IssuedWithinCap(cfg: Config, states: seq<System>, steps: seq<Step>, n: nat, serial: string)
    requires IsTimelyRun(cfg, states, steps) && n < |states| && serial in states[n].shared.db.certs
    ensures var c := states[n].shared.db.certs[serial].cert;
            c.notAfter - (c.notBefore + CLOCK_SKEW) <= cfg.maxValidity
  {
    hide Inv, CATimeOk, CallTimely;
    TimelyRunInv(cfg, states, steps, n);
    assert LeafTimeOk(cfg, states[n].shared.db.cas, states[n].shared.db.certs[serial]);
  }

  /** The comparison with the cap alone would let 213504 days pass as 1526 seconds. */
  lemma ComparisonAloneWraps()
    ensures 213504 * DAY > MAX_END_ENTITY_VALIDITY_DAYS * DAY
    ensures DaysDuration(213504) <= MAX_END_ENTITY_VALIDITY_DAYS * DAY
  {
  }

  lemma WindowsNest(leaf: Certificate, inter: Certificate, root: Certificate, now: int)
    requires ValidAt(leaf, now)
    requires inter.notBefore <= leaf.notBefore && leaf.notAfter <= inter.notAfter
    requires root.notBefore <= inter.notBefore && inter.notAfter <= root.notAfter
    ensures ValidAt(inter, now) && ValidAt(root, now)
  {
  }

  lemma CAMayIssue(c: Certificate, isRoot: bool, below: int)
    requires CACertOk(c, isRoot) && below <= (if isRoot then 1 else 0)
    ensures MayIssue(c) && PathLenAllows(c, below)
  {
    hide ParsedCertificate, Rdn.ParsedName;
  }

  lemma DifferentRaw(leaf: Certificate, inter: Certificate)
    requires ParsedCertificate(leaf.raw) == Ok(leaf) && ParsedCertificate(inter.raw) == Ok(inter)
    requires leaf.basicConstraints.isCA != inter.basicConstraints.isCA
    ensures leaf.raw != inter.raw
  {
    hide ParsedCertificate;
  }

  /** A chain of three with both links in order is a valid path. */
  lemma TriadFromLinks(leaf: Certificate, inter: Certificate, root: Certificate, now: int, opts: VerifyOptions)
    requires NameChained(leaf, inter) && LinkOk(leaf, inter, 0, now, opts)
    requires NameChained(inter, root) && LinkOk(inter, root, 1, now, opts)
    requires leaf.raw != inter.raw && inter in opts.intermediates && root in opts.roots
    ensures ValidPath(leaf, [leaf, inter, root], now, opts)
  {
    hide LinkOk, NameChained;
    var p := [leaf, inter, root];
    assert p[..2] == [leaf, inter];
  }

  /** A leaf over an intermediate over a root, as the tables hold them, is a valid path. */
  lemma TriadIsValidPath(cfg: Config, db: DB, clock: int, row: CertRow, now: int, opts: VerifyOptions)
    requires RowsInPlace(db) && TablesTimely(cfg, db, clock)
    requires row.serial in db.certs && db.certs[row.serial] == row
    requires row.caId in db.cas && db.cas[row.caId].parentId in db.cas
    requires var inter := db.cas[row.caId];
             && inter.cert in opts.intermediates && db.cas[inter.parentId].cert in opts.roots
    requires var inter := db.cas[row.caId];
             NotRevoked(row.cert, inter.cert, opts) && NotRevoked(inter.cert, db.cas[inter.parentId].cert, opts)
    requires ValidAt(row.cert, now)
    ensures var inter := db.cas[row.caId];
            ValidPath(row.cert, [row.cert, inter.cert, db.cas[inter.parentId].cert], now, opts)
  {
    hide ParsedCertificate, Rdn.ParsedName, SerialHex, CACertOk, ValidKeyId, ValidAt, MayIssue, PathLenAllows,
         NotRevoked, ValidPath, StatusOk, SignedBy;
    var inter := db.cas[row.caId];
    var root := db.cas[inter.parentId];
    assert LeafOk(db.cas, row) && CAOk(db.cas, inter) && CAOk(db.cas, root);
    assert LeafTimeOk(cfg, db.cas, row) && CATimeOk(db.cas, inter, clock);
    WindowsNest(row.cert, inter.cert, root.cert, now);
    CAMayIssue(inter.cert, false, 0);
    CAMayIssue(root.cert, true, 1);
    CARawReads(inter.cert, false);
    DifferentRaw(row.cert, inter.cert);
    TriadFromLinks(row.cert, inter.cert, root.cert, now, opts);
  }

  lemma CARawReads(c: Certificate, isRoot: bool)
    requires CACertOk(c, isRoot)
    ensures ParsedCertificate(c.raw) == Ok(c) && c.basicConstraints.isCA
  {
    hide ParsedCertificate, Rdn.ParsedName;
  }

  /** Whatever the engine issues, the verifier accepts: at every instant of a leaf's window,
      without a revocation hook, with any further certificates in the two lists, the chains
      that Verify returns include leaf, intermediate, root. */
  lemma IssuedVerifies(cfg: Config, states: seq<System>, steps: seq<Step>, n: nat, serial: string, now: int,
                       opts: VerifyOptions)
    requires IsTimelyRun(cfg, states, steps) && n < |states| && serial in states[n].shared.db.certs
    requires ValidAt(states[n].shared.db.certs[serial].cert, now) && opts.checkRevocation.None?
    ensures var db := states[n].shared.db;
            var row := db.certs[serial];
            && row.caId in db.cas && db.cas[row.caId].parentId in db.cas
            && var inter, root := db.cas[row.caId].cert, db.cas[db.cas[row.caId].parentId].cert;
            (inter in opts.intermediates && root in opts.roots ==>
               && ValidPath(row.cert, [row.cert, inter, root], now, opts)
               && [row.cert, inter, root] in Search([row.cert], now, opts).chains)
  {
    hide SharedOk, CallOk, Accounted, CallTimely, TablesTimely, ValidPath, Search, ValidAt;
    TimelyRunInv(cfg, states, steps, n);
    SharedRows(states[n].shared);
    var db := states[n].shared.db;
    var row := db.certs[serial];
    RowParents(db, serial);
    var inter, root := db.cas[row.caId].cert, db.cas[db.cas[row.caId].parentId].cert;
    if inter in opts.intermediates && root in opts.roots {
      TriadIsValidPath(cfg, db, states[n].shared.clock, row, now, opts);
      SearchExact(row.cert, now, opts, [row.cert, inter, root]);
    }
  }

  /** The same for a CA: at every instant of an intermediate's window, intermediate, root. */
  lemma IntermediatesVerify(cfg: Config, states: seq<System>, steps: seq<Step>, n: nat, id: string, now: int,
                            opts: VerifyOptions)
    requires IsTimelyRun(cfg, states, steps) && n < |states|
    requires id in states[n].shared.db.cas && states[n].shared.db.cas[id].parentId != ""
    requires ValidAt(states[n].shared.db.cas[id].cert, now) && opts.checkRevocation.None?
    ensures var cas := states[n].shared.db.cas;
            && cas[id].parentId in cas
            && var inter, root := cas[id].cert, cas[cas[id].parentId].cert;
            (root in opts.roots ==> [inter, root] in Search([inter], now, opts).chains)
  {
    hide SharedOk, CallOk, Accounted, CallTimely, Search, ValidAt, CACertOk, LeafOk, LeafTimeOk, MayIssue,
         PathLenAllows;
    TimelyRunInv(cfg, states, steps, n);
    SharedRows(states[n].shared);
    var cas := states[n].shared.db.cas;
    assert CAOk(cas, cas[id]) && CATimeOk(cas, cas[id], states[n].shared.clock);
    var inter, root := cas[id].cert, cas[cas[id].parentId].cert;
    assert CAOk(cas, cas[cas[id].parentId]);
    WindowsNest(inter, inter, root, now);
    CAMayIssue(root, true, 0);
    var p := [inter, root];
    assert p[..1] == [inter];
    assert LinkOk(inter, root, 0, now, opts);
    if root in opts.roots {
      assert ValidPath(inter, p, now, opts);
      SearchExact(inter, now, opts, p);
    }
  }

  // ---------------------------------------------------------------- revoked certificates do not verify

  /** A revocation hook of the kind Verify accepts, over one issuer's parsed list. */
  function CrlHook(l: RevocationList, issuer: Certificate): (Certificate, Certificate) -> Option<Error> {
    (child: Certificate, parent: Certificate) =>
      if parent.raw == issuer.raw && Lists(l.entries, child.serialNumber) then Some(Revoked) else None
  }

  lemma RootIsNotIntermediate(root: Certificate, inter: Certificate)
    requires CACertOk(root, true) && CACertOk(inter, false)
    ensures root.raw != inter.raw
  {
    hide ParsedCertificate, Rdn.ParsedName;
  }

  /** From issuing over revoking and listing to verifying: with a hook over the list that a CRL
      call returned, Verify's chains include leaf, intermediate, root exactly when the leaf was
      not revoked in the state that the call read. */
  lemma RevokedExactlyRejected(cfg: Config, states: seq<System>, steps: seq<Step>, n: nat, id: nat, serial: string,
                               now: int, opts: VerifyOptions) returns (m: nat)
    requires IsTimelyRun(cfg, states, steps) && n < |states|
    requires id in states[n].calls && states[n].calls[id].Listing?
    requires states[n].calls[id].crl.CrlDone? && states[n].calls[id].crl.result.Ok?
    requires ParsedRevocationList(states[n].calls[id].crl.result.value).Ok?
    requires serial in states[n].shared.db.certs
    requires states[n].shared.db.certs[serial].caId == states[n].calls[id].crl.snap.ca.id
    requires ValidAt(states[n].shared.db.certs[serial].cert, now)
    requires var done := states[n].calls[id].crl;
             && done.snap.ca.cert in opts.intermediates
             && opts.checkRevocation
                == Some(CrlHook(ParsedRevocationList(done.result.value).value, done.snap.ca.cert))
    ensures var db, done := states[n].shared.db, states[n].calls[id].crl;
            var leaf, inter := db.certs[serial].cert, done.snap.ca;
            && m < n && ReadsAt(states, steps, id, done.snap, m)
            && inter.parentId in db.cas && leaf.serialNumber > 0
            && (db.cas[inter.parentId].cert in opts.roots ==>
                  ([leaf, inter.cert, db.cas[inter.parentId].cert] in Search([leaf], now, opts).chains
                   <==> !RevokedIn(states[m].shared.db, inter.id, leaf.serialNumber)))
  {
    hide SharedOk, Accounted, CallTimely, TablesTimely, ValidPath, Search, ValidAt, ParsedRevocationList, Lists,
         RevokedIn, ReadsAt, CallOk, CAOk, LeafOk;
    TimelyRunInv(cfg, states, steps, n);
    SharedRows(states[n].shared);
    var db, done := states[n].shared.db, states[n].calls[id].crl;
    var row := db.certs[serial];
    var list := ParsedRevocationList(done.result.value).value;
    RowParents(db, serial);
    m := EndToEndRevocation(cfg, states, steps, n, id, row.cert.serialNumber);
    ReadCAStands(done, states[n].shared);
    var inter, root := done.snap.ca.cert, db.cas[done.snap.ca.parentId].cert;
    ParentAndChild(db, row.caId);
    RootIsNotIntermediate(root, inter);
    var p := [row.cert, inter, root];
    if root in opts.roots {
      SearchExact(row.cert, now, opts, p);
      if Lists(list.entries, row.cert.serialNumber) {
        assert !NotRevoked(row.cert, inter, opts);
        if ValidPath(row.cert, p, now, opts) {
          HookWasAsked(row.cert, p, now, opts);
        }
      } else {
        TriadIsValidPath(cfg, db, states[n].shared.clock, row, now, opts);
      }
    }
  }

  lemma ReadCAStands(done: CrlCall, sh: Shared)
    requires CallOk(Listing(done), sh) && done.CrlDone?
    ensures HasCA(sh.db.cas, done.snap.ca)
  {
  }

  lemma ParentAndChild(db: DB, id: string)
    requires RowsInPlace(db) && id in db.cas && db.cas[id].parentId in db.cas && db.cas[id].parentId != ""
    ensures CACertOk(db.cas[id].cert, false) && CACertOk(db.cas[db.cas[id].parentId].cert, true)
  {
    hide CACertOk, LeafOk;
    assert CAOk(db.cas, db.cas[id]) && CAOk(db.cas, db.cas[db.cas[id].parentId]);
  }

  lemma HookWasAsked(c: Certificate, p: Chain, now: int, opts: VerifyOptions)
    requires |p| > 2 && ValidPath(c, p, now, opts)
    ensures NotRevoked(c, p[1], opts)
  {
    var q := p[..|p| - 1];
    assert q[0] == c && q[0 + 1] == p[1];
    assert LinkOk(q[0], q[0 + 1], 0, now, opts);
  }

  lemma RowParents(db: DB, serial: string)
    requires RowsInPlace(db) && serial in db.certs
    ensures var row := db.certs[serial];
            && row.cert.serialNumber > 0 && row.serial == serial == SerialHex(row.cert.serialNumber)
            && row.caId in db.cas
            && db.cas[row.caId].parentId != "" && db.cas[row.caId].parentId in db.cas
  {
    hide ParsedCertificate, IssuedUnder, StatusOk, SerialHex, CACertOk;
    assert LeafOk(db.cas, db.certs[serial]);
    assert CAOk(db.cas, db.cas[db.certs[serial].caId]);
  }
}
