/** Snapshots of the revoked rows and the cache entries built from them. */
module Snapshots {
  import opened Prelude
  import opened X509
  import opened Certificates
  import opened Stores
  import opened Keystores
  import opened EngineStates
  import opened RevocationLists
  import opened CrlCalls
  import opened Hierarchy
  import opened Times
  import Rdn

  // ---------------------------------------------------------------- the revoked set only grows

  /** The rows of one CA among the first n revocations. */
  function RevokedUpTo(history: seq<CertRow>, n: nat, caId: string): set<CertRow>
    requires n <= |history|
  {
    set i | 0 <= i < n && history[i].caId == caId :: history[i]
  }

  /** The history holds exactly the revoked rows, each as it stands in the table, each once. */
  predicate HistoryOk(db: DB) {
    && (forall i :: 0 <= i < |db.history| ==>
          && db.history[i].serial in db.certs
          && db.certs[db.history[i].serial] == db.history[i]
          && db.history[i].status == REVOKED)
    && (forall serial :: serial in db.certs && db.certs[serial].status == REVOKED ==> db.certs[serial] in db.history)
    && (forall i, j :: 0 <= i < j < |db.history| ==> db.history[i].serial != db.history[j].serial)
  }

  lemma RevokedNow(db: DB, caId: string)
    requires HistoryOk(db)
    ensures RevokedUpTo(db.history, |db.history|, caId) == RevokedRows(db, caId)
  {
    var a, b := RevokedUpTo(db.history, |db.history|, caId), RevokedRows(db, caId);
    forall r | r in b ensures r in a {
      var i :| 0 <= i < |db.history| && db.history[i] == r;
    }
  }

  lemma RevokedUpToGrows(history: seq<CertRow>, m: nat, n: nat, caId: string)
    requires m <= n <= |history|
    ensures RevokedUpTo(history, m, caId) <= RevokedUpTo(history, n, caId)
  {
  }

  lemma RevokedUpToPrefix(h: seq<CertRow>, h': seq<CertRow>, n: nat, caId: string)
    requires h <= h' && n <= |h|
    ensures RevokedUpTo(h, n, caId) == RevokedUpTo(h', n, caId)
  {
    assert forall i :: 0 <= i < n ==> h[i] == h'[i];
  }

  // ---------------------------------------------------------------- snapshots

  /** The rows that ListRevoked returned when `readAt` revocations had committed. */
  ghost predicate SnapOk(db: DB, snap: Snapshot) {
    && HasCA(db.cas, snap.ca)
    && snap.readAt <= |db.history|
    && IsListing(snap.rows, RevokedUpTo(db.history, snap.readAt, snap.ca.id))
  }

  /** What a later state keeps of the tables. */
  predicate DbGrows(db: DB, db': DB) {
    && (forall id :: id in db.cas ==> id in db'.cas && db'.cas[id] == db.cas[id])
    && db.history <= db'.history
  }

  lemma SnapStable(db: DB, db': DB, snap: Snapshot)
    requires SnapOk(db, snap) && DbGrows(db, db')
    ensures SnapOk(db', snap)
  {
    RevokedUpToPrefix(db.history, db'.history, snap.readAt, snap.ca.id);
  }

  lemma SnapSize(db: DB, snap: Snapshot)
    requires SnapOk(db, snap)
    ensures |snap.rows| == |RevokedUpTo(db.history, snap.readAt, snap.ca.id)|
  {
    ListingSize(snap.rows, RevokedUpTo(db.history, snap.readAt, snap.ca.id));
  }

  lemma SubsetSize<T>(a: set<T>, b: set<T>)
    requires a <= b
    ensures |a| <= |b|
    ensures |a| == |b| ==> a == b
  {
    assert b == a + (b - a);
    assert |b| == |a| + |b - a|;
    if |a| == |b| {
      assert b - a == {};
    }
  }

  /** An earlier snapshot is no larger, and one of the same size is the same list. */
  lemma SnapshotsOrdered(db: DB, a: Snapshot, b: Snapshot)
    requires SnapOk(db, a) && SnapOk(db, b) && a.ca.id == b.ca.id && a.readAt <= b.readAt
    ensures |a.rows| <= |b.rows|
    ensures |a.rows| == |b.rows| ==> a.rows == b.rows
  {
    var x, y := RevokedUpTo(db.history, a.readAt, a.ca.id), RevokedUpTo(db.history, b.readAt, a.ca.id);
    SnapSize(db, a);
    SnapSize(db, b);
    RevokedUpToGrows(db.history, a.readAt, b.readAt, a.ca.id);
    SubsetSize(x, y);
    if |a.rows| == |b.rows| {
      SortedUnique(a.rows, b.rows);
    }
  }

  /** The count alone identifies the snapshot: why the cache may compare nothing else. */
  lemma EqualCountsEqualRows(db: DB, a: Snapshot, b: Snapshot)
    requires SnapOk(db, a) && SnapOk(db, b) && a.ca.id == b.ca.id && |a.rows| == |b.rows|
    ensures a.rows == b.rows
  {
    if a.readAt <= b.readAt {
      SnapshotsOrdered(db, a, b);
    } else {
      SnapshotsOrdered(db, b, a);
    }
  }

  /** A revocation for the CA between the two reads makes the later snapshot larger. */
  lemma SnapshotsGrow(db: DB, a: Snapshot, b: Snapshot, k: nat)
    requires HistoryOk(db) && SnapOk(db, a) && SnapOk(db, b) && a.ca.id == b.ca.id
    requires a.readAt <= k < b.readAt && db.history[k].caId == a.ca.id
    ensures |a.rows| < |b.rows|
  {
    var x, y := RevokedUpTo(db.history, a.readAt, a.ca.id), RevokedUpTo(db.history, b.readAt, a.ca.id);
    SnapSize(db, a);
    SnapSize(db, b);
    RevokedUpToGrows(db.history, a.readAt, b.readAt, a.ca.id);
    assert db.history[k] in y;
    assert db.history[k] !in x;
    SubsetSize(x, y);
  }

  // ---------------------------------------------------------------- entries

  /** Rows as the engine writes them: revoked with a time and a reason, under a hexadecimal serial. */
  predicate RowsOk(rows: seq<CertRow>) {
    forall i :: 0 <= i < |rows| ==> StatusOk(rows[i]) && rows[i].status == REVOKED
                                    && rows[i].cert.serialNumber > 0
                                    && rows[i].serial == SerialHex(rows[i].cert.serialNumber)
  }

  function EntryFor(row: CertRow): RevocationEntry
    requires row.revokedAt.Some? && row.revocationReason.Some?
  {
    RevocationEntry(row.cert.serialNumber, row.revokedAt.value, row.revocationReason.value)
  }

  function EntriesFor(rows: seq<CertRow>): (r: seq<RevocationEntry>)
    requires RowsOk(rows)
    ensures |r| == |rows|
    ensures forall i :: 0 <= i < |rows| ==> r[i] == EntryFor(rows[i])
  {
    seq(|rows|, i requires 0 <= i < |rows| => EntryFor(rows[i]))
  }

  /** On such rows the fallbacks for missing columns are never used. */
  lemma {:induction false} EntriesOfRows(rows: seq<CertRow>, now: int)
    requires RowsOk(rows)
    ensures EntriesOf(rows, now) == Some(EntriesFor(rows))
  {
    hide SerialHex, ParsedSerial;
    if rows != [] {
      var front, last := rows[..|rows| - 1], rows[|rows| - 1];
      EntriesOfRows(front, now);
      SerialRoundTrip(last.cert.serialNumber);
      assert EntriesFor(rows) == EntriesFor(front) + [EntryFor(last)];
    }
  }

  lemma RowsAreRounded(rows: seq<CertRow>)
    requires RowsOk(rows)
    ensures RoundedAll(EntriesFor(rows)) == EntriesFor(rows)
  {
    forall i | 0 <= i < |rows| ensures Rounded(EntryFor(rows[i])) == EntryFor(rows[i]) {
      assert StatusOk(rows[i]);
    }
  }

  // ---------------------------------------------------------------- lists and cache entries

  /** The list's meaning: it parses, verifies under the CA, and has one entry for each row of
      the snapshot, in order, with the serial, time and reason of the row. */
  predicate Describes(der: CrlDer, ca: CARow, rows: seq<CertRow>) {
    && RowsOk(rows)
    && var l := ParsedRevocationList(der);
    && l.Ok?
    && l.value.entries == EntriesFor(rows)
    && l.value.number == Some(|rows| + 1)
    && VerifiedFrom(l.value, ca.cert)
  }

  /** The list's window has not passed. */
  predicate Current(der: CrlDer, now: int) {
    var l := ParsedRevocationList(der);
    l.Ok? && l.value.nextUpdate.Some? && now <= l.value.nextUpdate.value
  }

  predicate EntryOk(entry: CacheEntry, ca: CARow, rows: seq<CertRow>) {
    && entry.entryCount == |rows|
    && entry.number == |rows| + 1
    && Describes(entry.der, ca, rows)
    && ParsedRevocationList(entry.der).value.nextUpdate == Some(Truncate(entry.nextUpdate))
  }

  /** Some snapshot, of this or an earlier state, explains the cached list. */
  ghost predicate CacheOk(db: DB, caId: string, entry: CacheEntry) {
    exists snap :: SnapOk(db, snap) && snap.ca.id == caId && EntryOk(entry, snap.ca, snap.rows)
  }

  lemma CacheStable(db: DB, db': DB, caId: string, entry: CacheEntry)
    requires CacheOk(db, caId, entry) && DbGrows(db, db')
    ensures CacheOk(db', caId, entry)
  {
    var snap :| SnapOk(db, snap) && snap.ca.id == caId && EntryOk(entry, snap.ca, snap.rows);
    SnapStable(db, db', snap);
  }

  /** A cached list with the right count lists exactly the caller's own snapshot. */
  lemma HitDescribes(db: DB, entry: CacheEntry, snap: Snapshot)
    requires SnapOk(db, snap) && CacheOk(db, snap.ca.id, entry) && entry.entryCount == |snap.rows|
    ensures EntryOk(entry, snap.ca, snap.rows)
  {
    var old_ :| SnapOk(db, old_) && old_.ca.id == snap.ca.id && EntryOk(entry, old_.ca, old_.rows);
    EqualCountsEqualRows(db, old_, snap);
  }

  /** What a rebuild makes. */
  lemma BuildDescribes(cfg: Config, snap: Snapshot, passphrase: Bytes, now: int, keys: Keys)
    requires Build(cfg, snap, passphrase, now, keys).Ok?
    requires RowsOk(snap.rows) && CACertOk(snap.ca.cert, snap.ca.parentId == "")
    requires snap.ca.keyId in keys && PublicOf(keys[snap.ca.keyId].priv) == snap.ca.cert.publicKey
    ensures var entry := Build(cfg, snap, passphrase, now, keys).value;
            && EntryOk(entry, snap.ca, snap.rows)
            && entry.nextUpdate == now + cfg.crlValidity > now
            && ParsedRevocationList(entry.der).value.thisUpdate == Truncate(now)
  {
    hide RevocationListDer, ParsedRevocationList, Rdn.ParsedName, ParsedCertificate, Truncate, EntriesOf;
    EntriesOfRows(snap.rows, now);
    RowsAreRounded(snap.rows);
    var signer, number, nextUpdate := keys[snap.ca.keyId].priv, |snap.rows| + 1, now + cfg.crlValidity;
    RevocationListRoundTrip(snap.ca.cert, signer, number, EntriesFor(snap.rows), now, nextUpdate);
    CreatedWindow(snap.ca.cert, signer, number, EntriesFor(snap.rows), now, nextUpdate);
  }

  lemma CreatedWindow(issuer: Certificate, signer: PrivateKey, number: int, entries: seq<RevocationEntry>,
                      thisUpdate: int, nextUpdate: int)
    requires RevocationListDer(issuer, signer, number, entries, thisUpdate, nextUpdate).Ok?
    ensures thisUpdate < nextUpdate
  {
  }

  /** With rows from the table, a snapshot's rows are as RowsOk says. */
  lemma SnapshotRowsOk(db: DB, snap: Snapshot)
    requires HistoryOk(db) && SnapOk(db, snap)
    requires forall serial :: serial in db.certs ==> LeafOk(db.cas, db.certs[serial])
    ensures RowsOk(snap.rows)
  {
    hide SerialHex, ParsedCertificate;
    forall i | 0 <= i < |snap.rows|
      ensures StatusOk(snap.rows[i]) && snap.rows[i].status == REVOKED
      ensures snap.rows[i].cert.serialNumber > 0
      ensures snap.rows[i].serial == SerialHex(snap.rows[i].cert.serialNumber)
    {
      assert snap.rows[i] in snap.rows;
      var k :| 0 <= k < snap.readAt && db.history[k] == snap.rows[i];
      assert LeafOk(db.cas, db.certs[db.history[k].serial]);
    }
  }
}
