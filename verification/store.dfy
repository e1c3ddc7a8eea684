/** The SQLite tables (store.go, cas.go, certificates.go, migrations/0001_init.sql) as maps
    from primary key to row. */
module Stores {
  import opened Prelude
  import opened X509

  datatype Status = ACTIVE | VALID | REVOKED

  /** A stored certificate text is represented by the certificate it parses to. */
  datatype CARow = CARow(
    id: string,
    name: Bytes,
    parentId: string,
    algorithm: Algorithm,
    cert: Certificate,
    keyId: string,
    status: Status,
    createdAt: int)

  datatype CertRow = CertRow(
    serial: string,
    caId: string,
    subjectDN: Bytes,
    algorithm: Algorithm,
    cert: Certificate,
    keyId: string,
    status: Status,
    notBefore: int,
    notAfter: int,
    revokedAt: Option<int>,
    revocationReason: Option<int>)

  /** `history` lists the revoked rows in the order in which their transactions committed. It is
      a history variable: the source does not store it. */
  datatype DB = DB(cas: map<string, CARow>, certs: map<string, CertRow>, history: seq<CertRow>)

  // ---------------------------------------------------------------- row order

  predicate StringLess(a: string, b: string) {
    b != [] && (a == [] || a[0] < b[0] || (a[0] == b[0] && StringLess(a[1..], b[1..])))
  }

  /** The order of the characters at the first difference; a proper prefix comes first. */
  predicate Lexicographic(a: string, b: string) {
    a < b || exists k :: 0 <= k < |a| && k < |b| && a[..k] == b[..k] && a[k] < b[k]
  }

  lemma LexicographicStep(c: char, s: string, t: string)
    ensures Lexicographic(s, t) ==> Lexicographic([c] + s, [c] + t)
    ensures Lexicographic([c] + s, [c] + t) ==> Lexicographic(s, t)
  {
    var a, b := [c] + s, [c] + t;
    if k :| 0 <= k < |s| && k < |t| && s[..k] == t[..k] && s[k] < t[k] {
      assert a[..k + 1] == [c] + s[..k] && b[..k + 1] == [c] + t[..k] && a[k + 1] < b[k + 1];
    }
    if k :| 0 <= k < |a| && k < |b| && a[..k] == b[..k] && a[k] < b[k] {
      assert k > 0 && s[..k - 1] == a[..k][1..] && t[..k - 1] == b[..k][1..] && s[k - 1] < t[k - 1];
    }
    if a < b {
      assert s == a[1..] == b[..|a|][1..] == t[..|s|];
    }
  }

  lemma {:induction false} StringLessMeaning(a: string, b: string)
    ensures StringLess(a, b) <==> Lexicographic(a, b)
  {
    if a != [] && b != [] && a[0] == b[0] {
      hide Lexicographic;
      StringLessMeaning(a[1..], b[1..]);
      LexicographicStep(a[0], a[1..], b[1..]);
      assert a == [a[0]] + a[1..] && b == [b[0]] + b[1..];
    } else if a != [] && b != [] && a[0] < b[0] {
      assert a[..0] == b[..0];
    }
  }

  lemma {:induction false} StringLessTotal(a: string, b: string)
    ensures a == b || StringLess(a, b) || StringLess(b, a)
  {
    if a != [] && b != [] && a[0] == b[0] {
      StringLessTotal(a[1..], b[1..]);
      assert a == [a[0]] + a[1..] && b == [b[0]] + b[1..];
    }
  }

  lemma {:induction false} StringLessTransitive(a: string, b: string, c: string)
    requires StringLess(a, b) && StringLess(b, c)
    ensures StringLess(a, c)
  {
    if a != [] && a[0] == b[0] == c[0] {
      StringLessTransitive(a[1..], b[1..], c[1..]);
    }
  }

  lemma {:induction false} StringLessIrreflexive(a: string)
    ensures !StringLess(a, a)
  {
    if a != [] {
      StringLessIrreflexive(a[1..]);
    }
  }

  /** NULL sorts first. */
  predicate TimeLess(a: Option<int>, b: Option<int>) {
    b.Some? && (a.None? || a.value < b.value)
  }

  /** ORDER BY revoked_at, serial */
  predicate RowLess(a: CertRow, b: CertRow) {
    TimeLess(a.revokedAt, b.revokedAt) || (a.revokedAt == b.revokedAt && StringLess(a.serial, b.serial))
  }

  lemma RowLessTransitive(a: CertRow, b: CertRow, c: CertRow)
    requires RowLess(a, b) && RowLess(b, c)
    ensures RowLess(a, c)
  {
    if a.revokedAt == b.revokedAt == c.revokedAt {
      StringLessTransitive(a.serial, b.serial, c.serial);
    }
  }

  lemma NoRowCycle(a: CertRow, b: CertRow)
    ensures !RowLess(a, b) || !RowLess(b, a)
  {
    StringLessIrreflexive(a.serial);
    if RowLess(a, b) && RowLess(b, a) {
      RowLessTransitive(a, b, a);
    }
  }

  predicate Sorted(s: seq<CertRow>) {
    forall i, j :: 0 <= i < j < |s| ==> RowLess(s[i], s[j])
  }

  /** The order of a listing: by time, rows without one first, and rows of one time by serial. */
  lemma ListingOrder(s: seq<CertRow>)
    ensures Sorted(s) <==>
              forall i, j :: 0 <= i < j < |s| ==>
                || (s[i].revokedAt.None? && s[j].revokedAt.Some?)
                || (s[i].revokedAt.Some? && s[j].revokedAt.Some? && s[i].revokedAt.value < s[j].revokedAt.value)
                || (s[i].revokedAt == s[j].revokedAt && Lexicographic(s[i].serial, s[j].serial))
  {
    hide StringLess, Lexicographic;
    forall i, j | 0 <= i < j < |s|
      ensures StringLess(s[i].serial, s[j].serial) <==> Lexicographic(s[i].serial, s[j].serial)
    {
      StringLessMeaning(s[i].serial, s[j].serial);
    }
  }

  lemma SortedHead(s: seq<CertRow>, r: CertRow)
    requires Sorted(s) && r in s
    ensures r == s[0] || RowLess(s[0], r)
  {
    var i :| 0 <= i < |s| && s[i] == r;
  }

  /** Two sorted lists of the same rows are the same list. */
  lemma {:induction false} SortedUnique(a: seq<CertRow>, b: seq<CertRow>)
    requires Sorted(a) && Sorted(b)
    requires forall r :: r in a <==> r in b
    ensures a == b
  {
    assert |b| > 0 ==> b[0] in b;
    if a != [] {
      assert a[0] in a;
      SortedHead(a, b[0]);
      SortedHead(b, a[0]);
      NoRowCycle(a[0], b[0]);
      forall r ensures r in a[1..] <==> r in b[1..] {
        StringLessIrreflexive(a[0].serial);
        TailMembership(a, r);
        TailMembership(b, r);
      }
      SortedUnique(a[1..], b[1..]);
    }
  }

  lemma TailMembership(a: seq<CertRow>, r: CertRow)
    requires Sorted(a) && a != []
    ensures r in a[1..] <==> r in a && r != a[0]
  {
    StringLessIrreflexive(a[0].serial);
    if r in a && r != a[0] {
      var i :| 0 <= i < |a| && a[i] == r;
      assert a[1..][i - 1] == r;
    }
    if r in a[1..] {
      var i :| 0 <= i < |a[1..]| && a[1..][i] == r;
      assert RowLess(a[0], a[i + 1]);
    }
  }

  predicate DistinctSerials(rows: set<CertRow>) {
    forall a, b :: a in rows && b in rows && a.serial == b.serial ==> a == b
  }

  function Insert(x: CertRow, s: seq<CertRow>): (r: seq<CertRow>)
    ensures forall y :: y in r <==> y == x || y in s
  {
    if s == [] then [x]
    else if RowLess(x, s[0]) then [x] + s
    else
      assert s == [s[0]] + s[1..];
      [s[0]] + Insert(x, s[1..])
  }

  lemma {:induction false} InsertSorted(x: CertRow, s: seq<CertRow>)
    requires Sorted(s) && forall y :: y in s ==> y.serial != x.serial
    ensures Sorted(Insert(x, s))
  {
    if s != [] {
      var rest := s[1..];
      if RowLess(x, s[0]) {
        forall j | 0 <= j < |s| ensures RowLess(x, s[j]) {
          if j > 0 {
            RowLessTransitive(x, s[0], s[j]);
          }
        }
      } else {
        StringLessTotal(x.serial, s[0].serial);
        InsertSorted(x, rest);
        var r := Insert(x, rest);
        forall j | 0 <= j < |r| ensures RowLess(s[0], r[j]) {
          assert r[j] in r;
          if r[j] != x {
            var k :| 0 <= k < |rest| && rest[k] == r[j];
            assert RowLess(s[0], s[k + 1]);
          }
        }
      }
    }
  }

  // ---------------------------------------------------------------- queries

  function RevokedRows(db: DB, caId: string): set<CertRow> {
    set serial | serial in db.certs && db.certs[serial].caId == caId && db.certs[serial].status == REVOKED
      :: db.certs[serial]
  }

  /** What a SELECT with that ORDER BY returns. */
  ghost predicate IsListing(s: seq<CertRow>, rows: set<CertRow>) {
    Sorted(s) && forall r :: r in s <==> r in rows
  }

  ghost function SortedRows(rows: set<CertRow>): seq<CertRow> {
    if rows == {} then []
    else
      var x :| x in rows;
      Insert(x, SortedRows(rows - {x}))
  }

  lemma {:induction false} SortedRowsIsListing(rows: set<CertRow>)
    requires DistinctSerials(rows)
    ensures IsListing(SortedRows(rows), rows)
  {
    if rows != {} {
      var x :| x in rows && SortedRows(rows) == Insert(x, SortedRows(rows - {x}));
      SortedRowsIsListing(rows - {x});
      InsertSorted(x, SortedRows(rows - {x}));
    }
  }

  lemma ListingUnique(s: seq<CertRow>, rows: set<CertRow>)
    requires IsListing(s, rows) && DistinctSerials(rows)
    ensures s == SortedRows(rows)
  {
    SortedRowsIsListing(rows);
    SortedUnique(s, SortedRows(rows));
  }

  lemma {:induction false} ListingSize(s: seq<CertRow>, rows: set<CertRow>)
    requires IsListing(s, rows)
    ensures |s| == |rows|
  {
    if s == [] {
      assert rows == {};
    } else {
      forall r ensures r in s[1..] <==> r in rows - {s[0]} {
        TailMembership(s, r);
      }
      ListingSize(s[1..], rows - {s[0]});
      assert s[0] in rows;
    }
  }

  /** The primary keys match the rows: what SQLite keeps. */
  predicate Keyed(db: DB) {
    && (forall id :: id in db.cas ==> db.cas[id].id == id)
    && (forall serial :: serial in db.certs ==> db.certs[serial].serial == serial)
  }

  lemma RevokedRowsDistinct(db: DB, caId: string)
    requires Keyed(db)
    ensures DistinctSerials(RevokedRows(db, caId))
  {
  }

  function GetCAResult(db: DB, id: string): Result<CARow> {
    if id in db.cas then Ok(db.cas[id]) else Err(NotFound)
  }

  function GetCertificateResult(db: DB, serial: string): Result<CertRow> {
    if serial in db.certs then Ok(db.certs[serial]) else Err(NotFound)
  }

  // ---------------------------------------------------------------- updates

  /** INSERT INTO cas: a taken id is a conflict, an unknown parent breaks the foreign key. */
  function AfterCreateCA(db: DB, row: CARow): (DB, Option<Error>) {
    if row.id in db.cas then (db, Some(Conflict))
    else if row.parentId != "" && row.parentId !in db.cas && row.parentId != row.id then (db, Some(Other))
    else (db.(cas := db.cas[row.id := row]), None)
  }

  function AfterInsertCertificate(db: DB, row: CertRow): (DB, Option<Error>) {
    if row.serial in db.certs then (db, Some(Conflict))
    else if row.caId !in db.cas then (db, Some(Other))
    else (db.(certs := db.certs[row.serial := row.(revokedAt := None, revocationReason := None)]), None)
  }

  function RevokedVersion(row: CertRow, at: int, reason: int): CertRow {
    row.(status := REVOKED, revokedAt := Some(at), revocationReason := Some(reason))
  }

  function AfterRevoke(db: DB, serial: string, at: int, reason: int): (DB, Option<Error>) {
    if serial !in db.certs then (db, Some(NotFound))
    else if db.certs[serial].status == REVOKED then (db, Some(Conflict))
    else
      var row := RevokedVersion(db.certs[serial], at, reason);
      (db.(certs := db.certs[serial := row], history := db.history + [row]), None)
  }

  /** A second revocation of the same row is a conflict and changes nothing, whatever its time
      and reason. */
  lemma RevokedOnce(db: DB, serial: string, at: int, reason: int, at': int, reason': int)
    requires AfterRevoke(db, serial, at, reason).1.None?
    ensures var after := AfterRevoke(db, serial, at, reason).0;
            AfterRevoke(after, serial, at', reason') == (after, Some(Conflict))
  {
  }

  class Store {
    var cas: map<string, CARow>
    var certs: map<string, CertRow>
    ghost var history: seq<CertRow>

    ghost function View(): DB
      reads this
    {
      DB(cas, certs, history)
    }

    constructor ()
      ensures View() == DB(map[], map[], [])
    {
      cas, certs, history := map[], map[], [];
    }

    method CreateCA(row: CARow) returns (err: Option<Error>)
      modifies this
      ensures (View(), err) == AfterCreateCA(old(View()), row)
      ensures forall id :: id in old(cas) ==> id in cas && cas[id] == old(cas)[id]
      ensures err.None? ==> cas.Keys == old(cas).Keys + {row.id} && cas[row.id] == row && row.id !in old(cas)
      ensures row.id in old(cas) ==> err == Some(Conflict)
      ensures row.id !in old(cas) && row.parentId != "" && row.parentId != row.id && row.parentId !in old(cas) ==>
                err == Some(Other)
      ensures err.Some? ==> View() == old(View())
    {
      if row.id in cas {
        return Some(Conflict);
      }
      if row.parentId != "" && row.parentId !in cas && row.parentId != row.id {
        return Some(Other);
      }
      cas := cas[row.id := row];
      return None;
    }

    method GetCA(id: string) returns (r: Result<CARow>)
      ensures r == GetCAResult(View(), id)
      ensures if id in cas then r == Ok(cas[id]) else r == Err(NotFound)
    {
      if id in cas {
        return Ok(cas[id]);
      }
      return Err(NotFound);
    }

    method InsertCertificate(row: CertRow) returns (err: Option<Error>)
      modifies this
      ensures (View(), err) == AfterInsertCertificate(old(View()), row)
      ensures forall serial :: serial in old(certs) ==> serial in certs && certs[serial] == old(certs)[serial]
      ensures err.None? ==> certs.Keys == old(certs).Keys + {row.serial} && row.serial !in old(certs)
      ensures err.None? ==> certs[row.serial] == row.(revokedAt := None, revocationReason := None)
      ensures err == if row.serial in old(certs) then Some(Conflict)
                     else if row.caId !in cas then Some(Other) else None
      ensures err.Some? ==> View() == old(View())
    {
      if row.serial in certs {
        return Some(Conflict);
      }
      if row.caId !in cas {
        return Some(Other);
      }
      certs := certs[row.serial := row.(revokedAt := None, revocationReason := None)];
      return None;
    }

    method GetCertificate(serial: string) returns (r: Result<CertRow>)
      ensures r == GetCertificateResult(View(), serial)
      ensures if serial in certs then r == Ok(certs[serial]) else r == Err(NotFound)
    {
      if serial in certs {
        return Ok(certs[serial]);
      }
      return Err(NotFound);
    }

    /** The loop stands for the query engine: it visits the rows in any order. */
    method ListRevoked(caId: string) returns (out: seq<CertRow>)
      requires Keyed(View())
      ensures IsListing(out, RevokedRows(View(), caId))
      ensures out == SortedRows(RevokedRows(View(), caId))
    {
      out := [];
      var todo := certs.Keys;
      while todo != {}
        invariant todo <= certs.Keys
        invariant Sorted(out)
        invariant forall r :: r in out <==>
                    && r.serial in certs && r.serial !in todo && certs[r.serial] == r
                    && r.caId == caId && r.status == REVOKED
        decreases todo
      {
        var serial :| serial in todo;
        var row := certs[serial];
        if row.caId == caId && row.status == REVOKED {
          InsertSorted(row, out);
          out := Insert(row, out);
        }
        todo := todo - {serial};
      }
      RevokedRowsDistinct(View(), caId);
      ListingUnique(out, RevokedRows(View(), caId));
    }

    method RevokeCertificate(serial: string, at: int, reason: int) returns (err: Option<Error>)
      modifies this
      ensures (View(), err) == AfterRevoke(old(View()), serial, at, reason)
      ensures cas == old(cas) && certs.Keys == old(certs).Keys
      ensures forall s :: s in certs && s != serial ==> certs[s] == old(certs)[s]
      ensures err == if serial !in old(certs) then Some(NotFound)
                     else if old(certs)[serial].status == REVOKED then Some(Conflict) else None
      ensures err.None? ==>
                certs[serial]
                == old(certs)[serial].(status := REVOKED, revokedAt := Some(at), revocationReason := Some(reason))
      ensures err.Some? ==> View() == old(View())
    {
      if serial !in certs {
        return Some(NotFound);
      }
      if certs[serial].status == REVOKED {
        return Some(Conflict);
      }
      var row := RevokedVersion(certs[serial], at, reason);
      certs := certs[serial := row];
      history := history + [row];
      return None;
    }
  }
}
