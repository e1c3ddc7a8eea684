/** The engine as the source has it: an object over a store and a key directory, with the CRL
    cache as a field. Each method runs its steps with nothing in between. */
module Engines {
  import opened Prelude
  import opened Names
  import opened X509
  import opened Certificates
  import opened Profiles
  import opened Stores
  import opened Keystores
  import opened EngineStates
  import opened Snapshots
  import opened Invariants
  import opened AloneRuns
  import opened Caching
  import opened CrlCalls
  import opened RevocationLists
  import opened Times
  import C = CreateCalls
  import I = IssueCalls
  import R = RevokeCalls
  import NameText
  import Preservation

  class Engine {
    const st: Store
    const ks: FileBackend
    const maxValidity: int
    const crlValidity: int
    var crlCache: map<string, CacheEntry>
    ghost var clock: int

    ghost function Cfg(): Config {
      Config(maxValidity, crlValidity)
    }

    ghost function View(): Shared
      reads this, st, ks
    {
      Shared(st.View(), ks.files, crlCache, clock)
    }

    ghost predicate Valid()
      reads this, st, ks
    {
      SharedOk(View())
    }

    /** A zero option stands for its default: 397 days and 168 hours. */
    constructor (maxValidity: int, crlValidity: int)
      ensures Valid() && fresh(st) && fresh(ks)
      ensures View().db == DB(map[], map[], []) && View().keys == map[] && View().cache == map[]
      ensures this.maxValidity == if maxValidity == 0 then 397 * 86_400 * 1_000_000_000 else maxValidity
      ensures this.crlValidity == if crlValidity == 0 then 168 * 3600 * 1_000_000_000 else crlValidity
    {
      st := new Store();
      ks := new FileBackend();
      this.maxValidity := if maxValidity == 0 then MAX_END_ENTITY_VALIDITY_DAYS * DAY else maxValidity;
      this.crlValidity := if crlValidity == 0 then 168 * HOUR else crlValidity;
      crlCache := map[];
      clock := 0;
    }

    /** The injected clock. */
    method Now(env: Env) returns (t: int)
      modifies this`clock
      ensures t == Truncate(env.now) && clock == env.now
    {
      clock := env.now;
      return Truncate(env.now);
    }

    // -------------------------------------------------------------- CreateCA

    /** The tail of CreateCA once the signer is there. */
    method SignAndInsert(plan: C.CAPlan, keyId: string, priv: PrivateKey, signer: PrivateKey, serial: int, env: Env)
      returns (r: Result<CARow>)
      modifies st, ks
      ensures var (call, sh) := C.RunCreate(C.SignCA(plan, keyId, priv, signer, serial, env), old(View()), env);
              r == call.result && View() == sh
    {
      hide CreateCertificate, ParsedCertificate, C.RunCreate, C.CATemplate;
      ghost var call := C.SignCA(plan, keyId, priv, signer, serial, env);
      SignCAUsesKey(plan, keyId, priv, signer, serial, env);
      RunCreateStep(call, View(), env);
      var signatureAlgorithm :=
        if plan.parent.None? then plan.algorithm else plan.parent.value.cert.publicKey.algorithm;
      var der := CreateCertificate(C.CATemplate(plan, signatureAlgorithm, serial), C.ParentCert(plan), PublicOf(priv),
                                   signer);
      if der.Err? {
        r := Undo(keyId, der.error, env);
        return;
      }
      var cert := ParseCertificate(der.value);
      if cert.Err? {
        r := Undo(keyId, cert.error, env);
        return;
      }
      if env.newId.None? {
        r := Undo(keyId, Other, env);
        return;
      }
      var row := CARow(env.newId.value, plan.req.name, plan.req.parentId, plan.algorithm, cert.value, keyId, ACTIVE,
                       plan.now);
      assert call == C.CreateInsert(row);
      var err := st.CreateCA(row);
      if err.Some? {
        r := Undo(keyId, err.value, env);
        return;
      }
      RunDone(C.CreateDone(Ok(row), None), View(), env);
      return Ok(row);
    }

    /** `_ = e.ks.Delete(keyID)`, then the error. */
    method Undo(keyId: string, error: Error, env: Env) returns (r: Result<CARow>)
      modifies ks
      ensures var (call, sh) := C.RunCreate(C.CreateUndo(keyId, error), old(View()), env);
              r == call.result && View() == sh && r == Err(error)
    {
      hide C.RunCreate;
      RunCreateStep(C.CreateUndo(keyId, error), View(), env);
      var ignored := ks.Delete(keyId);
      RunDone(C.Failed(error), View(), env);
      return Err(error);
    }

    /** The guards of CreateCA up to the clock: the algorithm, the days and the parent's row. */
    method CheckCreate(req: C.CreateRequest) returns (r: Result<(Algorithm, int, Option<CARow>)>)
      ensures C.CheckRequest(req, st.View())
              == if r.Err? then C.Failed(r.error) else C.CreateChecked(req, r.value.0, r.value.1, r.value.2)
    {
      hide NameText.TrimSpace;
      if NameText.TrimSpace(req.name) == [] || req.subject.commonName == [] || req.passphrase == [] {
        return Err(ConstraintViolation);
      }
      var profile := ROOT_PROFILE;
      var parent: Option<CARow> := None;
      if req.parentId != "" {
        profile := INTERMEDIATE_PROFILE;
        var found := st.GetCA(req.parentId);
        if found.Err? {
          return Err(found.error);
        }
        if found.value.parentId != "" {
          return Err(ConstraintViolation);
        }
        if found.value.status != ACTIVE {
          return Err(ConstraintViolation);
        }
        parent := Some(found.value);
      }
      if !Allows(profile.allowedAlgorithms, req.algorithm) {
        return Err(ConstraintViolation);
      }
      var days := ResolveDays(profile, req.validityDays);
      if days.Err? {
        return Err(days.error);
      }
      return Ok((req.algorithm.algorithm, days.value, parent));
    }

    method CreateCA(req: C.CreateRequest, env: Env) returns (r: Result<CARow>)
      requires Valid() && EnvOk(env)
      modifies this, st, ks
      ensures Valid()
      ensures var (call, sh) := C.RunCreate(C.CreateStart(req), old(View()), env); r == call.result && View() == sh
      ensures r.Err? ==> st.View() == old(st.View())
      ensures r.Err? ==>
                (ks.files != old(ks.files) <==>
                   ReachesKey(req, old(View()), env) && (env.serial.None? || (req.parentId == "" && !env.expands)))
      ensures r.Ok? ==>
                && r.value.id !in old(st.cas)
                && st.View() == old(st.View()).(cas := old(st.cas)[r.value.id := r.value])
                && r.value.keyId !in old(ks.files) && req.algorithm.Chosen?
                && ks.files == old(ks.files)[r.value.keyId :=
                                               SealedKey(PrivateKey(req.algorithm.algorithm, env.seed), req.passphrase)]
    {
      hide C.RunCreate, C.AfterGenerate, C.LoadStep, C.SignCA, C.CheckRequest, SharedOk, ReachesKey, AfterStore,
           LoadResult;
      ghost var start := View();
      CreateAlone(req, start, env);
      RunCreateKeeps(C.CreateStart(req), start, env);
      RunCreateStep(C.CreateStart(req), start, env);
      ghost var checked := C.CheckRequest(req, start.db);
      RunDoneIfDone(checked, start, env);
      var planFor := CheckCreate(req);
      if planFor.Err? {
        return Err(planFor.error);
      }
      var (algorithm, days, parent) := planFor.value;

      RunCreateStep(checked, start, env);
      var now := Now(env);
      ghost var timed := View();
      ghost var planned := C.PlanValidity(req, algorithm, days, parent, env.now);
      RunDoneIfDone(planned, timed, env);
      var notAfter := AddDays(now, days);
      if parent.Some? && notAfter > parent.value.cert.notAfter {
        return Err(ConstraintViolation);
      }
      var plan := C.CAPlan(req, algorithm, days, parent, now, now - CLOCK_SKEW, notAfter);

      RunCreateStep(planned, timed, env);
      var key := ks.Generate(algorithm, req.passphrase, env.seed, env.keyId);
      if key.Err? {
        RunDoneIfDone(C.Failed(key.error), View(), env);
        return Err(key.error);
      }
      var (keyId, priv) := key.value;
      r := FinishCA(plan, keyId, priv, env);
    }

    /** From the written key file on: serial number, signer, certificate, row. */
    method FinishCA(plan: C.CAPlan, keyId: string, priv: PrivateKey, env: Env) returns (r: Result<CARow>)
      requires plan.algorithm == priv.algorithm
      modifies st, ks
      ensures var (call, sh) := C.RunCreate(C.AfterGenerate(plan, keyId, priv, env), old(View()), env);
              r == call.result && View() == sh
    {
      hide C.RunCreate, C.SignCA, LoadResult;
      ghost var call := C.AfterGenerate(plan, keyId, priv, env);
      if env.serial.None? {
        RunDone(call, View(), env);
        return Err(Other);
      }
      if plan.parent.None? {
        if !env.expands {
          RunDone(call, View(), env);
          return Err(Other);
        }
        r := SignAndInsert(plan, keyId, priv, priv, env.serial.value, env);
      } else {
        RunCreateStep(call, View(), env);
        var signer := ks.Load(plan.parent.value.keyId, plan.req.parentPassphrase);
        if signer.Err? {
          r := Undo(keyId, signer.error, env);
        } else {
          r := SignAndInsert(plan, keyId, priv, signer.value, env.serial.value, env);
        }
      }
    }

    // -------------------------------------------------------------- IssueCertificate

    /** The guards of IssueCertificate up to the clock. */
    method CheckOrder(req: I.IssueRequest) returns (r: Result<I.Order>)
      ensures I.CheckRequest(req, st.View(), Cfg())
              == if r.Err? then I.Failed(r.error) else I.IssueChecked(r.value)
      ensures r.Ok? ==> r.value.req == req
    {
      hide SignatureValid, DaysDuration, SANs.Empty;
      var ca := st.GetCA(req.caId);
      if ca.Err? {
        return Err(ca.error);
      }
      if ca.value.status != ACTIVE {
        return Err(ConstraintViolation);
      }
      if ca.value.parentId == "" {
        return Err(ConstraintViolation);
      }
      if req.csr.Some? {
        if !SignatureValid(req.csr.value.publicKey, req.csr.value.rawTbs, req.csr.value.signature) {
          return Err(CSRSignature);
        }
        if req.storeKey {
          return Err(ConstraintViolation);
        }
      }
      var subject, sans := I.RequestedSubject(req), I.RequestedSANs(req);
      var algorithm := I.RequestedAlgorithm(req);
      if !Allows(END_ENTITY_ALGORITHMS, algorithm) {
        return Err(ConstraintViolation);
      }
      var purposes := I.RequestedPurposes(req);
      for i := 0 to |purposes|
        invariant forall k :: 0 <= k < i ==> IsKnownPurpose(purposes[k])
      {
        if !IsKnownPurpose(purposes[i]) {
          assert !KnownPurposes(purposes);
          return Err(ConstraintViolation);
        }
      }
      assert KnownPurposes(purposes);
      if subject.commonName == [] && sans.Empty() {
        return Err(ConstraintViolation);
      }
      var days := I.RequestedDays(req);
      if days < 0 {
        return Err(ConstraintViolation);
      }
      if DaysDuration(days) > maxValidity {
        return Err(ConstraintViolation);
      }
      return Ok(I.Order(req, ca.value, subject, sans, algorithm.algorithm, purposes, days));
    }

    method IssueCertificate(req: I.IssueRequest, env: Env) returns (r: Result<CertRow>)
      requires Valid() && EnvOk(env)
      modifies this, st, ks
      ensures Valid()
      ensures var (call, sh) := I.RunIssue(Cfg(), I.IssueStart(req), old(View()), env); r == call.result && View() == sh
      ensures r.Err? ==> st.View() == old(st.View()) && ks.files == old(ks.files)
      ensures r.Ok? ==>
                && RowWritten(r.value, old(st.View()), st.View())
                && KeyWritten(r.value, req, env, old(ks.files), ks.files)
    {
      hide I.RunIssue, I.SignLeaf, I.StoreStep, I.InsertStep, I.CheckRequest, SharedOk, LoadResult, Truncate, AddDays,
           RowWritten, KeyWritten, BareRow;
      ghost var start := View();
      IssueAlone(Cfg(), req, start, env);
      IssuedAlone(Cfg(), req, start, env);
      RunIssueKeeps(Cfg(), I.IssueStart(req), start, env);
      RunIssueStep(Cfg(), I.IssueStart(req), start, env);
      var checked := CheckOrder(req);
      if checked.Err? {
        RunIssueIfDone(Cfg(), I.Failed(checked.error), start, env);
        return Err(checked.error);
      }
      var order := checked.value;

      RunIssueStep(Cfg(), I.IssueChecked(order), start, env);
      var now := Now(env);
      ghost var timed := View();
      ghost var planned := I.PlanValidity(order, env.now);
      RunIssueIfDone(Cfg(), planned, timed, env);
      var notAfter := AddDays(now, order.days);
      if notAfter > order.ca.cert.notAfter {
        return Err(ConstraintViolation);
      }
      var notBefore := now - CLOCK_SKEW;

      RunIssueStep(Cfg(), planned, timed, env);
      ghost var loaded := I.LoadStep(order, notBefore, notAfter, timed.keys, env);
      RunIssueIfDone(Cfg(), loaded, timed, env);
      var signer := ks.Load(order.ca.keyId, req.caPassphrase);
      if signer.Err? {
        return Err(signer.error);
      }
      r := SignAndStore(order, notBefore, notAfter, signer.value, env);
    }

    /** The certificate and, when asked for, the key file; then the row. */
    method SignAndStore(order: I.Order, notBefore: int, notAfter: int, signer: PrivateKey, env: Env)
      returns (r: Result<CertRow>)
      modifies st, ks
      ensures var first := I.SignLeaf(order, notBefore, notAfter, signer, env);
              var (call, sh) := I.RunIssue(Cfg(), first, old(View()), env);
              r == call.result && View() == sh
    {
      hide CreateCertificate, ParsedCertificate, I.RunIssue, I.LeafTemplate, I.LeafRow, I.InsertStep, AfterStore;
      ghost var call := I.SignLeaf(order, notBefore, notAfter, signer, env);
      ghost var start := View();
      RunIssueIfDone(Cfg(), call, start, env);
      if env.serial.None? || env.serial.value <= 0 {
        return Err(Other);
      }
      var serial := env.serial.value;
      var pub := I.LeafKey(order, env.seed);
      var der := CreateCertificate(I.LeafTemplate(order, notBefore, notAfter, serial), Some(order.ca.cert), pub,
                                   signer);
      if der.Err? {
        return Err(der.error);
      }
      var cert := ParseCertificate(der.value);
      if cert.Err? {
        return Err(cert.error);
      }
      if !order.req.storeKey {
        r := InsertLeaf(I.LeafRow(order, notBefore, notAfter, serial, cert.value, ""), order.ca, env);
        return;
      }
      if env.newId.None? {
        return Err(Other);
      }
      var row := I.LeafRow(order, notBefore, notAfter, serial, cert.value, env.newId.value);
      LeafRowKey(order, notBefore, notAfter, serial, cert.value, env.newId.value);
      RunIssueStep(Cfg(), call, start, env);
      var err := ks.Store(env.newId.value, PrivateKey(order.algorithm, env.seed), order.req.caPassphrase);
      if err.Some? {
        RunIssueIfDone(Cfg(), I.Failed(err.value), View(), env);
        return Err(err.value);
      }
      r := InsertLeaf(row, order.ca, env);
    }

    method InsertLeaf(row: CertRow, ca: CARow, env: Env) returns (r: Result<CertRow>)
      modifies st, ks
      ensures var (call, sh) := I.RunIssue(Cfg(), I.IssueInsert(row, ca), old(View()), env);
              r == call.result && View() == sh
    {
      hide I.RunIssue;
      RunIssueStep(Cfg(), I.IssueInsert(row, ca), View(), env);
      var err := st.InsertCertificate(row);
      if err.Some? {
        if row.keyId != "" {
          RunIssueStep(Cfg(), I.IssueUndo(row.keyId, err.value), View(), env);
          var ignored := ks.Delete(row.keyId);
        }
        RunIssueIfDone(Cfg(), I.Failed(err.value), View(), env);
        return Err(err.value);
      }
      RunIssueStep(Cfg(), I.IssueChain(row, ca), View(), env);
      RunIssueIfDone(Cfg(), I.ChainStep(row, ca, View().db), View(), env);
      if ca.parentId != "" {
        var parent := st.GetCA(ca.parentId);
        if parent.Err? {
          return Err(parent.error);
        }
      }
      return Ok(row);
    }

    // -------------------------------------------------------------- Revoke

    method Revoke(serial: string, reason: int, env: Env) returns (err: Option<Error>)
      requires Valid() && EnvOk(env)
      modifies this, st
      ensures Valid()
      ensures var (call, sh) := R.RunRevoke(R.RevokeStart(serial, reason), old(View()), env);
              err == call.error && View() == sh
      ensures err == if reason < 0 || reason == 7 || reason > 10 then Some(ConstraintViolation)
                     else if Lower(serial) !in old(st.certs) then Some(NotFound)
                     else if old(st.certs)[Lower(serial)].status == REVOKED then Some(AlreadyRevoked)
                     else None
      ensures err.None? ==>
                && st.certs
                   == old(st.certs)[Lower(serial) :=
                                      RevokedVersion(old(st.certs)[Lower(serial)], Truncate(env.now), reason)]
                && crlCache == old(crlCache) - {old(st.certs)[Lower(serial)].caId}
      ensures err.Some? ==> st.View() == old(st.View()) && crlCache == old(crlCache)
      ensures st.cas == old(st.cas)
    {
      hide SharedOk, R.RunRevoke, Lower;
      ghost var start := View();
      RunRevokeKeeps(R.RevokeStart(serial, reason), start, env);
      RevokeOutcome(serial, reason, start, env);
      RevokeProgress(R.RevokeStart(serial, reason), start, env);
      ghost var found := R.FindStep(serial, reason, start.db);
      RunRevokeIfDone(found, start, env);
      if reason < 0 || reason > 10 || reason == 7 {
        return Some(ConstraintViolation);
      }
      var lower := Lower(serial);
      var rec := st.GetCertificate(lower);
      if rec.Err? {
        return Some(rec.error);
      }
      RevokeProgress(found, start, env);
      var at := Now(env);
      RevokeProgress(R.RevokeTimed(lower, reason, rec.value.caId, at), View(), env);
      var failure := st.RevokeCertificate(lower, at, reason);
      if failure.Some? {
        var e := failure.value;
        var out := if e == Conflict then AlreadyRevoked else e;
        RunRevokeIfDone(R.RevokeDone(Some(out)), View(), env);
        return Some(out);
      }
      RevokeProgress(R.RevokeInvalidate(rec.value.caId), View(), env);
      InvalidateCRL(rec.value.caId);
      RunRevokeIfDone(R.RevokeDone(None), View(), env);
      return None;
    }

    method InvalidateCRL(caId: string)
      modifies this`crlCache
      ensures crlCache == old(crlCache) - {caId}
    {
      crlCache := crlCache - {caId};
    }

    // -------------------------------------------------------------- CRL

    /** The list it returns describes exactly the CA's revoked rows, and its window has not passed. */
    method CRL(caId: string, passphrase: Bytes, env: Env) returns (r: Result<CrlDer>)
      requires Valid() && EnvOk(env)
      modifies this
      ensures Valid()
      ensures var (call, sh) := RunCrl(Cfg(), CrlStart(caId, passphrase), old(View()), env);
              r == CrlResult(call) && View() == sh
      ensures r.Ok? ==>
                && caId in st.cas
                && Describes(r.value, st.cas[caId], SortedRows(RevokedRows(st.View(), caId)))
                && Current(r.value, Truncate(env.now))
      ensures old(ListFresh(View(), caId, Truncate(env.now))) ==>
                r == Ok(old(crlCache)[caId].der) && crlCache == old(crlCache)
      ensures r.Ok? ==>
                && caId in crlCache && crlCache[caId].der == r.value
                && crlCache[caId].entryCount == |RevokedRows(st.View(), caId)|
                && Truncate(env.now) < crlCache[caId].nextUpdate
                && crlCache - {caId} == old(crlCache) - {caId}
      ensures r.Err? ==> crlCache == old(crlCache)
    {
      hide SharedOk, RunCrl, SortedRows, RevokedRows, LoadResult, Describes, Current, SnapOk, Truncate, Build;
      ghost var start := View();
      RunCrlKeeps(Cfg(), CrlStart(caId, passphrase), start, env);
      CrlOutcome(Cfg(), caId, passphrase, start, env);
      CrlCaches(Cfg(), caId, passphrase, start, env);
      ListServed(Cfg(), caId, passphrase, start, env);
      var ca := st.GetCA(caId);
      if ca.Err? {
        return Err(ca.error);
      }
      SharedKeyed(start);
      var revoked := st.ListRevoked(caId);
      var now := Now(env);
      if caId in crlCache && crlCache[caId].entryCount == |revoked| && now < crlCache[caId].nextUpdate {
        return Ok(crlCache[caId].der);
      }
      var built := BuildEntry(SnapshotOf(start.db, caId), ca.value, revoked, passphrase, now);
      if built.Err? {
        return Err(built.error);
      }
      crlCache := crlCache[caId := built.value];
      return Ok(built.value.der);
    }

    /** The signer, the entries, and the signed list. */
    method BuildEntry(ghost snap: Snapshot, ca: CARow, revoked: seq<CertRow>, passphrase: Bytes, now: int)
      returns (r: Result<CacheEntry>)
      requires snap.ca == ca && snap.rows == revoked
      ensures r == Build(Cfg(), snap, passphrase, now, ks.files)
    {
      hide RevocationListDer, EntryOf;
      var signer := ks.Load(ca.keyId, passphrase);
      if signer.Err? {
        return Err(signer.error);
      }
      var entries: seq<RevocationEntry> := [];
      for i := 0 to |revoked|
        invariant EntriesOf(revoked[..i], now) == Some(entries)
      {
        assert revoked[..i + 1][..i] == revoked[..i];
        var entry := EntryOf(revoked[i], now);
        if entry.None? {
          EntriesStayNone(revoked, now, i + 1);
          return Err(Other);
        }
        entries := entries + [entry.value];
      }
      assert revoked[..|revoked|] == revoked;
      var number := |revoked| + 1;
      var nextUpdate := now + crlValidity;
      var der := CreateRevocationList(ca.cert, signer.value, number, entries, now, nextUpdate);
      if der.Err? {
        return Err(der.error);
      }
      return Ok(CacheEntry(der.value, |revoked|, nextUpdate, number));
    }
  }

  // ---------------------------------------------------------------- unrolling

  lemma LeafRowKey(order: I.Order, notBefore: int, notAfter: int, serial: nat, cert: Certificate, keyId: string)
    ensures I.LeafRow(order, notBefore, notAfter, serial, cert, keyId).keyId == keyId
  {
    hide NameText.Printed, SerialHex;
  }

  lemma SharedKeyed(sh: Shared)
    requires SharedOk(sh)
    ensures Keyed(sh.db)
  {
    hide HistoryOk, KeysFit, CachesOk;
    Preservation.RowsAreKeyed(sh.db);
  }

  lemma {:induction false} EntriesStayNone(rows: seq<CertRow>, now: int, k: nat)
    requires k <= |rows| && EntriesOf(rows[..k], now).None?
    ensures EntriesOf(rows, now).None?
  {
    if k == |rows| {
      assert rows[..k] == rows;
    } else {
      assert rows[..|rows| - 1][..k] == rows[..k];
      EntriesStayNone(rows[..|rows| - 1], now, k);
    }
  }
}
