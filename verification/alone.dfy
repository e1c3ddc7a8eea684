/** Calls that run with nothing in between: they keep the invariant, and a failed one leaves the
    tables and the key files as they were. */
module AloneRuns {
  import opened Prelude
  import opened X509
  import opened Profiles
  import opened Stores
  import opened Keystores
  import opened EngineStates
  import opened Hierarchy
  import opened Snapshots
  import opened Systems
  import opened Invariants
  import opened Preservation
  import opened CrlCalls
  import C = CreateCalls
  import I = IssueCalls
  import R = RevokeCalls
  import Certificates
  import NameText
  import RevocationLists

  // ---------------------------------------------------------------- CreateCA

  lemma KeyStepCloses(sh: Shared, held: set<string>, sh': Shared, held': set<string>)
    requires KeyStep(sh.keys, sh.db, held, sh'.keys, sh'.db, held')
    ensures held' <= sh'.keys.Keys && held' !! Referenced(sh'.db)
  {
    hide Referenced;
  }

  lemma {:induction false} RunCreateKeeps(c: C.CreateCall, sh: Shared, env: Env)
    requires SharedOk(sh) && CreateOk(c, sh) && EnvOk(env)
    requires C.CreateHeld(c) <= sh.keys.Keys && C.CreateHeld(c) !! Referenced(sh.db)
    ensures var (c', sh') := C.RunCreate(c, sh, env); SharedOk(sh') && CreateOk(c', sh')
    decreases C.CreateRank(c)
  {
    hide C.AdvanceCreate, C.CreateHeld, SharedOk, CreateOk, Grows, KeyStep, Referenced;
    if !c.CreateDone? {
      CreateStepOk(c, sh, env);
      C.CreateProgress(c, sh, env);
      var (next, sh') := C.AdvanceCreate(c, sh, env);
      KeyStepCloses(sh, Held(Creating(c)), sh', Held(Creating(next)));
      RunCreateKeeps(next, sh', env);
    }
  }

  /** The call gets as far as writing the new key's file. */
  predicate ReachesKey(req: C.CreateRequest, sh: Shared, env: Env) {
    var checked := C.CheckRequest(req, sh.db);
    && checked.CreateChecked?
    && var planned := C.PlanValidity(req, checked.algorithm, checked.days, checked.parent, env.now);
    && planned.CreatePlanned?
    && env.keyId.Some?
    && AfterStore(sh.keys, env.keyId.value, PrivateKey(checked.algorithm, env.seed), req.passphrase).1.None?
  }

  /** What a call that holds `keyId` and inserts or undoes next can still end in. */
  lemma FinishCreate(c: C.CreateCall, sh: Shared, env: Env, keyId: string)
    requires (c.CreateUndo? && c.keyId == keyId) || (c.CreateInsert? && c.row.keyId == keyId)
    ensures var (c', sh') := C.RunCreate(c, sh, env);
            && c'.leaked.None?
            && (c'.result.Err? ==> sh'.db == sh.db && sh'.keys == AfterDelete(sh.keys, keyId).0)
            && (c'.result.Ok? ==> sh'.keys == sh.keys
                                  && sh'.db == sh.db.(cas := sh.db.cas[c'.result.value.id := c'.result.value])
                                  && c'.result.value.id !in sh.db.cas && c'.result.value.keyId == keyId)
            && sh'.cache == sh.cache
  {
    var undo := (e: Error) => C.CreateUndo(keyId, e);
    assert forall e :: C.RunCreate(undo(e), sh, env) == (C.Failed(e), sh.(keys := AfterDelete(sh.keys, keyId).0));
  }

  lemma SignCAUsesKey(plan: C.CAPlan, keyId: string, priv: PrivateKey, signer: PrivateKey, serial: int, env: Env)
    ensures var c := C.SignCA(plan, keyId, priv, signer, serial, env);
            (c.CreateUndo? && c.keyId == keyId) || (c.CreateInsert? && c.row.keyId == keyId)
  {
    hide Certificates.CreateCertificate, Certificates.ParsedCertificate;
  }

  lemma RunCreateStep(c: C.CreateCall, sh: Shared, env: Env)
    requires !c.CreateDone?
    ensures var (next, sh') := C.AdvanceCreate(c, sh, env); C.RunCreate(c, sh, env) == C.RunCreate(next, sh', env)
  {
    hide C.AdvanceCreate;
    C.CreateProgress(c, sh, env);
  }

  /** From the key file on. */
  lemma RunFromKey(plan: C.CAPlan, keyId: string, priv: PrivateKey, sh: Shared, env: Env)
    requires plan.parent.None? <==> plan.req.parentId == ""
    ensures var (c', sh') := C.RunCreate(C.AfterGenerate(plan, keyId, priv, env), sh, env);
            if env.serial.None? || (plan.parent.None? && !env.expands) then
              sh' == sh && c' == C.CreateDone(Err(Other), Some(keyId))
            else
              && c'.leaked.None?
              && (c'.result.Err? ==> sh'.db == sh.db && sh'.keys == AfterDelete(sh.keys, keyId).0)
              && (c'.result.Ok? ==> sh'.keys == sh.keys
                                    && sh'.db == sh.db.(cas := sh.db.cas[c'.result.value.id := c'.result.value])
                                    && c'.result.value.id !in sh.db.cas && c'.result.value.keyId == keyId)
  {
    hide C.SignCA, C.RunCreate;
    var c := C.AfterGenerate(plan, keyId, priv, env);
    if env.serial.None? || (plan.parent.None? && !env.expands) {
      RunDone(c, sh, env);
    } else if plan.parent.Some? {
      RunCreateStep(c, sh, env);
      var signer := LoadResult(sh.keys, plan.parent.value.keyId, plan.req.parentPassphrase);
      if signer.Ok? {
        SignCAUsesKey(plan, keyId, priv, signer.value, env.serial.value, env);
      }
      FinishCreate(C.LoadStep(plan, keyId, priv, env.serial.value, sh.keys, env), sh, env, keyId);
    } else {
      SignCAUsesKey(plan, keyId, priv, priv, env.serial.value, env);
      FinishCreate(c, sh, env, keyId);
    }
  }

  lemma RunDone(c: C.CreateCall, sh: Shared, env: Env)
    requires c.CreateDone?
    ensures C.RunCreate(c, sh, env) == (c, sh)
  {
  }

  /** A failed CreateCA leaves the tables as they were. It leaves the key files as they were too,
      except exactly when the call wrote the new key and then the serial number, or a root's
      own signer, failed: then the new key stays behind. */
  lemma CreateAlone(req: C.CreateRequest, sh: Shared, env: Env)
    requires EnvOk(env)
    ensures var (c', sh') := C.RunCreate(C.CreateStart(req), sh, env);
            && (c'.result.Err? ==> sh'.db == sh.db)
            && (c'.result.Err? ==>
                  (sh'.keys != sh.keys <==>
                     ReachesKey(req, sh, env) && (env.serial.None? || (req.parentId == "" && !env.expands))))
            && (c'.result.Ok? ==>
                  && c'.result.value.id !in sh.db.cas
                  && sh'.db == sh.db.(cas := sh.db.cas[c'.result.value.id := c'.result.value])
                  && c'.result.value.keyId !in sh.keys
                  && req.algorithm.Chosen?
                  && sh'.keys == sh.keys[c'.result.value.keyId :=
                                           SealedKey(PrivateKey(req.algorithm.algorithm, env.seed), req.passphrase)])
  {
    hide C.CheckRequest, C.RunCreate, C.AfterGenerate, ValidKeyId;
    RunCreateStep(C.CreateStart(req), sh, env);
    var checked := C.CheckRequest(req, sh.db);
    CheckedShape(req, sh.db);
    if checked.CreateDone? {
      RunDone(checked, sh, env);
    } else {
      RunCreateStep(checked, sh, env);
      var sh1 := sh.(clock := env.now);
      var planned := C.PlanValidity(req, checked.algorithm, checked.days, checked.parent, env.now);
      if planned.CreateDone? {
        RunDone(planned, sh1, env);
      } else {
        RunCreateStep(planned, sh1, env);
        if ReachesKey(req, sh, env) {
          var keyId, priv := env.keyId.value, PrivateKey(checked.algorithm, env.seed);
          var keys := AfterStore(sh.keys, keyId, priv, req.passphrase).0;
          RunFromKey(planned.plan, keyId, priv, sh1.(keys := keys), env);
          DeleteUndoesStore(sh.keys, keyId, priv, req.passphrase);
          assert keys == sh.keys[keyId := SealedKey(priv, req.passphrase)];
        } else {
          RunDone(C.GenerateStep(planned.plan, sh.keys, env).0, sh1, env);
        }
      }
    }
  }

  lemma CheckedShape(req: C.CreateRequest, db: DB)
    ensures var c := C.CheckRequest(req, db);
            && (c.CreateDone? || c.CreateChecked?)
            && (c.CreateDone? ==> c.result.Err? && c.leaked.None?)
            && (c.CreateChecked? ==> c.req == req && (c.parent.None? <==> req.parentId == "")
                                      && req.algorithm == Chosen(c.algorithm))
  {
    hide NameText.TrimSpace;
  }

  // ---------------------------------------------------------------- IssueCertificate

  lemma {:induction false} RunIssueKeeps(cfg: Config, c: I.IssueCall, sh: Shared, env: Env)
    requires SharedOk(sh) && IssueOk(c, sh) && EnvOk(env)
    requires I.IssueHeld(c) <= sh.keys.Keys && I.IssueHeld(c) !! Referenced(sh.db)
    ensures var (c', sh') := I.RunIssue(cfg, c, sh, env); SharedOk(sh') && IssueOk(c', sh')
    decreases I.IssueRank(c)
  {
    hide I.AdvanceIssue, I.IssueHeld, SharedOk, IssueOk, Grows, KeyStep, Referenced;
    if !c.IssueDone? {
      IssueStepOk(cfg, c, sh, env);
      I.IssueProgress(cfg, c, sh, env);
      var (next, sh') := I.AdvanceIssue(cfg, c, sh, env);
      KeyStepCloses(sh, Held(Issuing(c)), sh', Held(Issuing(next)));
      RunIssueKeeps(cfg, next, sh', env);
    }
  }

  /** The lookups after the insert find their rows: a CA row's parent is always there. */
  lemma ChainNeverFails(row: CertRow, ca: CARow, sh: Shared)
    requires SharedOk(sh) && IssueOk(I.IssueChain(row, ca), sh)
    ensures I.ChainStep(row, ca, sh.db) == I.IssueDone(Ok(row))
  {
    hide CACertOk, LeafOk, HistoryOk, CacheOk;
    assert CAOk(sh.db.cas, sh.db.cas[ca.id]);
  }

  /** What an unfinished call still owes: nothing was inserted, and its own key file, if it
      wrote one, is the only change to the key files since `keys`. */
  predicate Untouched(c: I.IssueCall, sh: Shared, db: DB, keys: Keys) {
    match c
    case IssueChain(_, _) => true
    case IssueDone(result) => result.Ok? || (sh.db == db && sh.keys == keys)
    case IssueInsert(row, _) =>
      sh.db == db && (if row.keyId == "" then sh.keys == keys
                      else ValidKeyId(row.keyId) && row.keyId in sh.keys && sh.keys - {row.keyId} == keys)
    case IssueUndo(keyId, _) => sh.db == db && ValidKeyId(keyId) && keyId in sh.keys && sh.keys - {keyId} == keys
    case _ => sh.db == db && sh.keys == keys
  }

  lemma UntouchedStep(cfg: Config, c: I.IssueCall, sh: Shared, env: Env, db: DB, keys: Keys)
    requires SharedOk(sh) && IssueOk(c, sh) && EnvOk(env) && Untouched(c, sh, db, keys)
    ensures var (c', sh') := I.AdvanceIssue(cfg, c, sh, env); Untouched(c', sh', db, keys)
  {
    hide SharedOk, OrderOk, WindowOk, LeafOk, I.CheckRequest, I.SignLeaf;
    match c
    case IssueStart(req) => CheckedIssueShape(cfg, req, sh.db);
    case IssuePlanned(order, now, notBefore, notAfter) =>
      var signer := LoadResult(sh.keys, order.ca.keyId, order.req.caPassphrase);
      if signer.Ok? {
        SignLeafShape(order, notBefore, notAfter, signer.value, env);
      }
    case IssueStoreKey(row, ca, priv, passphrase) =>
      if AfterStore(sh.keys, row.keyId, priv, passphrase).1.None? {
        assert sh.keys[row.keyId := SealedKey(priv, passphrase)] - {row.keyId} == sh.keys;
      }
    case IssueChain(row, ca) => ChainNeverFails(row, ca, sh);
    case _ =>
  }

  lemma CheckedIssueShape(cfg: Config, req: I.IssueRequest, db: DB)
    ensures var c := I.CheckRequest(req, db, cfg); c.IssueChecked? || (c.IssueDone? && c.result.Err?)
  {
    hide DaysDuration;
  }

  lemma SignLeafShape(order: I.Order, notBefore: int, notAfter: int, signer: PrivateKey, env: Env)
    ensures var c := I.SignLeaf(order, notBefore, notAfter, signer, env);
            || (c.IssueDone? && c.result.Err?)
            || (c.IssueInsert? && c.row.keyId == "")
            || c.IssueStoreKey?
  {
    hide Certificates.CreateCertificate, Certificates.ParsedCertificate, RevocationLists.SerialHex, NameText.Printed;
  }

  lemma {:induction false} RunIssueUntouched(cfg: Config, c: I.IssueCall, sh: Shared, env: Env, db: DB, keys: Keys)
    requires SharedOk(sh) && IssueOk(c, sh) && EnvOk(env) && Untouched(c, sh, db, keys)
    requires I.IssueHeld(c) <= sh.keys.Keys && I.IssueHeld(c) !! Referenced(sh.db)
    ensures var (c', sh') := I.RunIssue(cfg, c, sh, env); Untouched(c', sh', db, keys)
    decreases I.IssueRank(c)
  {
    hide I.AdvanceIssue, I.IssueHeld, SharedOk, IssueOk, Grows, KeyStep, Referenced, Untouched;
    if !c.IssueDone? {
      IssueStepOk(cfg, c, sh, env);
      I.IssueProgress(cfg, c, sh, env);
      UntouchedStep(cfg, c, sh, env, db, keys);
      var (next, sh') := I.AdvanceIssue(cfg, c, sh, env);
      KeyStepCloses(sh, Held(Issuing(c)), sh', Held(Issuing(next)));
      RunIssueUntouched(cfg, next, sh', env, db, keys);
    }
  }

  /** A failed IssueCertificate leaves the tables and the key files as they were. */
  lemma IssueAlone(cfg: Config, req: I.IssueRequest, sh: Shared, env: Env)
    requires SharedOk(sh) && EnvOk(env)
    ensures var (c', sh') := I.RunIssue(cfg, I.IssueStart(req), sh, env);
            c'.result.Err? ==> sh'.db == sh.db && sh'.keys == sh.keys
  {
    hide SharedOk, Referenced;
    RunIssueUntouched(cfg, I.IssueStart(req), sh, env, sh.db, sh.keys);
  }

  /** The key file that a call to store a key has written, and none otherwise. */
  predicate KeyWritten(row: CertRow, req: I.IssueRequest, env: Env, keys: Keys, keys': Keys) {
    if req.storeKey then
      && row.keyId !in keys && env.newId == Some(row.keyId) && req.csr.None?
      && keys' == keys[row.keyId := SealedKey(PrivateKey(row.algorithm, env.seed), req.caPassphrase)]
    else row.keyId == "" && keys' == keys
  }

  predicate BareRow(row: CertRow, env: Env) {
    && row.status == VALID && row.revokedAt.None? && row.revocationReason.None?
    && env.serial.Some? && env.serial.value > 0 && row.serial == RevocationLists.SerialHex(env.serial.value)
  }

  predicate RowWritten(row: CertRow, db: DB, db': DB) {
    row.serial !in db.certs && db' == db.(certs := db.certs[row.serial := row])
  }

  /** What an IssueCertificate call has done so far to tables and key files. */
  predicate IssueEffect(c: I.IssueCall, req: I.IssueRequest, sh: Shared, env: Env, db: DB, keys: Keys) {
    match c
    case IssueStart(r) => r == req && sh.db == db && sh.keys == keys
    case IssueChecked(order) => order.req == req && OrderKey(order) && sh.db == db && sh.keys == keys
    case IssuePlanned(order, _, _, _) => order.req == req && OrderKey(order) && sh.db == db && sh.keys == keys
    case IssueStoreKey(row, _, priv, passphrase) =>
      && sh.db == db && sh.keys == keys && req.storeKey && req.csr.None? && BareRow(row, env)
      && env.newId == Some(row.keyId) && row.keyId != ""
      && priv == PrivateKey(row.algorithm, env.seed) && passphrase == req.caPassphrase
    case IssueInsert(row, _) => sh.db == db && BareRow(row, env) && KeyWritten(row, req, env, keys, sh.keys)
    case IssueUndo(_, _) => true
    case IssueChain(row, _) =>
      BareRow(row, env) && RowWritten(row, db, sh.db) && KeyWritten(row, req, env, keys, sh.keys)
    case IssueDone(result) =>
      result.Ok? ==>
        && BareRow(result.value, env) && RowWritten(result.value, db, sh.db)
        && KeyWritten(result.value, req, env, keys, sh.keys)
  }

  predicate OrderKey(order: I.Order) {
    order.req.csr.Some? ==> !order.req.storeKey
  }

  lemma EffectStep(cfg: Config, c: I.IssueCall, req: I.IssueRequest, sh: Shared, env: Env, db: DB, keys: Keys)
    requires EnvOk(env) && IssueEffect(c, req, sh, env, db, keys)
    ensures var (c', sh') := I.AdvanceIssue(cfg, c, sh, env); IssueEffect(c', req, sh', env, db, keys)
  {
    hide I.CheckRequest, I.SignLeaf, RevocationLists.SerialHex;
    match c
    case IssueStart(_) => CheckedEffect(cfg, req, sh.db);
    case IssuePlanned(order, now, notBefore, notAfter) =>
      var signer := LoadResult(sh.keys, order.ca.keyId, order.req.caPassphrase);
      if signer.Ok? {
        SignedEffect(order, notBefore, notAfter, signer.value, env);
      }
    case IssueInsert(row, _) => assert row.(revokedAt := None, revocationReason := None) == row;
    case _ =>
  }

  lemma CheckedEffect(cfg: Config, req: I.IssueRequest, db: DB)
    ensures var c := I.CheckRequest(req, db, cfg);
            || (c.IssueDone? && c.result.Err?)
            || (c.IssueChecked? && c.order.req == req && OrderKey(c.order))
  {
    hide DaysDuration, Certificates.KnownPurposes;
  }

  lemma SignedEffect(order: I.Order, notBefore: int, notAfter: int, signer: PrivateKey, env: Env)
    requires EnvOk(env)
    ensures var c := I.SignLeaf(order, notBefore, notAfter, signer, env);
            || (c.IssueDone? && c.result.Err?)
            || (c.IssueInsert? && c.row.keyId == "" && !order.req.storeKey && BareRow(c.row, env))
            || (c.IssueStoreKey? && order.req.storeKey && BareRow(c.row, env) && env.newId == Some(c.row.keyId)
                && c.row.keyId != "" && c.priv == PrivateKey(c.row.algorithm, env.seed)
                && c.passphrase == order.req.caPassphrase)
  {
    hide Certificates.CreateCertificate, Certificates.ParsedCertificate, RevocationLists.SerialHex, NameText.Printed;
  }

  lemma {:induction false} RunIssueEffect(cfg: Config, c: I.IssueCall, req: I.IssueRequest, sh: Shared, env: Env,
                                          db: DB, keys: Keys)
    requires EnvOk(env) && IssueEffect(c, req, sh, env, db, keys)
    ensures var (c', sh') := I.RunIssue(cfg, c, sh, env); IssueEffect(c', req, sh', env, db, keys)
    decreases I.IssueRank(c)
  {
    hide I.AdvanceIssue, IssueEffect, EnvOk;
    if !c.IssueDone? {
      I.IssueProgress(cfg, c, sh, env);
      EffectStep(cfg, c, req, sh, env, db, keys);
      var (next, sh') := I.AdvanceIssue(cfg, c, sh, env);
      RunIssueEffect(cfg, next, req, sh', env, db, keys);
    }
  }

  /** A successful IssueCertificate adds one row, under the drawn serial number, and, when it was asked
      to, one key file, sealed with the CA's passphrase. It changes nothing else. */
  lemma IssuedAlone(cfg: Config, req: I.IssueRequest, sh: Shared, env: Env)
    requires EnvOk(env)
    ensures var (c', sh') := I.RunIssue(cfg, I.IssueStart(req), sh, env);
            c'.result.Ok? ==>
              && BareRow(c'.result.value, env) && RowWritten(c'.result.value, sh.db, sh'.db)
              && KeyWritten(c'.result.value, req, env, sh.keys, sh'.keys)
  {
    hide I.RunIssue, BareRow, RowWritten, KeyWritten;
    RunIssueEffect(cfg, I.IssueStart(req), req, sh, env, sh.db, sh.keys);
  }

  // ---------------------------------------------------------------- Revoke and CRL

  lemma {:induction false} RunRevokeKeeps(c: R.RevokeCall, sh: Shared, env: Env)
    requires SharedOk(sh) && RevokeOk(c, sh) && EnvOk(env)
    ensures SharedOk(R.RunRevoke(c, sh, env).1)
    decreases R.RevokeRank(c)
  {
    hide R.AdvanceRevoke, SharedOk, RevokeOk, Grows, KeyStep;
    if !c.RevokeDone? {
      RevokeStepOk(c, sh, env);
      RevokeProgress(c, sh, env);
      var (next, sh') := R.AdvanceRevoke(c, sh, env);
      RunRevokeKeeps(next, sh', env);
    }
  }

  lemma RevokeProgress(c: R.RevokeCall, sh: Shared, env: Env)
    requires !c.RevokeDone?
    ensures R.RevokeRank(R.AdvanceRevoke(c, sh, env).0) < R.RevokeRank(c)
    ensures var (next, sh') := R.AdvanceRevoke(c, sh, env); R.RunRevoke(c, sh, env) == R.RunRevoke(next, sh', env)
  {
  }

  lemma {:induction false} RunCrlKeeps(cfg: Config, c: CrlCall, sh: Shared, env: Env)
    requires SharedOk(sh) && CrlOk(c, sh) && EnvOk(env)
    ensures var (c', sh') := RunCrl(cfg, c, sh, env); SharedOk(sh') && CrlOk(c', sh')
    decreases CrlRank(c)
  {
    hide AdvanceCrl, SharedOk, CrlOk, Grows, KeyStep;
    if !CrlFinished(c) {
      CrlStepOk(cfg, c, sh, env);
      CrlProgress(cfg, c, sh, env);
      var (next, sh') := AdvanceCrl(cfg, c, sh, env);
      RunCrlKeeps(cfg, next, sh', env);
    }
  }

  lemma CrlProgress(cfg: Config, c: CrlCall, sh: Shared, env: Env)
    requires !CrlFinished(c)
    ensures CrlRank(AdvanceCrl(cfg, c, sh, env).0) < CrlRank(c)
    ensures var (next, sh') := AdvanceCrl(cfg, c, sh, env); RunCrl(cfg, c, sh, env) == RunCrl(cfg, next, sh', env)
  {
    hide Build, CacheHit;
  }

  // ---------------------------------------------------------------- unrolling

  lemma RunDoneIfDone(c: C.CreateCall, sh: Shared, env: Env)
    ensures c.CreateDone? ==> C.RunCreate(c, sh, env) == (c, sh)
  {
    hide C.AdvanceCreate;
  }

  lemma RunIssueStep(cfg: Config, c: I.IssueCall, sh: Shared, env: Env)
    requires !c.IssueDone?
    ensures var (next, sh') := I.AdvanceIssue(cfg, c, sh, env);
            I.RunIssue(cfg, c, sh, env) == I.RunIssue(cfg, next, sh', env)
  {
    hide I.AdvanceIssue;
    I.IssueProgress(cfg, c, sh, env);
  }

  lemma RunIssueIfDone(cfg: Config, c: I.IssueCall, sh: Shared, env: Env)
    ensures c.IssueDone? ==> I.RunIssue(cfg, c, sh, env) == (c, sh)
  {
    hide I.AdvanceIssue;
  }

  lemma RunRevokeIfDone(c: R.RevokeCall, sh: Shared, env: Env)
    ensures c.RevokeDone? ==> R.RunRevoke(c, sh, env) == (c, sh)
  {
  }

  lemma RunCrlIfDone(cfg: Config, c: CrlCall, sh: Shared, env: Env)
    ensures CrlFinished(c) ==> RunCrl(cfg, c, sh, env) == (c, sh)
  {
    hide AdvanceCrl;
  }
}
