/** What holds besides when the clock never runs backwards: validity windows nest, and lengths
    are capped in spite of 64-bit wrap-around. */
module Timeliness {
  import opened Prelude
  import opened X509
  import opened Profiles
  import opened Stores
  import opened Keystores
  import opened EngineStates
  import opened Hierarchy
  import opened Snapshots
  import opened Systems
  import opened Invariants
  import opened Preservation
  import opened Times
  import CrlCalls
  import RevocationLists
  import C = CreateCalls
  import I = IssueCalls
  import R = RevokeCalls
  import NameText

  predicate CATimeOk(cas: CAs, row: CARow, clock: int) {
    && row.cert.notBefore % SECOND == 0 && row.cert.notBefore + CLOCK_SKEW <= clock
    && row.cert.notAfter <= row.cert.notBefore + CLOCK_SKEW + ProfileOf(row.parentId == "").maxDays * DAY
    && (row.parentId != "" ==> row.parentId in cas && cas[row.parentId].cert.notBefore <= row.cert.notBefore)
  }

  /** The window begins no earlier than the issuer's, and is no longer than the cap: its true
      length from the moment of issue, not the wrapped product the code compares. */
  predicate LeafTimeOk(cfg: Config, cas: CAs, row: CertRow) {
    && row.caId in cas && cas[row.caId].cert.notBefore <= row.cert.notBefore
    && row.cert.notAfter - (row.cert.notBefore + CLOCK_SKEW) <= cfg.maxValidity
  }

  predicate TablesTimely(cfg: Config, db: DB, clock: int) {
    && (forall id :: id in db.cas ==> CATimeOk(db.cas, db.cas[id], clock))
    && (forall serial :: serial in db.certs ==> LeafTimeOk(cfg, db.cas, db.certs[serial]))
  }

  predicate PlanTimely(plan: C.CAPlan, clock: int) {
    && plan.now <= clock
    && (plan.parent.Some? ==> plan.parent.value.cert.notBefore <= plan.notBefore)
  }

  predicate CreateTimely(call: C.CreateCall, sh: Shared) {
    match call
    case CreatePlanned(plan) => PlanTimely(plan, sh.clock)
    case CreateKeyed(plan, _, _, _) => PlanTimely(plan, sh.clock)
    case CreateInsert(row) => CATimeOk(sh.db.cas, row, sh.clock)
    case _ => true
  }

  predicate IssueTimely(cfg: Config, call: I.IssueCall, sh: Shared) {
    match call
    case IssueChecked(order) => DaysDuration(order.days) <= cfg.maxValidity
    case IssuePlanned(order, now, notBefore, notAfter) =>
      order.ca.cert.notBefore <= notBefore && notAfter - now <= cfg.maxValidity
    case IssueStoreKey(row, _, _, _) => LeafTimeOk(cfg, sh.db.cas, row)
    case IssueInsert(row, _) => LeafTimeOk(cfg, sh.db.cas, row)
    case _ => true
  }

  predicate CallTimely(cfg: Config, call: Call, sh: Shared) {
    match call
    case Creating(c) => CreateTimely(c, sh)
    case Issuing(c) => IssueTimely(cfg, c, sh)
    case _ => true
  }

  predicate TimeInv(cfg: Config, s: System) {
    && TablesTimely(cfg, s.shared.db, s.shared.clock)
    && forall id :: id in s.calls ==> CallTimely(cfg, s.calls[id], s.shared)
  }

  lemma CallTimelyStable(cfg: Config, call: Call, sh: Shared, sh': Shared)
    requires CallTimely(cfg, call, sh)
    requires forall id :: id in sh.db.cas ==> id in sh'.db.cas && sh'.db.cas[id] == sh.db.cas[id]
    requires sh.clock <= sh'.clock
    ensures CallTimely(cfg, call, sh')
  {
  }

  // ---------------------------------------------------------------- CreateCA

  lemma PlannedCreateTimely(cfg: Config, req: C.CreateRequest, algorithm: Algorithm, days: int, parent: Option<CARow>,
                            sh: Shared, env: Env)
    requires CreateOk(C.CreateChecked(req, algorithm, days, parent), sh)
    requires TablesTimely(cfg, sh.db, sh.clock) && sh.clock <= env.now
    ensures CreateTimely(C.PlanValidity(req, algorithm, days, parent, env.now), sh.(clock := env.now))
  {
    hide LeafTimeOk, AddDays, ProfileOf, Truncate, C.CheckRequest;
    if parent.Some? {
      assert parent.value == sh.db.cas[parent.value.id];
      assert CATimeOk(sh.db.cas, parent.value, sh.clock);
      WholeSecondsBelow(parent.value.cert.notBefore + CLOCK_SKEW, env.now);
    }
  }

  lemma WholeSecondsBelow(start: int, now: int)
    requires start <= now && start % SECOND == 0
    ensures start <= Truncate(now)
  {
  }

  lemma SignedCreateTimely(plan: C.CAPlan, keyId: string, priv: PrivateKey, signer: PrivateKey, serial: int, env: Env,
                           sh: Shared)
    requires PlanOk(sh.db.cas, plan) && EnvOk(env) && ValidKeyId(keyId) && priv.algorithm == plan.algorithm
    requires plan.parent.None? ==> signer == priv
    requires plan.parent.Some? ==>
               CACertOk(plan.parent.value.cert, true) && PublicOf(signer) == plan.parent.value.cert.publicKey
    requires PlanTimely(plan, sh.clock)
    ensures CreateTimely(C.SignCA(plan, keyId, priv, signer, serial, env), sh)
  {
    hide C.SignCA, CAOk, CACertOk, ValidKeyId, AddDays;
    SignedCAOk(sh.db.cas, plan, keyId, priv, signer, serial, env);
    ShorterLife(plan.days, ProfileOf(plan.parent.None?).maxDays);
  }

  lemma ShorterLife(days: int, maxDays: int)
    requires days <= maxDays
    ensures days * DAY <= maxDays * DAY
  {
  }

  lemma GeneratedCreateTimely(plan: C.CAPlan, sh: Shared, env: Env)
    requires SharedOk(sh) && PlanOk(sh.db.cas, plan) && EnvOk(env) && PlanTimely(plan, sh.clock)
    ensures CreateTimely(C.GenerateStep(plan, sh.keys, env).0, sh)
  {
    hide C.SignCA, PlanOk, CATimeOk, PlanTimely, ValidKeyId;
    if env.keyId.Some? && env.serial.Some? {
      var priv := PrivateKey(plan.algorithm, env.seed);
      if plan.parent.None? && env.expands {
        SignedCreateTimely(plan, env.keyId.value, priv, priv, env.serial.value, env, sh);
      }
    }
  }

  lemma LoadedCreateTimely(plan: C.CAPlan, keyId: string, priv: PrivateKey, serial: int, sh: Shared, env: Env)
    requires SharedOk(sh) && EnvOk(env) && CreateOk(C.CreateKeyed(plan, keyId, priv, serial), sh)
    requires PlanTimely(plan, sh.clock)
    ensures CreateTimely(C.LoadStep(plan, keyId, priv, serial, sh.keys, env), sh)
  {
    hide C.SignCA, PlanOk, CAOk, LeafOk, CACertOk, CATimeOk, PlanTimely, ValidKeyId;
    if Keystores.LoadResult(sh.keys, plan.parent.value.keyId, plan.req.parentPassphrase).Ok? {
      var signer := Keystores.LoadResult(sh.keys, plan.parent.value.keyId, plan.req.parentPassphrase).value;
      PlanParent(sh.db.cas, plan);
      ParentCertOk(sh.db.cas, plan);
      assert KeyFits(sh.keys, plan.parent.value.keyId, plan.parent.value.cert.publicKey);
      SignedCreateTimely(plan, keyId, priv, signer, serial, env, sh);
    }
  }

  lemma InsertedCATimely(cfg: Config, db: DB, clock: int, row: CARow)
    requires TablesTimely(cfg, db, clock) && CATimeOk(db.cas, row, clock)
    requires row.id !in db.cas
    ensures TablesTimely(cfg, db.(cas := db.cas[row.id := row]), clock)
  {
    var db' := db.(cas := db.cas[row.id := row]);
    forall id | id in db'.cas ensures CATimeOk(db'.cas, db'.cas[id], clock) {
      if id != row.id {
        assert CATimeOk(db.cas, db.cas[id], clock);
      }
    }
    forall serial | serial in db'.certs ensures LeafTimeOk(cfg, db'.cas, db'.certs[serial]) {
      assert LeafTimeOk(cfg, db.cas, db.certs[serial]);
    }
  }

  lemma LaterTablesTimely(cfg: Config, db: DB, clock: int, clock': int)
    requires TablesTimely(cfg, db, clock) && clock <= clock'
    ensures TablesTimely(cfg, db, clock')
  {
    forall id | id in db.cas ensures CATimeOk(db.cas, db.cas[id], clock') {
      assert CATimeOk(db.cas, db.cas[id], clock);
    }
  }

  lemma CreateStepTimely(cfg: Config, c: C.CreateCall, sh: Shared, env: Env)
    requires SharedOk(sh) && CreateOk(c, sh) && EnvOk(env)
    requires TablesTimely(cfg, sh.db, sh.clock) && CreateTimely(c, sh) && sh.clock <= env.now
    ensures var (c', sh') := C.AdvanceCreate(c, sh, env);
            TablesTimely(cfg, sh'.db, sh'.clock) && CreateTimely(c', sh') && sh.clock <= sh'.clock
  {
    hide C.SignCA, PlanOk, PlanTimely, SharedOk, C.CheckRequest, C.PlanValidity, C.GenerateStep, C.LoadStep,
         TablesTimely, CATimeOk;
    var (c', sh') := C.AdvanceCreate(c, sh, env);
    match c
    case CreateStart(req) => NothingPlanned(req, sh);
    case CreateChecked(req, algorithm, days, parent) =>
      PlannedCreateTimely(cfg, req, algorithm, days, parent, sh, env);
      LaterTablesTimely(cfg, sh.db, sh.clock, env.now);
    case CreatePlanned(plan) =>
      GeneratedCreateTimely(plan, sh, env);
      CreateTimelyIgnoresKeys(c', sh, sh');
    case CreateKeyed(plan, keyId, priv, serial) => LoadedCreateTimely(plan, keyId, priv, serial, sh, env);
    case CreateInsert(row) =>
      if AfterCreateCA(sh.db, row).1.None? {
        InsertedCATimely(cfg, sh.db, sh.clock, row);
      }
    case CreateUndo(_, _) =>
    case CreateDone(_, _) =>
  }

  lemma NothingPlanned(req: C.CreateRequest, sh: Shared)
    ensures CreateTimely(C.CheckRequest(req, sh.db), sh)
  {
    hide NameText.TrimSpace;
  }

  lemma CreateTimelyIgnoresKeys(c: C.CreateCall, sh: Shared, sh': Shared)
    requires CreateTimely(c, sh) && sh.db == sh'.db && sh.clock == sh'.clock
    ensures CreateTimely(c, sh')
  {
    hide CATimeOk, PlanTimely;
  }

  // ---------------------------------------------------------------- IssueCertificate

  lemma CheckedIssueTimely(cfg: Config, req: I.IssueRequest, sh: Shared)
    ensures IssueTimely(cfg, I.CheckRequest(req, sh.db, cfg), sh)
  {
    hide DaysDuration;
  }

  /** The cap survives both wraps: what the issuing CA has left to live is below the wrap point of
      the nanoseconds, so what was compared is the true length, or more than it. */
  lemma CapIsTrueLength(cfg: Config, order: I.Order, now: int, clock: int)
    requires DaysDuration(order.days) <= cfg.maxValidity
    requires order.ca.parentId != "" && order.ca.cert.notBefore + CLOCK_SKEW <= clock
    requires order.ca.cert.notAfter
             <= order.ca.cert.notBefore + CLOCK_SKEW + INTERMEDIATE_PROFILE.maxDays * DAY
    requires now == Truncate(clock) && AddDays(now, order.days) <= order.ca.cert.notAfter
    ensures AddDays(now, order.days) - now <= cfg.maxValidity
  {
    hide AddDays, DaysDuration;
    assert AddDays(now, order.days) - now < SECOND + 1825 * DAY <= MAX_INT;
    if AddDays(now, order.days) - now >= -MAX_INT - 1 {
      AddDaysIsDuration(now, order.days);
    } else {
      DurationIsInt(order.days);
    }
  }

  lemma DurationIsInt(days: int)
    ensures -MAX_INT - 1 <= DaysDuration(days) <= MAX_INT
  {
  }

  lemma PlannedIssueTimely(cfg: Config, order: I.Order, sh: Shared, env: Env)
    requires OrderOk(sh.db.cas, order) && DaysDuration(order.days) <= cfg.maxValidity
    requires TablesTimely(cfg, sh.db, sh.clock) && sh.clock <= env.now
    ensures IssueTimely(cfg, I.PlanValidity(order, env.now), sh.(clock := env.now))
  {
    hide LeafTimeOk, DaysDuration, AddDays, Truncate;
    assert CATimeOk(sh.db.cas, sh.db.cas[order.ca.id], sh.clock);
    if I.PlanValidity(order, env.now).IssuePlanned? {
      WholeSecondsBelow(order.ca.cert.notBefore + CLOCK_SKEW, env.now);
      CapIsTrueLength(cfg, order, Truncate(env.now), env.now);
    }
  }

  lemma SignedIssueTimely(cfg: Config, order: I.Order, now: int, notBefore: int, notAfter: int, sh: Shared, env: Env)
    requires SharedOk(sh) && EnvOk(env) && IssueOk(I.IssuePlanned(order, now, notBefore, notAfter), sh)
    requires order.ca.cert.notBefore <= notBefore && notAfter - now <= cfg.maxValidity
    ensures IssueTimely(cfg, I.LoadStep(order, notBefore, notAfter, sh.keys, env), sh)
  {
    hide I.SignLeaf, CACertOk, ValidKeyId, LeafCertOk, StatusOk, RevocationLists.SerialHex, AddDays;
    var signer := Keystores.LoadResult(sh.keys, order.ca.keyId, order.req.caPassphrase);
    if signer.Ok? {
      assert CAOk(sh.db.cas, sh.db.cas[order.ca.id]);
      assert KeyFits(sh.keys, order.ca.keyId, order.ca.cert.publicKey);
      SignedLeafOk(sh.db.cas, order, now, notBefore, notAfter, signer.value, env);
    }
  }

  lemma InsertedLeafTimely(cfg: Config, db: DB, clock: int, row: CertRow)
    requires TablesTimely(cfg, db, clock) && LeafTimeOk(cfg, db.cas, row)
    requires AfterInsertCertificate(db, row).1.None?
    ensures TablesTimely(cfg, AfterInsertCertificate(db, row).0, clock)
  {
    hide CATimeOk;
  }

  lemma IssueStepTimely(cfg: Config, c: I.IssueCall, sh: Shared, env: Env)
    requires SharedOk(sh) && IssueOk(c, sh) && EnvOk(env)
    requires TablesTimely(cfg, sh.db, sh.clock) && IssueTimely(cfg, c, sh) && sh.clock <= env.now
    ensures var (c', sh') := I.AdvanceIssue(cfg, c, sh, env);
            TablesTimely(cfg, sh'.db, sh'.clock) && IssueTimely(cfg, c', sh') && sh.clock <= sh'.clock
  {
    hide I.SignLeaf, OrderOk, WindowOk, SharedOk, I.CheckRequest, I.PlanValidity, I.LoadStep, I.StoreStep, I.InsertStep,
         TablesTimely, LeafTimeOk, DaysDuration, NewLeafOk, KeyFits, ValidKeyId;
    var (c', sh') := I.AdvanceIssue(cfg, c, sh, env);
    match c
    case IssueStart(req) => CheckedIssueTimely(cfg, req, sh);
    case IssueChecked(order) =>
      PlannedIssueTimely(cfg, order, sh, env);
      LaterTablesTimely(cfg, sh.db, sh.clock, env.now);
    case IssuePlanned(order, now, notBefore, notAfter) =>
      SignedIssueTimely(cfg, order, now, notBefore, notAfter, sh, env);
    case IssueStoreKey(row, ca, priv, passphrase) => StoredIssueTimely(cfg, row, ca, priv, passphrase, sh);
    case IssueInsert(row, ca) => InsertedIssueTimely(cfg, row, ca, sh);
    case _ =>
  }

  lemma StoredIssueTimely(cfg: Config, row: CertRow, ca: CARow, priv: PrivateKey, passphrase: Bytes, sh: Shared)
    requires LeafTimeOk(cfg, sh.db.cas, row)
    ensures var (c', keys') := I.StoreStep(row, ca, priv, passphrase, sh.keys);
            IssueTimely(cfg, c', sh.(keys := keys'))
  {
    hide LeafTimeOk, AfterStore;
  }

  lemma InsertedIssueTimely(cfg: Config, row: CertRow, ca: CARow, sh: Shared)
    requires TablesTimely(cfg, sh.db, sh.clock) && LeafTimeOk(cfg, sh.db.cas, row)
    ensures var (c', db') := I.InsertStep(row, ca, sh.db);
            TablesTimely(cfg, db', sh.clock) && IssueTimely(cfg, c', sh.(db := db'))
  {
    hide LeafTimeOk, TablesTimely;
    if AfterInsertCertificate(sh.db, row).1.None? {
      InsertedLeafTimely(cfg, sh.db, sh.clock, row);
    }
  }

  // ---------------------------------------------------------------- the whole system

  lemma RevokeStepTimely(cfg: Config, c: R.RevokeCall, sh: Shared, env: Env)
    requires TablesTimely(cfg, sh.db, sh.clock) && sh.clock <= env.now
    ensures var (c', sh') := R.AdvanceRevoke(c, sh, env);
            TablesTimely(cfg, sh'.db, sh'.clock) && sh.clock <= sh'.clock && sh'.db.cas == sh.db.cas
  {
    hide CATimeOk, RevocationLists.Lower;
    LaterTablesTimely(cfg, sh.db, sh.clock, env.now);
  }

  lemma CrlStepTimely(cfg: Config, c: CrlCalls.CrlCall, sh: Shared, env: Env)
    requires TablesTimely(cfg, sh.db, sh.clock) && sh.clock <= env.now
    ensures var (c', sh') := CrlCalls.AdvanceCrl(cfg, c, sh, env);
            TablesTimely(cfg, sh'.db, sh'.clock) && sh.clock <= sh'.clock && sh'.db == sh.db
  {
    hide CrlCalls.Build, CrlCalls.CacheHit, TablesTimely;
    LaterTablesTimely(cfg, sh.db, sh.clock, env.now);
  }

  lemma AdvanceTimely(cfg: Config, call: Call, sh: Shared, env: Env)
    requires SharedOk(sh) && CallOk(call, sh) && EnvOk(env)
    requires TablesTimely(cfg, sh.db, sh.clock) && CallTimely(cfg, call, sh) && sh.clock <= env.now
    ensures var (call', sh') := Advance(cfg, call, sh, env);
            TablesTimely(cfg, sh'.db, sh'.clock) && CallTimely(cfg, call', sh') && sh.clock <= sh'.clock
  {
    hide C.AdvanceCreate, I.AdvanceIssue, R.AdvanceRevoke, CrlCalls.AdvanceCrl, SharedOk, TablesTimely,
         CreateTimely, IssueTimely, CreateOk, IssueOk;
    match call
    case Creating(c) => CreateStepTimely(cfg, c, sh, env);
    case Issuing(c) => IssueStepTimely(cfg, c, sh, env);
    case Revoking(c) => RevokeStepTimely(cfg, c, sh, env);
    case Listing(c) => CrlStepTimely(cfg, c, sh, env);
    case Stopped(_) =>
  }

  lemma NextKeepsTimeInv(cfg: Config, s: System, s': System, step: Step)
    requires Inv(s) && TimeInv(cfg, s) && Next(cfg, s, s', step) && Timely(s, step)
    ensures TimeInv(cfg, s')
  {
    hide Advance, SharedOk, CallOk, TablesTimely, CallTimely, Accounted;
    match step
    case Begin(id, call) =>
      assert CallTimely(cfg, call, s.shared) by { StartTimely(cfg, call, s.shared); }
    case Run(id, env) =>
      RunMembers(s, id);
      AdvanceTimely(cfg, s.calls[id], s.shared, env);
      CasOnlyGrow(cfg, s, id, env);
      forall j | j in s'.calls && j != id ensures CallTimely(cfg, s'.calls[j], s'.shared) {
        CallTimelyStable(cfg, s.calls[j], s.shared, s'.shared);
      }
    case Restart =>
      forall id | id in s'.calls ensures CallTimely(cfg, s'.calls[id], s'.shared) {
        StopTimely(cfg, s.calls[id], s.shared, s'.shared);
      }
  }

  lemma StartTimely(cfg: Config, call: Call, sh: Shared)
    requires IsStart(call)
    ensures CallTimely(cfg, call, sh)
  {
  }

  lemma StopTimely(cfg: Config, call: Call, sh: Shared, sh': Shared)
    requires CallTimely(cfg, call, sh)
    ensures CallTimely(cfg, Stop(call), sh')
  {
  }

  lemma RunMembers(s: System, id: nat)
    requires Inv(s) && id in s.calls
    ensures SharedOk(s.shared) && CallOk(s.calls[id], s.shared)
    ensures Held(s.calls[id]) <= s.shared.keys.Keys && Held(s.calls[id]) !! Referenced(s.shared.db)
  {
    hide SharedOk, CallOk, Held, Referenced;
    forall k | k in Held(s.calls[id]) ensures k in s.shared.keys {
      assert HeldBySome(s, k);
    }
  }

  lemma CasOnlyGrow(cfg: Config, s: System, id: nat, env: Env)
    requires Inv(s) && id in s.calls && EnvOk(env)
    ensures DbGrows(s.shared.db, Advance(cfg, s.calls[id], s.shared, env).1.db)
  {
    hide Advance, SharedOk, CallOk, Held, Referenced;
    RunMembers(s, id);
    AdvanceOk(cfg, s.calls[id], s.shared, env);
  }

  lemma {:induction false} TimelyRunInv(cfg: Config, states: seq<System>, steps: seq<Step>, n: nat)
    requires IsTimelyRun(cfg, states, steps) && n < |states|
    ensures Inv(states[n]) && TimeInv(cfg, states[n])
  {
    hide Inv, Next, TimeInv, Timely;
    RunInv(cfg, states, steps, n);
    if n == 0 {
      InitTimely(cfg, states[0]);
    } else {
      TimelyRunInv(cfg, states, steps, n - 1);
      assert Next(cfg, states[n - 1], states[n - 1 + 1], steps[n - 1]);
      assert Timely(states[n - 1], steps[n - 1]);
      NextKeepsTimeInv(cfg, states[n - 1], states[n], steps[n - 1]);
    }
  }

  lemma InitTimely(cfg: Config, s: System)
    requires Init(s)
    ensures TimeInv(cfg, s)
  {
  }
}
