/** What becomes of the key files that calls write, for every interleaving: named by a row, deleted
    again, or left behind on exactly one path of CreateCA. */
module Leaks {
  import opened Prelude
  import opened X509
  import opened Stores
  import opened Keystores
  import opened EngineStates
  import opened Systems
  import opened Invariants
  import opened Preservation
  import opened Timeliness
  import opened Theorems
  import opened CrlCalls
  import AloneRuns
  import Profiles
  import C = CreateCalls
  import I = IssueCalls
  import R = RevokeCalls
  import Names
  import NameText

  // ---------------------------------------------------------------- the leak

  /** The call fails right after its key file: no serial number, or a root's own signer fails. */
  predicate FailsAfterKey(plan: C.CAPlan, env: Env) {
    env.serial.None? || (plan.parent.None? && !env.expands)
  }

  /** Step m of the run is a step of call `id` that writes key file k and then fails like that. */
  ghost predicate LeaksAt(states: seq<System>, steps: seq<Step>, id: nat, k: string, m: nat) {
    && m < |steps| && m + 1 < |states|
    && steps[m].Run? && steps[m].id == id
    && id in states[m].calls && states[m].calls[id].Creating? && states[m].calls[id].create.CreatePlanned?
    && k !in states[m].shared.keys && k in states[m + 1].shared.keys
    && FailsAfterKey(states[m].calls[id].create.plan, steps[m].env)
  }

  predicate Leaked(call: Call, k: string) {
    call.Creating? && call.create.CreateDone? && call.create.leaked == Some(k)
  }

  lemma GenerateLeaks(plan: C.CAPlan, sh: Shared, env: Env, k: string)
    ensures var (c', keys') := C.GenerateStep(plan, sh.keys, env);
            Leaked(Creating(c'), k) <==> k !in sh.keys && k in keys' && FailsAfterKey(plan, env)
  {
    hide C.SignCA, ValidKeyId;
    if env.keyId.Some? && env.serial.Some? && plan.parent.None? && env.expands {
      var priv := PrivateKey(plan.algorithm, env.seed);
      SignedIsNotDone(plan, env.keyId.value, priv, env);
    }
  }

  lemma SignedIsNotDone(plan: C.CAPlan, keyId: string, priv: PrivateKey, env: Env)
    requires env.serial.Some?
    ensures !C.SignCA(plan, keyId, priv, priv, env.serial.value, env).CreateDone?
  {
    AloneRuns.SignCAUsesKey(plan, keyId, priv, priv, env.serial.value, env);
  }

  lemma CreateStepLeaks(c: C.CreateCall, sh: Shared, env: Env, k: string)
    ensures var (c', sh') := C.AdvanceCreate(c, sh, env);
            Leaked(Creating(c'), k) <==>
              || Leaked(Creating(c), k)
              || (c.CreatePlanned? && k !in sh.keys && k in sh'.keys && FailsAfterKey(c.plan, env))
  {
    hide C.GenerateStep, C.SignCA, FailsAfterKey;
    match c
    case CreateStart(req) => AloneRuns.CheckedShape(req, sh.db);
    case CreatePlanned(plan) => GenerateLeaks(plan, sh, env, k);
    case CreateKeyed(plan, keyId, priv, serial) =>
      if plan.parent.Some? && LoadResult(sh.keys, plan.parent.value.keyId, plan.req.parentPassphrase).Ok? {
        AloneRuns.SignCAUsesKey(plan, keyId, priv,
                                LoadResult(sh.keys, plan.parent.value.keyId, plan.req.parentPassphrase).value,
                                serial, env);
      }
    case _ =>
  }

  lemma StepLeaks(cfg: Config, call: Call, sh: Shared, env: Env, k: string)
    ensures var (call', sh') := Advance(cfg, call, sh, env);
            Leaked(call', k) <==>
              || Leaked(call, k)
              || (call.Creating? && call.create.CreatePlanned? && k !in sh.keys && k in sh'.keys
                  && FailsAfterKey(call.create.plan, env))
  {
    hide C.AdvanceCreate, I.AdvanceIssue, R.AdvanceRevoke, AdvanceCrl, FailsAfterKey;
    if call.Creating? {
      CreateStepLeaks(call.create, sh, env, k);
    }
  }

  /** A CreateCA call is marked as leaking k exactly when one of its steps wrote key file k and then
      failed for want of a serial number or, for a root, of its own signer. */
  lemma {:induction false} LeakExactly(cfg: Config, states: seq<System>, steps: seq<Step>, n: nat, id: nat, k: string)
    requires IsRun(cfg, states, steps) && n < |states| && id in states[n].calls && !states[n].calls[id].Stopped?
    ensures Leaked(states[n].calls[id], k) <==> exists m: nat :: m < n && LeaksAt(states, steps, id, k, m)
  {
    hide Advance, Leaked, IsStart, EnvOk, FailsAfterKey, Held, Finished;
    assert n > 0;
    var s, s', step := states[n - 1], states[n], steps[n - 1];
    assert Next(cfg, s, states[n - 1 + 1], step);
    if id in s.calls {
      if step.Run? {
        StoppedStays(cfg, s.calls[step.id], s.shared, step.env);
      }
      LeakExactly(cfg, states, steps, n - 1, id, k);
      if step.Run? && step.id == id {
        StepLeaks(cfg, s.calls[id], s.shared, step.env, k);
        assert s' == states[n - 1 + 1];
        if Leaked(s'.calls[id], k) && !Leaked(s.calls[id], k) {
          assert LeaksAt(states, steps, id, k, n - 1);
        }
      }
    } else {
      StartsClean(step.call, k);
      NotYetBegun(cfg, states, steps, n - 1, id, k);
    }
  }

  lemma StoppedStays(cfg: Config, call: Call, sh: Shared, env: Env)
    ensures call.Stopped? ==> Advance(cfg, call, sh, env).0.Stopped?
  {
  }

  lemma StartsClean(call: Call, k: string)
    ensures IsStart(call) ==> !Leaked(call, k)
  {
  }

  lemma {:induction false} NotYetBegun(cfg: Config, states: seq<System>, steps: seq<Step>, n: nat, id: nat, k: string)
    requires IsRun(cfg, states, steps) && n < |states| && id !in states[n].calls
    ensures forall m: nat :: m < n ==> !LeaksAt(states, steps, id, k, m)
  {
    hide LeaksAt;
    forall m: nat | m < n ensures !LeaksAt(states, steps, id, k, m) {
      if LeaksAt(states, steps, id, k, m) {
        LeakIsOwnStep(states, steps, id, k, m);
        CallsStay(cfg, states, steps, m, n, id);
      }
    }
  }

  lemma LeakIsOwnStep(states: seq<System>, steps: seq<Step>, id: nat, k: string, m: nat)
    requires LeaksAt(states, steps, id, k, m)
    ensures m < |steps| && steps[m].Run? && steps[m].id == id
  {
  }

  /** As long as the run goes on, the leaked file stays and no row names it. */
  lemma LeakedKeyStays(cfg: Config, states: seq<System>, steps: seq<Step>, n: nat, id: nat, k: string)
    requires IsRun(cfg, states, steps) && n < |states| && id in states[n].calls && Leaked(states[n].calls[id], k)
    ensures k in states[n].shared.keys && k !in Referenced(states[n].shared.db)
  {
    hide SharedOk, CallOk, Accounted, Referenced, IsRun;
    RunInv(cfg, states, steps, n);
    RunMembers(states[n], id);
    assert k in Held(states[n].calls[id]);
  }

  // ---------------------------------------------------------------- every written key file

  ghost predicate WritesAt(states: seq<System>, steps: seq<Step>, id: nat, k: string, m: nat) {
    && m < |steps| && m + 1 < |states| && steps[m].Run? && steps[m].id == id
    && k !in states[m].shared.keys && k in states[m + 1].shared.keys
  }

  ghost predicate DeletesAt(states: seq<System>, steps: seq<Step>, id: nat, k: string, d: nat) {
    && d < |steps| && d + 1 < |states| && steps[d].Run? && steps[d].id == id
    && k in states[d].shared.keys && k !in states[d + 1].shared.keys
  }

  /** What one own step does to a key: a new file is held; a held one stays held, is named by the row
      that the step writes, or is deleted. */
  lemma OwnStepKeys(cfg: Config, s: System, id: nat, env: Env, k: string)
    requires Inv(s) && id in s.calls && EnvOk(env)
    ensures var (call', sh') := Advance(cfg, s.calls[id], s.shared, env);
            && (k !in s.shared.keys && k in sh'.keys ==> k in Held(call'))
            && (k in Held(s.calls[id]) ==>
                  k in s.shared.keys && (k in Held(call') || k !in sh'.keys || HasWritten(call')))
  {
    hide Advance, SharedOk, CallOk, Accounted, Referenced, Held, HasWritten, Grows, TablesKept;
    RunMembers(s, id);
    AdvanceOk(cfg, s.calls[id], s.shared, env);
    StepTables(cfg, s.calls[id], s.shared, env);
  }

  /** A key file that a call wrote is held by the call, was deleted by a later step of the call, or
      the call has written its row. */
  lemma {:induction false} WrittenKeyFate(cfg: Config, states: seq<System>, steps: seq<Step>, n: nat, id: nat,
                                          k: string, m: nat)
    requires IsRun(cfg, states, steps) && m < n < |states| && WritesAt(states, steps, id, k, m)
    requires id in states[n].calls && !states[n].calls[id].Stopped?
    ensures k in Held(states[n].calls[id]) || HasWritten(states[n].calls[id])
            || exists d: nat :: m < d < n && DeletesAt(states, steps, id, k, d)
  {
    hide Advance, SharedOk, CallOk, Accounted, EnvOk, HasWritten, Finished, Held, TablesKept;
    var s, s', step := states[n - 1], states[n], steps[n - 1];
    assert Next(cfg, s, states[n - 1 + 1], step);
    RunInv(cfg, states, steps, n - 1);
    if m == n - 1 {
      OwnStepKeys(cfg, s, id, step.env, k);
    } else {
      assert id in s.calls by { CallsStay(cfg, states, steps, m, n - 1, id); }
      if step.Run? && step.id == id {
        OwnStepKeys(cfg, s, id, step.env, k);
        RunMembers(s, id);
        StepTables(cfg, s.calls[id], s.shared, step.env);
        WrittenKeyFate(cfg, states, steps, n - 1, id, k, m);
        if k in Held(s.calls[id]) && k !in s'.shared.keys {
          assert DeletesAt(states, steps, id, k, n - 1);
        }
      } else {
        WrittenKeyFate(cfg, states, steps, n - 1, id, k, m);
      }
    }
  }

  lemma HoldsOnlyLeak(call: Call, k: string)
    requires Finished(call) && !call.Stopped? && k in Held(call)
    ensures Leaked(call, k)
  {
  }

  /** A finished call that wrote no row, failed then, deleted by a later step of its own every key
      file it wrote, except exactly the one of the failing step above. */
  lemma FailedCallCleansUp(cfg: Config, states: seq<System>, steps: seq<Step>, n: nat, id: nat, k: string, m: nat)
    requires IsRun(cfg, states, steps) && m < n < |states| && WritesAt(states, steps, id, k, m)
    requires id in states[n].calls && !states[n].calls[id].Stopped?
    requires Finished(states[n].calls[id]) && !HasWritten(states[n].calls[id])
    ensures (exists d: nat :: m < d < n && DeletesAt(states, steps, id, k, d))
            || (exists l: nat :: l < n && LeaksAt(states, steps, id, k, l))
  {
    hide IsRun, HasWritten, Held, WritesAt, DeletesAt, LeaksAt, Finished;
    WrittenKeyFate(cfg, states, steps, n, id, k, m);
    LeakExactly(cfg, states, steps, n, id, k);
    if k in Held(states[n].calls[id]) {
      HoldsOnlyLeak(states[n].calls[id], k);
    }
  }

  /** Without a leak a failed IssueCertificate always cleans up. */
  lemma FailedIssueCleansUp(cfg: Config, states: seq<System>, steps: seq<Step>, n: nat, id: nat, k: string, m: nat)
    returns (d: nat)
    requires IsRun(cfg, states, steps) && m < n < |states| && WritesAt(states, steps, id, k, m)
    requires id in states[n].calls && states[n].calls[id].Issuing?
    requires states[n].calls[id].issue.IssueDone? && states[n].calls[id].issue.result.Err?
    ensures m < d < n && DeletesAt(states, steps, id, k, d)
  {
    hide IsRun, Held, WritesAt, DeletesAt;
    WrittenKeyFate(cfg, states, steps, n, id, k, m);
    assert Held(states[n].calls[id]) == {} by { DoneIssueHoldsNothing(states[n].calls[id].issue); }
    d :| m < d < n && DeletesAt(states, steps, id, k, d);
  }

  lemma DoneIssueHoldsNothing(c: I.IssueCall)
    requires c.IssueDone?
    ensures Held(Issuing(c)) == {}
  {
  }

  // ---------------------------------------------------------------- an example

  const SAMPLE_KEY_ID: string := "0123456789abcdef0123456789abcdef"

  /** A request for a root, and an environment that gives no serial number. */
  const ROOT_REQUEST := C.CreateRequest([0x52], "", Profiles.Chosen(MLDSA87),
                                        Names.EMPTY_NAME.(commonName := [0x52]), 0, [1], [])
  const NO_SERIAL := Env(0, Some(SAMPLE_KEY_ID), 0, true, None, None)

  const EMPTY := Shared(DB(map[], map[], []), map[], map[], 0)
  const ROOT_PLAN := C.CAPlan(ROOT_REQUEST, MLDSA87, Profiles.ROOT_VALIDITY_DAYS, None, 0, -Profiles.CLOCK_SKEW,
                              Profiles.AddDays(0, Profiles.ROOT_VALIDITY_DAYS))
  const ONE_KEY := map[SAMPLE_KEY_ID := SealedKey(PrivateKey(MLDSA87, 0), [1])]

  lemma NameIsKept()
    ensures NameText.TrimSpace([0x52]) == [0x52]
  {
  }

  lemma ExampleSteps()
    ensures EnvOk(NO_SERIAL) && NO_SERIAL.now == 0
    ensures C.CheckRequest(ROOT_REQUEST, EMPTY.db)
            == C.CreateChecked(ROOT_REQUEST, MLDSA87, Profiles.ROOT_VALIDITY_DAYS, None)
    ensures C.PlanValidity(ROOT_REQUEST, MLDSA87, Profiles.ROOT_VALIDITY_DAYS, None, 0) == C.CreatePlanned(ROOT_PLAN)
    ensures C.GenerateStep(ROOT_PLAN, map[], NO_SERIAL) == (C.CreateDone(Err(Other), Some(SAMPLE_KEY_ID)), ONE_KEY)
  {
    hide NameText.TrimSpace;
    NameIsKept();
  }

  /** A run in which a root's serial number fails and its key file stays, named by no row. */
  lemma LeakExample(cfg: Config) returns (states: seq<System>, steps: seq<Step>)
    ensures IsRun(cfg, states, steps) && |states| == 5
    ensures 0 in states[4].calls && states[4].calls[0] == Creating(C.CreateDone(Err(Other), Some(SAMPLE_KEY_ID)))
    ensures SAMPLE_KEY_ID in states[4].shared.keys && SAMPLE_KEY_ID !in Referenced(states[4].shared.db)
  {
    hide C.CheckRequest, C.PlanValidity, C.GenerateStep, EnvOk, ROOT_REQUEST, ROOT_PLAN, NO_SERIAL;
    ExampleSteps();
    var c0 := C.CreateStart(ROOT_REQUEST);
    var c1 := C.CreateChecked(ROOT_REQUEST, MLDSA87, Profiles.ROOT_VALIDITY_DAYS, None);
    var c2 := C.CreatePlanned(ROOT_PLAN);
    var c3 := C.CreateDone(Err(Other), Some(SAMPLE_KEY_ID));
    var run := Run(0, NO_SERIAL);
    var s0, s1, s2 := System(EMPTY, map[]), System(EMPTY, map[0 := Creating(c0)]),
        System(EMPTY, map[0 := Creating(c1)]);
    var s3, s4 := System(EMPTY, map[0 := Creating(c2)]), System(EMPTY.(keys := ONE_KEY), map[0 := Creating(c3)]);
    NextBegin(cfg, s0, c0);
    NextRun(cfg, s1, c0, c1, EMPTY);
    NextRun(cfg, s2, c1, c2, EMPTY);
    NextRun(cfg, s3, c2, c3, EMPTY.(keys := ONE_KEY));
    states, steps := [s0, s1, s2, s3, s4], [Begin(0, Creating(c0)), run, run, run];
  }

  lemma NextBegin(cfg: Config, s: System, c: C.CreateCall)
    requires s.calls == map[] && c.CreateStart?
    ensures Next(cfg, s, s.(calls := map[0 := Creating(c)]), Begin(0, Creating(c)))
  {
    assert map[][0 := Creating(c)] == map[0 := Creating(c)];
  }

  lemma NextRun(cfg: Config, s: System, c: C.CreateCall, c': C.CreateCall, sh': Shared)
    requires s.calls == map[0 := Creating(c)] && EnvOk(NO_SERIAL)
    requires C.AdvanceCreate(c, s.shared, NO_SERIAL) == (c', sh')
    ensures Next(cfg, s, System(sh', map[0 := Creating(c')]), Run(0, NO_SERIAL))
  {
    hide C.AdvanceCreate, EnvOk;
    assert s.calls[0 := Creating(c')] == map[0 := Creating(c')];
  }
}
