/** A revocation that has returned is on every list that is asked for afterwards, with its reason
    and its time. */
module Revocations {
  import opened Prelude
  import opened Stores
  import opened EngineStates
  import opened RevocationLists
  import opened Systems
  import opened Invariants
  import opened Preservation
  import opened Theorems
  import opened Requests
  import opened CrlCalls
  import opened Times
  import R = RevokeCalls

  /** What a Revoke call has read or written with the clock reading `at`. */
  predicate StampedWith(c: R.RevokeCall, serial: string, at: int, db: DB) {
    match c
    case RevokeTimed(s, _, _, t) => s == serial && t == at
    case RevokeInvalidate(_) => serial in db.certs && db.certs[serial].revokedAt == Some(at)
    case RevokeDone(error) => error.None? ==> serial in db.certs && db.certs[serial].revokedAt == Some(at)
    case _ => true
  }

  predicate HasTime(c: R.RevokeCall) {
    c.RevokeTimed? || c.RevokeInvalidate? || (c.RevokeDone? && c.error.None?)
  }

  lemma RevokeStepTime(c: R.RevokeCall, sh: Shared, env: Env, serial: string, at: int)
    requires StampedWith(c, serial, at, sh.db)
    ensures var (c', sh') := R.AdvanceRevoke(c, sh, env);
            HasTime(c) ==> StampedWith(c', serial, at, sh'.db)
  {
    hide Lower, R.IsReason, Truncate;
  }

  /** Step t of the run is where the call reads the clock, having found the row of `serial`. */
  ghost predicate ReadsClockAt(states: seq<System>, steps: seq<Step>, id: nat, serial: string, t: nat) {
    && t < |steps| && t < |states| && steps[t].Run? && steps[t].id == id
    && id in states[t].calls && states[t].calls[id].Revoking?
    && states[t].calls[id].revoke.RevokeFound? && states[t].calls[id].revoke.serial == serial
  }

  /** The call began with this request, and what it has done answers it. */
  ghost predicate BeganAt(states: seq<System>, steps: seq<Step>, n: nat, id: nat, m: nat) {
    && m < |steps| && n < |states| && id in states[n].calls
    && steps[m].Begin? && steps[m].id == id
    && steps[m].call.Revoking? && steps[m].call.revoke.RevokeStart?
    && Answers(states[n].calls[id], steps[m].call, states[n].shared.db)
  }

  lemma StampStays(c: R.RevokeCall, first: R.RevokeCall, at: int, db: DB, db': DB)
    requires first.RevokeStart? && Answers(Revoking(c), Revoking(first), db) && TablesKept(db, db')
    requires StampedWith(c, Lower(first.serial), at, db)
    ensures StampedWith(c, Lower(first.serial), at, db')
  {
    hide Lower;
  }

  lemma FoundSerial(c: R.RevokeCall, first: R.RevokeCall, db: DB)
    requires first.RevokeStart? && Answers(Revoking(c), Revoking(first), db) && c.RevokeFound?
    ensures c.serial == Lower(first.serial)
  {
    hide Lower;
  }

  lemma AdvanceRevoking(cfg: Config, c: R.RevokeCall, sh: Shared, env: Env)
    ensures Advance(cfg, Revoking(c), sh, env)
            == (Revoking(R.AdvanceRevoke(c, sh, env).0), R.AdvanceRevoke(c, sh, env).1)
  {
  }

  lemma StartHasNoTime(call: Call)
    requires IsStart(call) && call.Revoking?
    ensures !HasTime(call.revoke)
  {
  }

  lemma KindStays(cfg: Config, call: Call, sh: Shared, env: Env)
    ensures Advance(cfg, call, sh, env).0.Revoking? <==> call.Revoking?
  {
  }

  /** The time of a revocation is one reading of the clock, by a step of the call's own. */
  lemma {:induction false} RevocationTime(cfg: Config, states: seq<System>, steps: seq<Step>, n: nat, id: nat)
    returns (m: nat, t: nat)
    requires IsRun(cfg, states, steps) && n < |states|
    requires id in states[n].calls && states[n].calls[id].Revoking? && HasTime(states[n].calls[id].revoke)
    ensures m < n && t < n && BeganAt(states, steps, n, id, m)
    ensures ReadsClockAt(states, steps, id, Lower(steps[m].call.revoke.serial), t)
    ensures StampedWith(states[n].calls[id].revoke, Lower(steps[m].call.revoke.serial), Truncate(steps[t].env.now),
                        states[n].shared.db)
  {
    hide Advance, SharedOk, CallOk, Accounted, EnvOk, Held, TablesKept, HasWritten, StampedWith, Answers, Truncate,
         Lower, HasTime, IsStart, Finished;
    assert n > 0;
    var s, s', step := states[n - 1], states[n], steps[n - 1];
    assert Next(cfg, s, states[n - 1 + 1], step);
    RunInv(cfg, states, steps, n - 1);
    if step.Begin? && step.id == id {
      StartHasNoTime(step.call);
    } else if step.Run? && step.id == id {
      KindStays(cfg, s.calls[id], s.shared, step.env);
      var c := s.calls[id].revoke;
      AdvanceRevoking(cfg, c, s.shared, step.env);
      if c.RevokeFound? {
        m := CallsAnswer(cfg, states, steps, n - 1, id);
        AnsweredKind(s.calls[id], steps[m].call, s.shared.db);
        FoundSerial(c, steps[m].call.revoke, s.shared.db);
        t := n - 1;
        FoundIsStamped(c, s.shared, step.env);
      } else {
        TimeComesFromFound(c, s.shared, step.env);
        m, t := RevocationTime(cfg, states, steps, n - 1, id);
        RevokeStepTime(c, s.shared, step.env, Lower(steps[m].call.revoke.serial), Truncate(steps[t].env.now));
      }
      StepAnswers(cfg, s.calls[id], steps[m].call, s.shared, step.env);
    } else {
      m, t := RevocationTime(cfg, states, steps, n - 1, id);
      if step.Run? {
        StepTables(cfg, s.calls[step.id], s.shared, step.env);
        AnswersStable(s.calls[id], steps[m].call, s.shared.db, s'.shared.db);
        StampStays(s.calls[id].revoke, steps[m].call.revoke, Truncate(steps[t].env.now), s.shared.db, s'.shared.db);
      }
    }
  }

  lemma AnsweredKind(call: Call, first: Call, db: DB)
    requires Answers(call, first, db) && call.Revoking?
    ensures first.Revoking? && first.revoke.RevokeStart?
  {
    hide RevokeAnswers;
  }

  lemma FoundIsStamped(c: R.RevokeCall, sh: Shared, env: Env)
    requires c.RevokeFound?
    ensures var (c', sh') := R.AdvanceRevoke(c, sh, env);
            c'.RevokeTimed? && StampedWith(c', c.serial, Truncate(env.now), sh'.db)
  {
    hide Truncate;
  }

  lemma TimeComesFromFound(c: R.RevokeCall, sh: Shared, env: Env)
    requires HasTime(R.AdvanceRevoke(c, sh, env).0)
    ensures c.RevokeFound? || HasTime(c)
  {
    hide Lower, R.IsReason, Truncate;
  }

  lemma {:induction false} CallsRemain(cfg: Config, states: seq<System>, steps: seq<Step>, m: nat, n: nat, id: nat)
    requires IsRun(cfg, states, steps) && m <= n < |states| && id in states[m].calls
    ensures id in states[n].calls
  {
    hide Advance, Stop, IsStart, EnvOk;
    if m < n {
      CallsRemain(cfg, states, steps, m, n - 1, id);
      assert Next(cfg, states[n - 1], states[n - 1 + 1], steps[n - 1]);
    }
  }

  /** The entry for a revocation: the row's number, the call's reason, the time the call read. */
  predicate EntryOfCall(e: RevocationEntry, serial: string, reason: int, at: int) {
    && e.serialNumber > 0 && SerialHex(e.serialNumber) == Lower(serial)
    && e.reasonCode == reason && e.revocationTime == at
  }

  /** Once Revoke has returned success, every CRL call for that CA that begins afterwards and
      succeeds lists the certificate, with the reason that Revoke was given and the time that it
      read: whatever the cache holds, and across restarts. */
  lemma RevokedThenListed(cfg: Config, states: seq<System>, steps: seq<Step>, a: nat, n: nat, r: nat, id: nat)
    returns (m: nat, t: nat, i: nat)
    requires IsRun(cfg, states, steps) && a <= n < |states|
    requires r in states[a].calls && states[a].calls[r].Revoking?
    requires states[a].calls[r].revoke == R.RevokeDone(None)
    requires id !in states[a].calls
    requires id in states[n].calls && states[n].calls[id].Listing?
    requires states[n].calls[id].crl.CrlDone? && states[n].calls[id].crl.result.Ok?
    ensures m < a && BeganAt(states, steps, a, r, m)
    ensures t < a && ReadsClockAt(states, steps, r, Lower(steps[m].call.revoke.serial), t)
    ensures var request, der := steps[m].call.revoke, states[n].calls[id].crl.result.value;
            && Lower(request.serial) in states[a].shared.db.certs
            && ParsedRevocationList(der).Ok?
            && (states[a].shared.db.certs[Lower(request.serial)].caId == states[n].calls[id].crl.snap.ca.id ==>
                  && i < |ParsedRevocationList(der).value.entries|
                  && EntryOfCall(ParsedRevocationList(der).value.entries[i], request.serial, request.reason,
                                 Truncate(steps[t].env.now)))
  {
    hide IsRun, ParsedRevocationList, Answers, StampedWith, HasTime, EntryOfRow, SerialHex, Lower, Truncate, TablesKept,
         Lists, RevokedIn, SharedOk, CallOk, Accounted;
    assert HasTime(states[a].calls[r].revoke) by { DoneHasTime(); }
    m, t := RevocationTime(cfg, states, steps, a, r);
    var request, at := steps[m].call.revoke, Truncate(steps[t].env.now);
    var lower, db := Lower(request.serial), states[a].shared.db;
    DoneIsRevoked(request, at, db);
    RunInv(cfg, states, steps, a);
    SharedRows(states[a].shared);
    RowParents(db, lower);
    var number := db.certs[lower].cert.serialNumber;
    var done := states[n].calls[id].crl;
    var l := EndToEndRevocation(cfg, states, steps, n, id, number);
    ReadIsLater(cfg, states, steps, a, l, id);
    RowsStay(cfg, states, steps, a, l);
    RevokedRowStays(db, states[l].shared.db, lower);
    i := 0;
    if db.certs[lower].caId == done.snap.ca.id {
      var entries := ParsedRevocationList(done.result.value).value.entries;
      StillRevoked(states[l].shared.db, done.snap.ca.id, number, lower);
      i := ListedAt(entries, number);
      EntryMatches(entries[i], states[l].shared.db, done.snap.ca.id, request.serial, request.reason, at);
    }
  }

  lemma DoneHasTime()
    ensures HasTime(R.RevokeDone(None))
  {
  }

  lemma DoneIsRevoked(first: R.RevokeCall, at: int, db: DB)
    requires first.RevokeStart? && Answers(Revoking(R.RevokeDone(None)), Revoking(first), db)
    requires StampedWith(R.RevokeDone(None), Lower(first.serial), at, db)
    ensures RevokedAs(db, Lower(first.serial), first.reason)
    ensures db.certs[Lower(first.serial)].revokedAt == Some(at)
  {
    hide Lower;
  }

  lemma ReadIsLater(cfg: Config, states: seq<System>, steps: seq<Step>, a: nat, l: nat, id: nat)
    requires IsRun(cfg, states, steps) && a < |states| && l < |states|
    requires id in states[l].calls && id !in states[a].calls
    ensures a <= l
  {
    hide IsRun;
    if l < a {
      CallsRemain(cfg, states, steps, l, a, id);
    }
  }

  lemma RevokedRowStays(db: DB, db': DB, serial: string)
    requires TablesKept(db, db') && serial in db.certs && db.certs[serial].status == REVOKED
    ensures serial in db'.certs && db'.certs[serial] == db.certs[serial]
  {
    assert RowKept(db.certs[serial], db'.certs[serial]);
  }

  lemma StillRevoked(db: DB, caId: string, number: nat, serial: string)
    requires serial == SerialHex(number) && serial in db.certs
    requires db.certs[serial].caId == caId && db.certs[serial].status == REVOKED
    ensures RevokedIn(db, caId, number)
  {
    hide SerialHex;
  }

  lemma ListedAt(entries: seq<RevocationEntry>, serial: int) returns (i: nat)
    requires Lists(entries, serial)
    ensures i < |entries| && entries[i].serialNumber == serial
  {
    i :| 0 <= i < |entries| && entries[i].serialNumber == serial;
  }

  lemma EntryMatches(e: RevocationEntry, db: DB, caId: string, serial: string, reason: int, at: int)
    requires EntryOfRow(e, db, caId) && SerialHex(e.serialNumber) == Lower(serial)
    requires Lower(serial) in db.certs
    requires db.certs[Lower(serial)].revokedAt == Some(at) && db.certs[Lower(serial)].revocationReason == Some(reason)
    ensures EntryOfCall(e, serial, reason, at)
  {
    hide SerialHex, Lower, R.IsReason;
  }
}
