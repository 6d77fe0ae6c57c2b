/** Approving, denying, expiring and executing requests, with every step audited. */
module ApprovalFlow {
  import opened Wrappers
  import opened Identity
  import opened Approvals
  import A = Audit
  import S = ApprovalStore
  import opened ApprovalLaws

  // ---- what is asked of the outside ------------------------------------------------------------

  /** The gate, run from fresh facts: there may be none, it may not get as far as deciding, or it decides. */
  datatype GateAnswer = NoGate | NoDecision | Answer(allowed: bool, tier: int, withProof: bool)

  predicate Allows(gate: GateAnswer, tier: int) { gate.Answer? && gate.allowed && gate.tier == tier }

  /** What one attempt at executing meets: clock readings, the gate, the target's answers, and the texts left on the
      request when it is cancelled or done. */
  datatype Attempt = Attempt(
    looked: real, expiring: real, gate: GateAnswer, dryRunOk: bool, claiming: real, executeOk: bool, verified: bool,
    why: string, summary: string)

  datatype Refusal = Refused(error: Error) | GateRefused

  datatype Execution = Execution(executed: bool, status: Status)

  // ---- what is written -------------------------------------------------------------------------

  function Line(r: Request, id: int, kind: A.Kind, stage: A.Stage): A.Note {
    A.Note(kind, r.fingerprint, r.executionId, stage, Some(id), None, None)
  }

  function ExpiredLine(s: Store, id: int): A.Note
    requires s.Has(id)
  {
    Line(s.Row(id), id, A.Kind.Expired, A.Stage.Approval)
  }

  function ExpiredLines(s: Store, ids: seq<int>): (r: seq<A.Note>)
    requires forall id | id in ids :: s.Has(id)
    ensures |r| == |ids|
  {
    if ids == [] then []
    else
      assert ids[|ids| - 1] in ids;
      ExpiredLines(s, ids[..|ids| - 1]) + [ExpiredLine(s, ids[|ids| - 1])]
  }

  function RefusedLine(r: Request, id: int, status: Status): A.Note {
    Line(r, id, A.Rejected, A.ApprovalExecuteRefused).(status := Some(status))
  }

  function GateLines(r: Request, id: int, gate: GateAnswer, stage: A.Stage): seq<A.Note> {
    if !gate.Answer? then []
    else
      [Line(r, id, A.GateDecision, stage).(ok := Some(gate.allowed))]
      + if gate.withProof then [Line(r, id, A.Proposal, A.HolderProof)] else []
  }

  // ---- deciding --------------------------------------------------------------------------------

  /** Whether the gate has to be asked before this vote: only when the store would otherwise record it. */
  predicate Prechecked(u: Tables, s: Store, id: int, approver: string, vote: Vote, looked: real) {
    && vote == Approve && s.Has(id) && Normalize(u, approver).Ok?
    && s.Row(id).status == Pending && looked < s.Row(id).expiresAt
    && Normalize(u, approver).value != s.Row(id).requestedBy && !Decided(s.decisions, id, Normalize(u, approver).value)
  }

  function DecideLines(r: Request, id: int, after: Status): seq<A.Note> {
    [Line(r, id, A.Proposal, A.ApprovalDecision).(status := Some(after))]
    + if after == Denied then [Line(r, id, A.Rejected, A.ApprovalDenied)] else []
  }

  function RefusalLines(s: Store, id: int, e: Error): seq<A.Note> {
    if !s.Has(id) then []
    else if e == PastDeadline then [ExpiredLine(s, id)]
    else [Line(s.Row(id), id, A.Rejected, A.ApprovalRefused)]
  }

  function SettledLines(s: Store, id: int, result: Result<Request, Error>): seq<A.Note> {
    match result
    case Err(e) => RefusalLines(s, id, e)
    case Ok(r) => DecideLines(r, id, r.status)
  }

  function Settled(result: Result<Request, Error>): Result<Request, Refusal> {
    match result
    case Err(e) => Err(Refused(e))
    case Ok(r) => Ok(r)
  }

  function AskedLines(u: Tables, s: Store, id: int, approver: string, vote: Vote, gate: GateAnswer, looked: real): seq<A.Note> {
    if Prechecked(u, s, id, approver, vote, looked) then GateLines(s.Row(id), id, gate, A.ApprovalPrecheck) else []
  }

  predicate Refuses(u: Tables, s: Store, id: int, approver: string, vote: Vote, gate: GateAnswer, looked: real) {
    Prechecked(u, s, id, approver, vote, looked) && !Allows(gate, s.Row(id).tier)
  }

  function DecideCall(u: Tables, s: Store, id: int, approver: string, vote: Vote, gate: GateAnswer, looked: real, checked: real, recorded: real)
    : (Store, seq<A.Note>, Result<Request, Refusal>)
  {
    var asked := AskedLines(u, s, id, approver, vote, gate, looked);
    if Refuses(u, s, id, approver, vote, gate, looked) then
      (s, asked + [Line(s.Row(id), id, A.Rejected, A.ApprovalRefused)], Err(GateRefused))
    else
      var (s', result) := Decide(u, s, id, approver, vote, checked, recorded);
      (s', asked + SettledLines(s', id, result), Settled(result))
  }

  // ---- expiring --------------------------------------------------------------------------------

  lemma DueAreThere(s: Store, now: real)
    ensures var (s', ids) := ExpireDue(s, now); forall id | id in ids :: s'.Has(id)
  {
    S.DueIdsAre(s.requests, now);
  }

  function ExpireCall(s: Store, now: real): (Store, seq<A.Note>) {
    DueAreThere(s, now);
    var (s', ids) := ExpireDue(s, now);
    (s', ExpiredLines(s', ids))
  }

  // ---- executing -------------------------------------------------------------------------------

  function StatusAfterCancel(s: Store, id: int, why: string): (Store, Status)
    requires s.Has(id)
  {
    var (s', _) := Cancel(s, id, why);
    (s', s'.Row(id).status)
  }

  /** After the claim: the target is asked only by the caller whose claim went through. */
  function ClaimedCall(s: Store, id: int, r: Request, claimed: Result<Request, Error>, a: Attempt): (Store, seq<A.Note>, Execution)
    requires s.Has(id)
  {
    match claimed
    case Err(e) => (s, UnclaimedLines(s, id, r, e), Execution(false, s.Row(id).status))
    case Ok(_) => (SetNote(s, id, a.summary), ExecuteLines(r, id, a), Execution(a.executeOk && a.verified, Executed))
  }

  function UnclaimedLines(s: Store, id: int, r: Request, e: Error): seq<A.Note>
    requires s.Has(id)
  {
    (if e == PastDeadline then [ExpiredLine(s, id)] else []) + [RefusedLine(r, id, s.Row(id).status)]
  }

  function CancelledCall(s: Store, id: int, why: string): (Store, seq<A.Note>, Execution)
    requires s.Has(id)
  {
    var (s', status) := StatusAfterCancel(s, id, why);
    (s', [RefusedLine(s.Row(id), id, status)], Execution(false, status))
  }

  function DryRunLines(r: Request, id: int, ok: bool): seq<A.Note> {
    [Line(r, id, A.Execution, A.DryRun).(ok := Some(ok))] + if ok then [] else [Line(r, id, A.Failed, A.DryRun)]
  }

  /** From the dry run on. */
  function RunCall(u: Tables, s: Store, id: int, a: Attempt): (Store, seq<A.Note>, Execution)
    requires s.Has(id)
  {
    var (s', claimed) := Claim(u, s, id, a.claiming);
    var (after, lines, done) := if a.dryRunOk then ClaimedCall(s', id, s.Row(id), claimed, a) else CancelledCall(s, id, a.why);
    (after, DryRunLines(s.Row(id), id, a.dryRunOk) + lines, done)
  }

  function ExecuteLines(r: Request, id: int, a: Attempt): seq<A.Note> {
    [Line(r, id, A.Execution, A.Execute).(ok := Some(a.executeOk))]
    + if !a.executeOk then [Line(r, id, A.Failed, A.Execute)]
      else
        [Line(r, id, A.Verification, A.Result).(ok := Some(a.verified))]
        + if a.verified then [Line(r, id, A.Verification, A.Closed)] else []
  }

  predicate Runnable(u: Tables, s: Store, id: int, gate: GateAnswer)
    requires s.Has(id)
  {
    s.Row(id).status == Approved && |ApproversOf(u, s, id)| >= Required(s.Row(id).tier) && !gate.NoGate?
  }

  /** From the status check on. */
  function CheckedCall(u: Tables, s: Store, id: int, a: Attempt): (Store, seq<A.Note>, Execution)
    requires s.Has(id)
  {
    var r := s.Row(id);
    if !Runnable(u, s, id, a.gate) then (s, [RefusedLine(r, id, r.status)], Execution(false, r.status))
    else
      var (s', lines, done) := if Allows(a.gate, r.tier) then RunCall(u, s, id, a) else CancelledCall(s, id, a.why);
      (s', GateLines(r, id, a.gate, A.ApprovalRecheck) + lines, done)
  }

  function ExecuteCall(u: Tables, s: Store, id: int, a: Attempt): (Store, seq<A.Note>, Result<Execution, Refusal>) {
    if !s.Has(id) then (s, [], Err(Refused(UnknownRequest)))
    else
      var (s1, expired) := if Due(s.Row(id), a.looked) then ExpireCall(s, a.expiring) else (s, []);
      var (s2, lines, done) := CheckedCall(u, s1, id, a);
      (s2, expired + lines, Ok(done))
  }

  lemma RowHolds(s: Store, id: int)
    requires Inv(s) && s.Has(id)
    ensures RowChecks(s.Row(id)) && s.Row(id).required == Required(s.Row(id).tier)
  {}

  // ---- the service -----------------------------------------------------------------------------

  class ApprovalService {
    const store: S.ApprovalStore
    const log: A.AuditLog

    ghost predicate Valid()
      reads this, store, log
    {
      store.Valid() && log.Valid()
    }

    constructor (store: S.ApprovalStore, log: A.AuditLog)
      ensures this.store == store && this.log == log
    {
      this.store, this.log := store, log;
    }

    /** The gate's decision and proof, audited. */
    method WriteGate(r: Request, id: int, gate: GateAnswer, stage: A.Stage)
      requires log.Valid()
      modifies log
      ensures log.Valid() && log.Lines() == old(log.Lines()) + GateLines(r, id, gate, stage)
    {
      if !gate.Answer? { return; }
      log.Write(Line(r, id, A.GateDecision, stage).(ok := Some(gate.allowed)));
      if gate.withProof { log.Write(Line(r, id, A.Proposal, A.HolderProof)); }
    }

    method Vote(id: int, approver: string, vote: Vote, gate: GateAnswer, looked: real, checked: real, recorded: real)
      returns (r: Result<Request, Refusal>)
      requires Valid()
      modifies store, log
      ensures Valid()
      ensures var call := DecideCall(store.u, old(store.Contents()), id, approver, vote, gate, looked, checked, recorded);
        store.Contents() == call.0 && log.Lines() == old(log.Lines()) + call.1 && r == call.2
    {
      hide Inv, Decide, AskedLines, SettledLines, Refuses;
      var refused := Precheck(id, approver, vote, gate, looked);
      if refused {
        log.Write(Line(store.requests[id - 1], id, A.Rejected, A.ApprovalRefused));
        return Err(GateRefused);
      }
      var decided := store.Vote(id, approver, vote, checked, recorded);
      WriteSettled(id, decided);
      return Settled(decided);
    }

    method Precheck(id: int, approver: string, vote: Vote, gate: GateAnswer, looked: real) returns (refused: bool)
      requires log.Valid()
      modifies log
      ensures log.Valid()
      ensures log.Lines() == old(log.Lines()) + AskedLines(store.u, store.Contents(), id, approver, vote, gate, looked)
      ensures refused == Refuses(store.u, store.Contents(), id, approver, vote, gate, looked)
      ensures refused ==> store.Contents().Has(id)
    {
      if !Prechecked(store.u, store.Contents(), id, approver, vote, looked) { return false; }
      var req := store.requests[id - 1];
      WriteGate(req, id, gate, A.ApprovalPrecheck);
      return !Allows(gate, req.tier);
    }

    method WriteSettled(id: int, decided: Result<Request, Error>)
      requires log.Valid()
      modifies log
      ensures log.Valid() && log.Lines() == old(log.Lines()) + SettledLines(store.Contents(), id, decided)
    {
      match decided
      case Err(e) => WriteRefusal(id, e);
      case Ok(r) =>
        log.Write(Line(r, id, A.Proposal, A.ApprovalDecision).(status := Some(r.status)));
        if r.status == Denied { log.Write(Line(r, id, A.Rejected, A.ApprovalDenied)); }
    }

    method WriteRefusal(id: int, e: Error)
      requires log.Valid()
      modifies log
      ensures log.Valid() && log.Lines() == old(log.Lines()) + RefusalLines(store.Contents(), id, e)
    {
      var found := store.Get(id);
      if found.Err? { return; }
      if e == PastDeadline {
        log.Write(Line(found.value, id, A.Kind.Expired, A.Stage.Approval));
      } else {
        log.Write(Line(found.value, id, A.Rejected, A.ApprovalRefused));
      }
    }

    method ExpireCheck(now: real)
      requires Valid()
      modifies store, log
      ensures Valid()
      ensures var call := ExpireCall(old(store.Contents()), now);
        store.Contents() == call.0 && log.Lines() == old(log.Lines()) + call.1
      ensures |store.requests| == old(|store.requests|)
    {
      DueAreThere(store.Contents(), now);
      var ids := store.Expire(now);
      WriteExpired(ids);
    }

    method WriteExpired(ids: seq<int>)
      requires log.Valid() && forall id | id in ids :: store.Contents().Has(id)
      modifies log
      ensures log.Valid() && log.Lines() == old(log.Lines()) + ExpiredLines(store.Contents(), ids)
    {
      ghost var s := store.Contents();
      for i := 0 to |ids|
        invariant log.Valid() && (forall id | id in ids[..i] :: s.Has(id))
        invariant log.Lines() == old(log.Lines()) + ExpiredLines(s, ids[..i])
      {
        assert ids[i] in ids && ids[..i + 1][..i] == ids[..i];
        log.Write(Line(store.requests[ids[i] - 1], ids[i], A.Kind.Expired, A.Stage.Approval));
      }
      assert ids[..|ids|] == ids;
    }

    /** Close the request if it is open, and audit that nothing was executed. */
    method CancelAndRefuse(id: int, why: string) returns (done: Execution)
      requires Valid() && store.Contents().Has(id)
      modifies store, log
      ensures Valid()
      ensures var call := CancelledCall(old(store.Contents()), id, why);
        store.Contents() == call.0 && log.Lines() == old(log.Lines()) + call.1 && done == call.2
    {
      var req := store.requests[id - 1];
      var closed := store.Close(id, why);
      var status := store.requests[id - 1].status;
      log.Write(RefusedLine(req, id, status));
      return Execution(false, status);
    }

    method Execute(id: int, a: Attempt) returns (r: Result<Execution, Refusal>)
      requires Valid()
      modifies store, log
      ensures Valid()
      ensures var call := ExecuteCall(store.u, old(store.Contents()), id, a);
        store.Contents() == call.0 && log.Lines() == old(log.Lines()) + call.1 && r == call.2
    {
      hide Inv, ExpireCall, CheckedCall;
      var found := store.Get(id);
      if found.Err? { return Err(Refused(found.error)); }
      if Due(found.value, a.looked) { ExpireCheck(a.expiring); }
      var done := ExecuteChecked(id, a);
      return Ok(done);
    }

    method ExecuteChecked(id: int, a: Attempt) returns (done: Execution)
      requires Valid() && store.Contents().Has(id)
      modifies store, log
      ensures Valid()
      ensures var call := CheckedCall(store.u, old(store.Contents()), id, a);
        store.Contents() == call.0 && log.Lines() == old(log.Lines()) + call.1 && done == call.2
    {
      hide Inv, RunCall, CancelledCall, GateLines, Approvers;
      RowHolds(store.Contents(), id);
      var req := store.requests[id - 1];
      var seen := store.GetApprovers(id);
      if req.status != Approved || |seen| < req.required || a.gate.NoGate? {
        log.Write(RefusedLine(req, id, req.status));
        return Execution(false, req.status);
      }
      WriteGate(req, id, a.gate, A.ApprovalRecheck);
      if !Allows(a.gate, req.tier) {
        done := CancelAndRefuse(id, a.why);
      } else {
        done := Run(id, a);
      }
    }

    method Run(id: int, a: Attempt) returns (done: Execution)
      requires Valid() && store.Contents().Has(id)
      modifies store, log
      ensures Valid()
      ensures var call := RunCall(store.u, old(store.Contents()), id, a);
        store.Contents() == call.0 && log.Lines() == old(log.Lines()) + call.1 && done == call.2
    {
      hide Inv, Claim, ClaimedCall, CancelledCall;
      var req := store.requests[id - 1];
      log.Write(Line(req, id, A.Execution, A.DryRun).(ok := Some(a.dryRunOk)));
      if !a.dryRunOk {
        log.Write(Line(req, id, A.Failed, A.DryRun));
        done := CancelAndRefuse(id, a.why);
        return;
      }
      var claimed := store.ClaimForExecution(id, a.claiming);
      done := RunClaimed(req, id, claimed, a);
    }

    method RunClaimed(req: Request, id: int, claimed: Result<Request, Error>, a: Attempt) returns (done: Execution)
      requires Valid() && store.Contents().Has(id)
      modifies store, log
      ensures Valid()
      ensures var call := ClaimedCall(old(store.Contents()), id, req, claimed, a);
        store.Contents() == call.0 && log.Lines() == old(log.Lines()) + call.1 && done == call.2
    {
      if claimed.Err? {
        var now := store.requests[id - 1];
        if claimed.error == PastDeadline { log.Write(Line(now, id, A.Kind.Expired, A.Stage.Approval)); }
        log.Write(RefusedLine(req, id, now.status));
        return Execution(false, now.status);
      }
      WriteExecution(req, id, a);
      store.Annotate(id, a.summary);
      return Execution(a.executeOk && a.verified, Executed);
    }

    method WriteExecution(req: Request, id: int, a: Attempt)
      requires log.Valid()
      modifies log
      ensures log.Valid() && log.Lines() == old(log.Lines()) + ExecuteLines(req, id, a)
    {
      log.Write(Line(req, id, A.Execution, A.Execute).(ok := Some(a.executeOk)));
      if !a.executeOk {
        log.Write(Line(req, id, A.Failed, A.Execute));
        return;
      }
      log.Write(Line(req, id, A.Verification, A.Result).(ok := Some(a.verified)));
      if a.verified { log.Write(Line(req, id, A.Verification, A.Closed)); }
    }
  }
}
