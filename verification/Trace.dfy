/** The outcome of a case, told from its audit entries alone. */
module Trace {
  import opened Wrappers
  import opened Audit
  import Approvals

  datatype Outcome =
    | Unknown | PrefilterClosed | Denied | Escalated | Expired | Failed | PrProposed | PrVerified | PrCiFailed | Executed
    | Verified | VerificationFailed | AwaitingApproval | Approved | ApprovalCancelled

  predicate Terminal(kind: Kind, stage: Stage) {
    match kind
    case Rejected =>
      || stage == Prefilter || stage == ApprovalDenied || stage == ApprovalRequest || stage == Reinvestigation
      || stage == Facts || stage == Validation || stage == Gate || stage == Review || stage == DiffCheck
      || stage == Agent || stage == VerificationEscalation
    case Expired => stage == Approval
    case Failed => stage == DryRun || stage == Execute || stage == Stage.PrProposed
    case Execution => stage == Stage.PrProposed || stage == Execute
    case Verification => stage == Closed || stage == Result
    case Proposal => stage == ApprovalRequested || stage == ApprovalDecision
    case _ => false
  }

  predicate CancelsRequest(e: Note) {
    e.kind == Rejected && e.stage == ApprovalExecuteRefused && e.status == Some(Approvals.Cancelled)
  }

  predicate ChangesOutcome(e: Note) { Terminal(e.kind, e.stage) || CancelsRequest(e) }

  /** Where the reading of a log stands: the outcome so far, the latest request opened, the requests with a failed dry
      run, and whether the last cancellation was one of those. */
  datatype Reading = Reading(outcome: Outcome, current: Option<int>, dryRunFailed: set<int>, byDryRun: bool)

  const START := Reading(Unknown, None, {}, false)

  function Remember(r: Reading, e: Note): Reading {
    if e.kind == Proposal && e.stage == ApprovalRequested then r.(current := e.requestId)
    else if e.kind == Kind.Failed && e.stage == DryRun && e.requestId.Some? then
      r.(dryRunFailed := r.dryRunFailed + {e.requestId.value})
    else r
  }

  function OutcomeAfter(before: Outcome, e: Note): Outcome {
    match e.kind
    case Rejected => if e.stage == Prefilter then PrefilterClosed else if e.stage == ApprovalDenied then Denied else Escalated
    case Expired => Outcome.Expired
    case Failed => Outcome.Failed
    case Execution =>
      if e.stage == Stage.PrProposed then Outcome.PrProposed
      else if e.ok == Some(true) then Executed else before
    case Verification =>
      if e.stage == Closed then (if before == Outcome.PrProposed then PrVerified else Verified)
      else if e.ok == Some(false) then (if before == Outcome.PrProposed then PrCiFailed else VerificationFailed)
      else before
    case Proposal =>
      if e.stage == ApprovalRequested then AwaitingApproval
      else if e.status == Some(Approvals.Approved) then Approved else before
    case _ => before
  }

  function Next(before: Reading, e: Note): Reading {
    var r := Remember(before, e);
    if !ChangesOutcome(e) then r
    else if CancelsRequest(e) then
      if r.current.Some? && e.requestId != r.current then r
      else r.(outcome := ApprovalCancelled, byDryRun := e.requestId.Some? && e.requestId.value in r.dryRunFailed)
    else r.(outcome := OutcomeAfter(r.outcome, e))
  }

  function Read(r: Reading, notes: seq<Note>): Reading {
    if notes == [] then r else Next(Read(r, notes[..|notes| - 1]), notes[|notes| - 1])
  }

  lemma {:induction false} ReadTwice(r: Reading, a: seq<Note>, b: seq<Note>)
    ensures Read(Read(r, a), b) == Read(r, a + b)
  {
    if b == [] {
      assert a + b == a;
    } else {
      ReadTwice(r, a, b[..|b| - 1]);
      assert (a + b)[..|a + b| - 1] == a + b[..|b| - 1];
    }
  }

  /** The notes about one execution, in order. */
  function Of(notes: seq<Note>, executionId: string): seq<Note> {
    if notes == [] then []
    else
      var last := notes[|notes| - 1];
      Of(notes[..|notes| - 1], executionId) + (if last.executionId == executionId then [last] else [])
  }

  lemma {:induction false} OfTwice(a: seq<Note>, b: seq<Note>, executionId: string)
    ensures Of(a + b, executionId) == Of(a, executionId) + Of(b, executionId)
  {
    if b == [] {
      assert a + b == a;
    } else {
      OfTwice(a, b[..|b| - 1], executionId);
      assert (a + b)[..|a + b| - 1] == a + b[..|b| - 1];
    }
  }

  method DeriveOutcome(notes: seq<Note>) returns (outcome: Outcome, byDryRun: bool)
    ensures outcome == Read(START, notes).outcome && byDryRun == Read(START, notes).byDryRun
  {
    outcome, byDryRun := Unknown, false;
    var current: Option<int>, dryRunFailed: set<int> := None, {};
    for i := 0 to |notes|
      invariant Reading(outcome, current, dryRunFailed, byDryRun) == Read(START, notes[..i])
    {
      assert notes[..i + 1][..i] == notes[..i];
      var e := notes[i];
      if e.kind == Proposal && e.stage == ApprovalRequested {
        current := e.requestId;
      } else if e.kind == Kind.Failed && e.stage == DryRun && e.requestId.Some? {
        dryRunFailed := dryRunFailed + {e.requestId.value};
      }
      if !ChangesOutcome(e) { continue; }
      if CancelsRequest(e) {
        if current.Some? && e.requestId != current { continue; }
        outcome, byDryRun := ApprovalCancelled, e.requestId.Some? && e.requestId.value in dryRunFailed;
      } else {
        outcome := OutcomeAfter(outcome, e);
      }
    }
    assert notes[..|notes|] == notes;
  }

  /** Refused, repeated and unknown entries change nothing, however many there are. */
  lemma {:induction false} SilentNotes(r: Reading, notes: seq<Note>)
    requires forall e | e in notes :: !ChangesOutcome(e) && !(e.kind == Proposal && e.stage == ApprovalRequested)
    ensures Read(r, notes).outcome == r.outcome && Read(r, notes).current == r.current && Read(r, notes).byDryRun == r.byDryRun
  {
    if notes != [] { SilentNotes(r, notes[..|notes| - 1]); }
  }
}
