/** The append-only audit log. */
module Audit {
  import opened Wrappers
  import Approvals

  datatype Kind = Proposal | GateDecision | Execution | Verification | Rejected | Expired | Failed | BudgetTruncated

  datatype Stage =
    | NoStage | Prefilter | ApprovalDenied | ApprovalRequest | Reinvestigation | Facts | Validation | Gate | Review
    | DiffCheck | Agent | VerificationEscalation | Approval | DryRun | PrProposed | Execute | Closed | Result
    | ApprovalRequested | ApprovalDecision | ApprovalRefused | ApprovalExecuteRefused | ApprovalPrecheck
    | ApprovalRecheck | GateFacts | HolderProof | HistorySkipped | Tier3Diff | Tier3Review | Tier3Revision
    | ReinvestigationStart | Rollback | OtherStage(name: string)

  /** What is written: only the payload fields something reads back. */
  datatype Note = Note(
    kind: Kind, fingerprint: string, executionId: string, stage: Stage, requestId: Option<int>,
    status: Option<Approvals.Status>, ok: Option<bool>)

  datatype Entry = Entry(seqNo: nat, at: real, note: Note)

  function Notes(log: seq<Entry>): (r: seq<Note>)
    ensures |r| == |log| && forall k | 0 <= k < |r| :: r[k] == log[k].note
  {
    if log == [] then [] else Notes(log[..|log| - 1]) + [log[|log| - 1].note]
  }

  function OfKind(log: seq<Entry>, kind: Kind): seq<Entry> {
    if log == [] then []
    else OfKind(log[..|log| - 1], kind) + (if log[|log| - 1].note.kind == kind then [log[|log| - 1]] else [])
  }

  class AuditLog {
    const clock: nat -> real // what the clock says when the n-th entry is written
    var entries: seq<Entry>

    /** Entries are numbered in order; with the clock, the notes determine the log. */
    ghost predicate Valid()
      reads this
    {
      forall k | 0 <= k < |entries| :: entries[k].seqNo == k && entries[k].at == clock(k)
    }

    function Lines(): seq<Note>
      reads this
    {
      Notes(entries)
    }

    constructor (clock: nat -> real)
      ensures Valid() && entries == [] && this.clock == clock
    {
      this.clock, entries := clock, [];
    }

    method Write(note: Note)
      requires Valid()
      modifies this
      ensures Valid() && old(entries) <= entries && Lines() == old(Lines()) + [note]
    {
      entries := entries + [Entry(|entries|, clock(|entries|), note)];
    }

    method Read(kind: Kind) returns (found: seq<Entry>)
      ensures found == OfKind(entries, kind)
    {
      found := [];
      for i := 0 to |entries|
        invariant found == OfKind(entries[..i], kind)
      {
        assert entries[..i + 1][..i] == entries[..i];
        if entries[i].note.kind == kind { found := found + [entries[i]]; }
      }
      assert entries[..|entries|] == entries;
    }
  }
}
