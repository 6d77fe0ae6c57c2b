/** What the outcome read from a log says of the action the log ends with. */
module TraceLaws {
  import opened Wrappers
  import opened Identity
  import opened Approvals
  import opened ApprovalFlow
  import opened FlowLaws
  import A = Audit
  import T = Trace

  /** A run on the target that succeeded, or a pull request that was proposed. */
  predicate Acts(e: A.Note) {
    e.kind == A.Execution && (e.stage == A.PrProposed || (e.stage == A.Execute && e.ok == Some(true)))
  }

  /** The stages at which a case is handed to a human. */
  predicate GivesUp(stage: A.Stage) {
    || stage == A.Agent || stage == A.Facts || stage == A.Validation || stage == A.Gate || stage == A.DiffCheck || stage == A.Review
    || stage == A.ApprovalRequest || stage == A.Reinvestigation || stage == A.VerificationEscalation
  }

  lemma ReadLast(r: T.Reading, lines: seq<A.Note>, last: A.Note)
    ensures T.Read(r, lines + [last]) == T.Next(T.Read(r, lines), last)
  {
    assert (lines + [last])[..|lines|] == lines;
  }

  lemma ActionStands(r: T.Reading, action: A.Note, quiet: seq<A.Note>)
    requires Acts(action) && AllQuiet(quiet)
    ensures T.Read(r, [action] + quiet).outcome == if action.stage == A.PrProposed then T.Outcome.PrProposed else T.Outcome.Executed
  {
    T.ReadTwice(r, [action], quiet);
    ReadOne(r, action);
    T.SilentNotes(T.Read(r, [action]), quiet);
  }

  /** An action stays the outcome until something is known of it: a pull request is then verified by its merge or failed by
      its own checks, where a run on the target is verified or its verification failed; a result that does not say it
      failed changes nothing. */
  lemma ActionIsRead(r: T.Reading, action: A.Note, quiet: seq<A.Note>, e: A.Note)
    requires Acts(action) && AllQuiet(quiet)
    ensures var pr, before, after := action.stage == A.PrProposed, T.Read(r, [action] + quiet).outcome, T.Read(r, [action] + quiet + [e]).outcome;
      && before == (if pr then T.Outcome.PrProposed else T.Outcome.Executed)
      && (e.kind == A.Verification && e.stage == A.Closed ==> after == if pr then T.PrVerified else T.Outcome.Verified)
      && (e.kind == A.Verification && e.stage == A.Result ==>
            after == if e.ok != Some(false) then before else if pr then T.PrCiFailed else T.VerificationFailed)
      && (e.kind == A.Failed && (e.stage == A.DryRun || e.stage == A.Execute || e.stage == A.PrProposed) ==> after == T.Outcome.Failed)
      && (e.kind == A.Rejected && GivesUp(e.stage) ==> after == T.Escalated)
      && (e.kind == A.Rejected && e.stage == A.Prefilter ==> after == T.PrefilterClosed)
      && (e.kind == A.Proposal && e.stage == A.ApprovalRequested ==> after == T.AwaitingApproval)
  {
    ActionStands(r, action, quiet);
    ReadLast(r, [action] + quiet, e);
  }

  lemma ThenFailed(r: T.Reading, ran: A.Note, failed: A.Note)
    requires failed.kind == A.Failed && failed.stage == A.Execute
    ensures T.Read(r, [ran] + [failed]).outcome == T.Outcome.Failed
  {
    hide T.Read;
    ReadLast(r, [ran], failed);
  }

  lemma ThenResult(r: T.Reading, ran: A.Note, result: A.Note, verified: bool)
    requires Acts(ran) && ran.stage == A.Execute
    requires result.kind == A.Verification && result.stage == A.Result && result.ok == Some(verified)
    ensures T.Read(r, [ran] + [result]).outcome == if verified then T.Outcome.Executed else T.VerificationFailed
  {
    hide T.Read;
    ActionStands(r, ran, []);
    assert [ran] + [] == [ran];
    ReadLast(r, [ran], result);
  }

  lemma ThenClosed(r: T.Reading, ran: A.Note, result: A.Note, closed: A.Note)
    requires T.Read(r, [ran] + [result]).outcome == T.Outcome.Executed && closed.kind == A.Verification && closed.stage == A.Closed
    ensures T.Read(r, [ran] + [result] + [closed]).outcome == T.Outcome.Verified
  {
    hide T.Read;
    ReadLast(r, [ran] + [result], closed);
  }

  lemma ExecuteIsRead(r: T.Reading, row: Request, id: int, a: Attempt)
    ensures T.Read(r, ExecuteLines(row, id, a)).outcome ==
      if !a.executeOk then T.Outcome.Failed else if a.verified then T.Outcome.Verified else T.VerificationFailed
  {
    hide T.Read;
    var ran, result := Line(row, id, A.Execution, A.Execute).(ok := Some(a.executeOk)), Line(row, id, A.Verification, A.Result).(ok := Some(a.verified));
    var failed, closed := Line(row, id, A.Failed, A.Execute), Line(row, id, A.Verification, A.Closed);
    if !a.executeOk {
      ThenFailed(r, ran, failed);
      assert ExecuteLines(row, id, a) == [ran] + [failed];
    } else {
      ThenResult(r, ran, result, a.verified);
      assert ExecuteLines(row, id, a) == [ran] + [result] + if a.verified then [closed] else [];
      if a.verified { ThenClosed(r, ran, result, closed); } else { assert [ran] + [result] + [] == [ran] + [result]; }
    }
  }

  lemma CancelIsRead(r: T.Reading, s: Store, id: int, why: string)
    requires s.Has(id) && r.current == Some(id) && IsOpen(s.Row(id).status)
    ensures var told := T.Read(r, CancelledCall(s, id, why).1); told.outcome == T.ApprovalCancelled && (told.byDryRun <==> id in r.dryRunFailed)
  {
    var (_, status) := StatusAfterCancel(s, id, why);
    ReadOne(r, RefusedLine(s.Row(id), id, status));
  }

  /** Lines that are no failed dry run. */
  lemma {:induction false} NoDryRunFailed(r: T.Reading, lines: seq<A.Note>)
    requires forall e | e in lines :: e.kind != A.Failed
    ensures T.Read(r, lines).dryRunFailed == r.dryRunFailed
  {
    if lines != [] { NoDryRunFailed(r, lines[..|lines| - 1]); }
  }

  /** An approved request that can be run: the log tells what became of it, the refusal of the gate from a failed dry run,
      and a run that failed from one that was verified or was not. */
  lemma RunIsRead(u: Tables, r: T.Reading, s: Store, id: int, a: Attempt)
    requires s.Has(id) && Agrees(r, id, s.Row(id).status) && Runnable(u, s, id, a.gate) && id !in r.dryRunFailed
    ensures var told := T.Read(r, CheckedCall(u, s, id, a).1);
      if !Allows(a.gate, s.Row(id).tier) then told.outcome == T.ApprovalCancelled && !told.byDryRun
      else if !a.dryRunOk then told.outcome == T.ApprovalCancelled && told.byDryRun
      else Claim(u, s, id, a.claiming).1.Ok? ==>
        told.outcome == if !a.executeOk then T.Outcome.Failed else if a.verified then T.Outcome.Verified else T.VerificationFailed
  {
    hide Claim, CancelledCall, ExecuteLines, GateLines, T.Read, T.Next, Approvers;
    var row, gated := s.Row(id), GateLines(s.Row(id), id, a.gate, A.ApprovalRecheck);
    var r1 := T.Read(r, gated);
    GateIsSilent(row, id, a.gate);
    QuietAgrees(r, gated, id, row.status);
    NoDryRunFailed(r, gated);
    if !Allows(a.gate, row.tier) {
      CancelIsRead(r1, s, id, a.why);
      T.ReadTwice(r, gated, CancelledCall(s, id, a.why).1);
    } else {
      RunOnIsRead(u, r1, s, id, a);
      T.ReadTwice(r, gated, RunCall(u, s, id, a).1);
    }
  }

  lemma GateIsSilent(row: Request, id: int, gate: GateAnswer)
    ensures AllQuiet(GateLines(row, id, gate, A.ApprovalRecheck))
    ensures forall e | e in GateLines(row, id, gate, A.ApprovalRecheck) :: e.kind != A.Failed
  {}

  lemma RunOnIsRead(u: Tables, r: T.Reading, s: Store, id: int, a: Attempt)
    requires s.Has(id) && s.Row(id).status == Approved && Agrees(r, id, Approved) && id !in r.dryRunFailed
    ensures var told := T.Read(r, RunCall(u, s, id, a).1);
      if !a.dryRunOk then told.outcome == T.ApprovalCancelled && told.byDryRun
      else Claim(u, s, id, a.claiming).1.Ok? ==>
        told.outcome == if !a.executeOk then T.Outcome.Failed else if a.verified then T.Outcome.Verified else T.VerificationFailed
  {
    hide Claim, CancelledCall, ExecuteLines;
    var row, dry := s.Row(id), DryRunLines(s.Row(id), id, a.dryRunOk);
    var rest := RunCall(u, s, id, a).1[|dry|..];
    T.ReadTwice(r, dry, rest);
    if !a.dryRunOk {
      assert dry == [dry[0]] + [dry[1]];
      ReadLast(r, [dry[0]], dry[1]);
      ReadOne(r, dry[0]);
      CancelIsRead(T.Read(r, dry), s, id, a.why);
    } else {
      ExecuteIsRead(T.Read(r, dry), row, id, a);
    }
  }
}
