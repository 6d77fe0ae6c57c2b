/** The audit log tells the truth: the outcome read from it agrees with the stored status after every call. */
module FlowLaws {
  import opened Wrappers
  import opened Identity
  import opened Approvals
  import opened ApprovalFlow
  import opened ApprovalLaws
  import A = Audit
  import T = Trace
  import S = ApprovalStore

  // ---- calls -----------------------------------------------------------------------------------

  datatype Call =
    | CallDecide(id: int, approver: string, vote: Vote, gate: GateAnswer, looked: real, checked: real, recorded: real)
    | CallExpire(now: real)
    | CallExecute(id: int, attempt: Attempt)
    | CallCut(id: int, attempt: Attempt, verifying: bool) // the target raises, while executing or while verifying

  /** The store an execution checks the status in, and what it wrote before: an overdue request is expired first. */
  function Expiring(s: Store, id: int, a: Attempt): (Store, seq<A.Note>)
    requires s.Has(id)
  {
    if Due(s.Row(id), a.looked) then ExpireCall(s, a.expiring) else (s, [])
  }

  /** The attempt claims the request and gets as far as the call that raises. */
  predicate CutsShort(u: Tables, s: Store, id: int, a: Attempt, verifying: bool) {
    && s.Has(id)
    && var (s1, _) := Expiring(s, id, a);
      && s1.Has(id) && Runnable(u, s1, id, a.gate) && Allows(a.gate, s1.Row(id).tier) && a.dryRunOk
      && Claim(u, s1, id, a.claiming).1.Ok? && (verifying ==> a.executeOk)
  }

  function CutLines(r: Request, id: int, a: Attempt, verifying: bool): seq<A.Note> {
    GateLines(r, id, a.gate, A.ApprovalRecheck) + DryRunLines(r, id, true)
    + if verifying then [Line(r, id, A.Execution, A.Execute).(ok := Some(true))] else []
  }

  /** An execution that is cut short leaves the claim and what it wrote so far. */
  function CutCall(u: Tables, s: Store, id: int, a: Attempt, verifying: bool): (Store, seq<A.Note>) {
    if CutsShort(u, s, id, a, verifying) then
      var (s1, expired) := Expiring(s, id, a);
      (Claim(u, s1, id, a.claiming).0, expired + CutLines(s1.Row(id), id, a, verifying))
    else
      var (s', lines, _) := ExecuteCall(u, s, id, a);
      (s', lines)
  }

  /** What a call leaves in the store and writes to the log. */
  function Act(u: Tables, s: Store, c: Call): (Store, seq<A.Note>) {
    match c
    case CallDecide(id, approver, vote, gate, looked, checked, recorded) =>
      var (s', lines, _) := DecideCall(u, s, id, approver, vote, gate, looked, checked, recorded);
      (s', lines)
    case CallExpire(now) => ExpireCall(s, now)
    case CallExecute(id, attempt) =>
      var (s', lines, _) := ExecuteCall(u, s, id, attempt);
      (s', lines)
    case CallCut(id, attempt, verifying) => CutCall(u, s, id, attempt, verifying)
  }

  datatype World = World(store: Store, notes: seq<A.Note>)

  function After(u: Tables, w: World, calls: seq<Call>): World {
    if calls == [] then w
    else
      var before := After(u, w, calls[..|calls| - 1]);
      var (s', lines) := Act(u, before.store, calls[|calls| - 1]);
      World(s', before.notes + lines)
  }

  // ---- agreement -------------------------------------------------------------------------------

  predicate Tells(outcome: T.Outcome, status: Status) {
    match status
    case Pending => outcome == T.AwaitingApproval
    case Approved => outcome == T.Approved
    case Denied => outcome == T.Denied
    case Expired => outcome == T.Expired
    case Cancelled => outcome == T.ApprovalCancelled
    case Executed => outcome == T.Verified || outcome == T.VerificationFailed || outcome == T.Failed
  }

  predicate Agrees(r: T.Reading, id: int, status: Status) { r.current == Some(id) && Tells(r.outcome, status) }

  /** The request is the only one of its execution. */
  ghost predicate Alone(s: Store, id: int) {
    s.Has(id) && forall other | s.Has(other) && other != id :: s.Row(other).executionId != s.Row(id).executionId
  }

  /** Entries that leave the outcome as it is. */
  predicate Quiet(e: A.Note) { !T.ChangesOutcome(e) && !(e.kind == A.Proposal && e.stage == A.ApprovalRequested) }

  ghost predicate AllQuiet(lines: seq<A.Note>) { forall e | e in lines :: Quiet(e) }

  lemma ReadOne(r: T.Reading, e: A.Note)
    ensures T.Read(r, [e]) == T.Next(r, e)
  {
    assert [e][..0] == [];
  }

  lemma QuietAgrees(r: T.Reading, lines: seq<A.Note>, id: int, status: Status)
    requires Agrees(r, id, status) && AllQuiet(lines)
    ensures Agrees(T.Read(r, lines), id, status)
  {
    T.SilentNotes(r, lines);
  }

  /** Lines that say nothing new, then one that does. */
  lemma QuietThen(r: T.Reading, lines: seq<A.Note>, last: A.Note, id: int, before: Status, after: Status)
    requires Agrees(r, id, before) && AllQuiet(lines)
    requires forall r' | Agrees(r', id, before) :: Agrees(T.Next(r', last), id, after)
    ensures Agrees(T.Read(r, lines + [last]), id, after)
  {
    QuietAgrees(r, lines, id, before);
    T.ReadTwice(r, lines, [last]);
    ReadOne(T.Read(r, lines), last);
  }

  // ---- the lines of each step ------------------------------------------------------------------

  lemma GateIsQuiet(r: Request, id: int, gate: GateAnswer, stage: A.Stage)
    ensures AllQuiet(GateLines(r, id, gate, stage))
  {}

  lemma RefusedAgrees(r: T.Reading, row: Request, id: int, status: Status)
    requires Agrees(r, id, status)
    ensures Agrees(T.Next(r, RefusedLine(row, id, status)), id, status)
  {}

  lemma CancelledAgrees(r: T.Reading, row: Request, id: int, status: Status)
    requires r.current == Some(id)
    ensures Agrees(T.Next(r, RefusedLine(row, id, Cancelled)), id, Cancelled)
  {}

  lemma ExpiredAgrees(r: T.Reading, s: Store, id: int)
    requires r.current == Some(id) && s.Has(id)
    ensures Agrees(T.Next(r, ExpiredLine(s, id)), id, Expired)
  {}

  lemma ExecuteAgrees(r: T.Reading, row: Request, id: int, a: Attempt)
    requires Agrees(r, id, Approved)
    ensures Agrees(T.Read(r, ExecuteLines(row, id, a)), id, Executed)
  {
    var ran := Line(row, id, A.Execution, A.Execute).(ok := Some(a.executeOk));
    var rest := ExecuteLines(row, id, a)[1..];
    var r1 := T.Next(r, ran);
    ReadOne(r, ran);
    assert ExecuteLines(row, id, a) == [ran] + rest;
    T.ReadTwice(r, [ran], rest);
    if !a.executeOk {
      ReadOne(r1, rest[0]);
      assert rest == [rest[0]];
    } else if a.verified {
      ReadOne(r1, rest[0]);
      ReadOne(T.Next(r1, rest[0]), rest[1]);
      assert rest == [rest[0]] + [rest[1]];
      T.ReadTwice(r1, [rest[0]], [rest[1]]);
    } else {
      ReadOne(r1, rest[0]);
      assert rest == [rest[0]];
    }
  }

  lemma DecisionAgrees(r: T.Reading, row: Request, id: int, after: Status)
    requires Agrees(r, id, Pending) && (after == Pending || after == Approved || after == Denied)
    ensures Agrees(T.Read(r, DecideLines(row, id, after)), id, after)
  {
    var lines := DecideLines(row, id, after);
    ReadOne(r, lines[0]);
    if after == Denied {
      assert lines == [lines[0]] + [lines[1]];
      T.ReadTwice(r, [lines[0]], [lines[1]]);
      ReadOne(T.Next(r, lines[0]), lines[1]);
    } else {
      assert lines == [lines[0]];
    }
  }

  // ---- what the store's operations do to one request -------------------------------------------

  lemma DecideShape(u: Tables, s: Store, id: int, approver: string, vote: Vote, checked: real, recorded: real)
    requires s.Has(id)
    ensures var (s', result) := Decide(u, s, id, approver, vote, checked, recorded);
      && s'.Has(id)
      && match result
         case Ok(row) => s'.Row(id) == row && s.Row(id).status == Pending && (row.status == Pending || row.status == Approved || row.status == Denied)
         case Err(e) => if e == PastDeadline then s'.Row(id).status == Expired else s' == s
  {}

  lemma ClaimShape(u: Tables, s: Store, id: int, now: real)
    requires s.Has(id)
    ensures var (s', result) := Claim(u, s, id, now);
      && s'.Has(id)
      && match result
         case Ok(row) => s.Row(id).status == Approved && s'.Row(id).status == Executed
         case Err(e) => if e == PastDeadline then s'.Row(id).status == Expired else s' == s
  {}

  lemma SettledAgrees(r: T.Reading, s: Store, s': Store, id: int, result: Result<Request, Error>)
    requires s.Has(id) && s'.Has(id) && Agrees(r, id, s.Row(id).status)
    requires match result
      case Ok(row) => s'.Row(id) == row && s.Row(id).status == Pending && (row.status == Pending || row.status == Approved || row.status == Denied)
      case Err(e) => if e == PastDeadline then s'.Row(id).status == Expired else s' == s
    ensures Agrees(T.Read(r, SettledLines(s', id, result)), id, s'.Row(id).status)
  {
    match result
    case Ok(row) => DecisionAgrees(r, row, id, row.status);
    case Err(e) =>
      var lines := RefusalLines(s', id, e);
      ReadOne(r, lines[0]);
      assert lines == [lines[0]];
  }

  lemma VoteAgrees(u: Tables, r: T.Reading, s: Store, c: Call)
    requires c.CallDecide? && s.Has(c.id) && Agrees(r, c.id, s.Row(c.id).status)
    ensures var (s', lines) := Act(u, s, c); s'.Has(c.id) && Agrees(T.Read(r, lines), c.id, s'.Row(c.id).status)
  {
    hide Decide, T.Read, T.Next, SettledLines, GateLines;
    var status, row := s.Row(c.id).status, s.Row(c.id);
    var asked := AskedLines(u, s, c.id, c.approver, c.vote, c.gate, c.looked);
    GateIsQuiet(row, c.id, c.gate, A.ApprovalPrecheck);
    assert AllQuiet(asked);
    QuietAgrees(r, asked, c.id, status);
    if Refuses(u, s, c.id, c.approver, c.vote, c.gate, c.looked) {
      var refused := Line(row, c.id, A.Rejected, A.ApprovalRefused);
      QuietAgrees(r, asked + [refused], c.id, status);
    } else {
      var (s', result) := Decide(u, s, c.id, c.approver, c.vote, c.checked, c.recorded);
      DecideShape(u, s, c.id, c.approver, c.vote, c.checked, c.recorded);
      SettledAgrees(T.Read(r, asked), s, s', c.id, result);
      T.ReadTwice(r, asked, SettledLines(s', c.id, result));
    }
  }

  // ---- executing -------------------------------------------------------------------------------

  lemma CancelCallAgrees(r: T.Reading, s: Store, id: int, why: string)
    requires s.Has(id) && r.current == Some(id) && (IsOpen(s.Row(id).status) || Agrees(r, id, s.Row(id).status))
    ensures var (s', lines, _) := CancelledCall(s, id, why); s'.Has(id) && Agrees(T.Read(r, lines), id, s'.Row(id).status)
  {
    var (s', status) := StatusAfterCancel(s, id, why);
    ReadOne(r, RefusedLine(s.Row(id), id, status));
    if status == Cancelled { CancelledAgrees(r, s.Row(id), id, status); } else { RefusedAgrees(r, s.Row(id), id, status); }
  }

  lemma ClaimedCallAgrees(u: Tables, r: T.Reading, s: Store, id: int, a: Attempt)
    requires s.Has(id) && Agrees(r, id, s.Row(id).status)
    ensures var (s', claimed) := Claim(u, s, id, a.claiming);
      s'.Has(id) && var (s'', lines, _) := ClaimedCall(s', id, s.Row(id), claimed, a);
        s''.Has(id) && Agrees(T.Read(r, lines), id, s''.Row(id).status)
  {
    hide Claim;
    var (s', claimed) := Claim(u, s, id, a.claiming);
    ClaimShape(u, s, id, a.claiming);
    match claimed
    case Ok(_) => ExecuteAgrees(r, s.Row(id), id, a);
    case Err(e) =>
      var refused := RefusedLine(s.Row(id), id, s'.Row(id).status);
      if e == PastDeadline {
        var expired := ExpiredLine(s', id);
        ReadOne(r, expired);
        ExpiredAgrees(r, s', id);
        T.ReadTwice(r, [expired], [refused]);
        ReadOne(T.Next(r, expired), refused);
        RefusedAgrees(T.Next(r, expired), s.Row(id), id, Expired);
      } else {
        assert [] + [refused] == [refused];
        ReadOne(r, refused);
        RefusedAgrees(r, s.Row(id), id, s.Row(id).status);
      }
  }

  lemma RunAgrees(u: Tables, r: T.Reading, s: Store, id: int, a: Attempt)
    requires s.Has(id) && s.Row(id).status == Approved && Agrees(r, id, Approved)
    ensures var (s', lines, _) := RunCall(u, s, id, a); s'.Has(id) && Agrees(T.Read(r, lines), id, s'.Row(id).status)
  {
    hide Claim, ClaimedCall, CancelledCall;
    var row, dry := s.Row(id), DryRunLines(s.Row(id), id, a.dryRunOk);
    ClaimShape(u, s, id, a.claiming);
    var (s', claimed) := Claim(u, s, id, a.claiming);
    if a.dryRunOk {
      ReadOne(r, dry[0]);
      assert dry == [dry[0]];
      ClaimedCallAgrees(u, T.Read(r, dry), s, id, a);
      T.ReadTwice(r, dry, ClaimedCall(s', id, row, claimed, a).1);
    } else {
      assert dry == [dry[0]] + [dry[1]];
      T.ReadTwice(r, [dry[0]], [dry[1]]);
      ReadOne(r, dry[0]);
      ReadOne(T.Next(r, dry[0]), dry[1]);
      CancelCallAgrees(T.Read(r, dry), s, id, a.why);
      T.ReadTwice(r, dry, CancelledCall(s, id, a.why).1);
    }
  }

  lemma CheckedAgrees(u: Tables, r: T.Reading, s: Store, id: int, a: Attempt)
    requires s.Has(id) && Agrees(r, id, s.Row(id).status)
    ensures var (s', lines, _) := CheckedCall(u, s, id, a); s'.Has(id) && Agrees(T.Read(r, lines), id, s'.Row(id).status)
  {
    hide RunCall, CancelledCall, GateLines, T.Read, T.Next, Approvers;
    var row := s.Row(id);
    if !Runnable(u, s, id, a.gate) {
      ReadOne(r, RefusedLine(row, id, row.status));
      RefusedAgrees(r, row, id, row.status);
    } else {
      var gated := GateLines(row, id, a.gate, A.ApprovalRecheck);
      GateIsQuiet(row, id, a.gate, A.ApprovalRecheck);
      QuietAgrees(r, gated, id, row.status);
      if Allows(a.gate, row.tier) {
        RunAgrees(u, T.Read(r, gated), s, id, a);
        T.ReadTwice(r, gated, RunCall(u, s, id, a).1);
      } else {
        CancelCallAgrees(T.Read(r, gated), s, id, a.why);
        T.ReadTwice(r, gated, CancelledCall(s, id, a.why).1);
      }
    }
  }

  // ---- one execution's part of the log ---------------------------------------------------------

  lemma {:induction false} OfAll(lines: seq<A.Note>, e: string)
    requires forall k | 0 <= k < |lines| :: lines[k].executionId == e
    ensures T.Of(lines, e) == lines
  {
    if lines != [] { OfAll(lines[..|lines| - 1], e); }
  }

  lemma {:induction false} OfNone(lines: seq<A.Note>, e: string)
    requires forall k | 0 <= k < |lines| :: lines[k].executionId != e
    ensures T.Of(lines, e) == []
  {
    if lines != [] { OfNone(lines[..|lines| - 1], e); }
  }

  ghost predicate Distinct(ids: seq<int>) { forall i, j | 0 <= i < j < |ids| :: ids[i] != ids[j] }

  lemma ExpiredLinesNext(s: Store, front: seq<int>, last: int)
    requires s.Has(last) && forall i | i in front :: s.Has(i)
    ensures ExpiredLines(s, front + [last]) == ExpiredLines(s, front) + [ExpiredLine(s, last)]
  {
    assert (front + [last])[..|front|] == front;
  }

  lemma OfOne(line: A.Note, e: string)
    ensures T.Of([line], e) == if line.executionId == e then [line] else []
  {
    if line.executionId == e { OfAll([line], e); } else { OfNone([line], e); }
  }

  /** Of all the requests that expire together, an execution's log gets the line of its own. */
  lemma {:induction false} OwnExpiredLine(s: Store, ids: seq<int>, id: int)
    requires Alone(s, id) && Distinct(ids) && forall i | i in ids :: s.Has(i)
    ensures T.Of(ExpiredLines(s, ids), s.Row(id).executionId) == if id in ids then [ExpiredLine(s, id)] else []
  {
    if ids != [] {
      hide ExpiredLines, T.Of;
      var front, last, e := ids[..|ids| - 1], ids[|ids| - 1], s.Row(id).executionId;
      assert last in ids && last !in front && ids == front + [last];
      assert id in ids <==> id in front || id == last;
      OwnExpiredLine(s, front, id);
      ExpiredLinesNext(s, front, last);
      T.OfTwice(ExpiredLines(s, front), [ExpiredLine(s, last)], e);
      OfOne(ExpiredLine(s, last), e);
      assert last != id ==> s.Row(last).executionId != e;
    }
  }

  /** Nothing but one row's status and note may differ. */
  ghost predicate OnlyRow(s: Store, s': Store, id: int) {
    |s'.requests| == |s.requests| && forall other | s.Has(other) && other != id :: s'.Row(other) == s.Row(other)
  }

  ghost predicate About(lines: seq<A.Note>, e: string) { forall k | 0 <= k < |lines| :: lines[k].executionId == e }

  ghost predicate SameExecution(s: Store, s': Store, id: int) {
    s.Has(id) ==> s'.Has(id) && s'.Row(id).executionId == s.Row(id).executionId
  }

  lemma DecideIsLocal(u: Tables, s: Store, id: int, approver: string, vote: Vote, checked: real, recorded: real)
    ensures var (s', result) := Decide(u, s, id, approver, vote, checked, recorded);
      && OnlyRow(s, s', id) && SameExecution(s, s', id)
      && (result.Ok? ==> s.Has(id) && result.value.executionId == s.Row(id).executionId)
  {}

  lemma VoteIsLocal(u: Tables, s: Store, c: Call)
    requires c.CallDecide?
    ensures var (s', lines) := Act(u, s, c);
      OnlyRow(s, s', c.id) && SameExecution(s, s', c.id) && if s.Has(c.id) then About(lines, s.Row(c.id).executionId) else lines == []
  {
    hide Decide;
    DecideIsLocal(u, s, c.id, c.approver, c.vote, c.checked, c.recorded);
  }

  lemma ClaimIsLocal(u: Tables, s: Store, id: int, now: real, why: string, note: string)
    requires s.Has(id)
    ensures OnlyRow(s, Claim(u, s, id, now).0, id) && SameExecution(s, Claim(u, s, id, now).0, id)
    ensures OnlyRow(s, Cancel(s, id, why).0, id) && SameExecution(s, Cancel(s, id, why).0, id)
    ensures OnlyRow(s, SetNote(s, id, note), id) && SameExecution(s, SetNote(s, id, note), id)
  {}

  lemma RunIsLocal(u: Tables, s: Store, id: int, a: Attempt)
    requires s.Has(id)
    ensures var (s', lines, _) := RunCall(u, s, id, a);
      OnlyRow(s, s', id) && SameExecution(s, s', id) && About(lines, s.Row(id).executionId)
  {
    hide Claim, Cancel, SetNote;
    var (s', claimed) := Claim(u, s, id, a.claiming);
    ClaimIsLocal(u, s, id, a.claiming, a.why, a.summary);
    ClaimIsLocal(u, s', id, a.claiming, a.why, a.summary);
  }

  lemma CheckedIsLocal(u: Tables, s: Store, id: int, a: Attempt)
    requires s.Has(id)
    ensures var (s', lines, _) := CheckedCall(u, s, id, a);
      OnlyRow(s, s', id) && SameExecution(s, s', id) && About(lines, s.Row(id).executionId)
  {
    hide Cancel, RunCall;
    RunIsLocal(u, s, id, a);
    ClaimIsLocal(u, s, id, a.claiming, a.why, a.summary);
  }

  // ---- every call keeps the agreement ----------------------------------------------------------

  /** What holds of a request between calls: alone in its execution, and told truly by its part of the log. */
  ghost predicate Told(s: Store, id: int, e: string, r: T.Reading) {
    Alone(s, id) && s.Row(id).executionId == e && Agrees(r, id, s.Row(id).status)
  }

  lemma StaysAlone(s: Store, s': Store, id: int, e: string)
    requires Alone(s, id) && s.Row(id).executionId == e && |s'.requests| == |s.requests|
    requires forall other | s.Has(other) :: s'.Row(other).executionId == s.Row(other).executionId
    ensures Alone(s', id) && s'.Row(id).executionId == e
  {
    forall other | s'.Has(other) && other != id ensures s'.Row(other).executionId != e { assert s.Has(other); }
  }

  lemma ExpireKeepsTold(s: Store, id: int, e: string, r: T.Reading, now: real)
    requires Told(s, id, e, r)
    ensures var (s', lines) := ExpireCall(s, now);
      Told(s', id, e, T.Read(r, T.Of(lines, e))) && |s'.requests| == |s.requests|
  {
    var (s', ids) := ExpireDue(s, now);
    DueAreThere(s, now);
    S.DueIdsAre(s.requests, now);
    StaysAlone(s, s', id, e);
    OwnExpiredLine(s', ids, id);
    assert id in ids <==> Due(s.Row(id), now);
    if id in ids {
      ReadOne(r, ExpiredLine(s', id));
      ExpiredAgrees(r, s', id);
    }
  }

  /** A call on one request, as the log of another execution sees it. */
  lemma OtherKeepsTold(s: Store, s': Store, id: int, e: string, r: T.Reading, other: int, lines: seq<A.Note>)
    requires Told(s, id, e, r) && other != id
    requires OnlyRow(s, s', other) && SameExecution(s, s', other)
    requires if s.Has(other) then About(lines, s.Row(other).executionId) else lines == []
    ensures Told(s', id, e, T.Read(r, T.Of(lines, e)))
  {
    OfNone(lines, e);
    StaysAlone(s, s', id, e);
  }

  lemma VoteKeepsTold(u: Tables, s: Store, id: int, e: string, r: T.Reading, c: Call)
    requires c.CallDecide? && Told(s, id, e, r)
    ensures var (s', lines) := Act(u, s, c); Told(s', id, e, T.Read(r, T.Of(lines, e)))
  {
    hide Act, T.Read;
    var (s', lines) := Act(u, s, c);
    VoteIsLocal(u, s, c);
    if c.id == id {
      VoteAgrees(u, r, s, c);
      OfAll(lines, e);
      StaysAlone(s, s', id, e);
    } else {
      OtherKeepsTold(s, s', id, e, r, c.id, lines);
    }
  }

  lemma CheckedKeepsTold(u: Tables, s: Store, id: int, e: string, r: T.Reading, other: int, a: Attempt)
    requires Told(s, id, e, r) && s.Has(other)
    ensures var (s', lines, _) := CheckedCall(u, s, other, a); Told(s', id, e, T.Read(r, T.Of(lines, e)))
  {
    hide CheckedCall, T.Read;
    var (s', lines, _) := CheckedCall(u, s, other, a);
    CheckedIsLocal(u, s, other, a);
    if other == id {
      CheckedAgrees(u, r, s, id, a);
      OfAll(lines, e);
      StaysAlone(s, s', id, e);
    } else {
      OtherKeepsTold(s, s', id, e, r, other, lines);
    }
  }

  lemma ExecuteKeepsTold(u: Tables, s: Store, id: int, e: string, r: T.Reading, other: int, a: Attempt)
    requires Told(s, id, e, r)
    ensures var (s', lines, _) := ExecuteCall(u, s, other, a); Told(s', id, e, T.Read(r, T.Of(lines, e)))
  {
    hide CheckedCall, ExpireCall, T.Read, T.Of;
    if !s.Has(other) {
      OfNone([], e);
      assert T.Read(r, []) == r by { QuietAgrees(r, [], id, s.Row(id).status); ReadNothing(r); }
    } else if Due(s.Row(other), a.looked) {
      var (s1, expired) := ExpireCall(s, a.expiring);
      ExpireKeepsTold(s, id, e, r, a.expiring);
      CheckedKeepsTold(u, s1, id, e, T.Read(r, T.Of(expired, e)), other, a);
      var lines := CheckedCall(u, s1, other, a).1;
      T.OfTwice(expired, lines, e);
      T.ReadTwice(r, T.Of(expired, e), T.Of(lines, e));
    } else {
      CheckedKeepsTold(u, s, id, e, r, other, a);
      var lines := CheckedCall(u, s, other, a).1;
      assert [] + lines == lines;
    }
  }

  lemma ReadNothing(r: T.Reading)
    ensures T.Read(r, []) == r
  {}

  /** The call is an execution of this request that is cut short. */
  predicate Cuts(u: Tables, s: Store, c: Call, id: int) {
    c.CallCut? && c.id == id && CutsShort(u, s, id, c.attempt, c.verifying)
  }

  lemma CallKeepsTold(u: Tables, s: Store, id: int, e: string, r: T.Reading, c: Call)
    requires Told(s, id, e, r) && !Cuts(u, s, c, id)
    ensures var (s', lines) := Act(u, s, c); Told(s', id, e, T.Read(r, T.Of(lines, e)))
  {
    hide ExecuteCall, CutsShort, ExpireCall, DecideCall, T.Read, T.Of;
    match c
    case CallDecide(_, _, _, _, _, _, _) => VoteKeepsTold(u, s, id, e, r, c);
    case CallExpire(now) => ExpireKeepsTold(s, id, e, r, now);
    case CallExecute(other, a) => ExecuteKeepsTold(u, s, id, e, r, other, a);
    case CallCut(other, a, verifying) =>
      if CutsShort(u, s, other, a, verifying) {
        OtherCutKeepsTold(u, s, id, e, r, other, a, verifying);
      } else {
        ExecuteKeepsTold(u, s, id, e, r, other, a);
      }
  }

  // ---- an execution cut short ------------------------------------------------------------------

  lemma ExpiringKeepsTold(s: Store, id: int, e: string, r: T.Reading, other: int, a: Attempt)
    requires Told(s, id, e, r) && s.Has(other)
    ensures var (s1, expired) := Expiring(s, other, a); Told(s1, id, e, T.Read(r, T.Of(expired, e)))
  {
    hide T.Of;
    if Due(s.Row(other), a.looked) {
      ExpireKeepsTold(s, id, e, r, a.expiring);
    } else {
      OfNone([], e);
      ReadNothing(r);
    }
  }

  lemma OtherCutKeepsTold(u: Tables, s: Store, id: int, e: string, r: T.Reading, other: int, a: Attempt, verifying: bool)
    requires Told(s, id, e, r) && other != id && CutsShort(u, s, other, a, verifying)
    ensures var (s', lines) := CutCall(u, s, other, a, verifying); Told(s', id, e, T.Read(r, T.Of(lines, e)))
  {
    hide T.Of, T.Read, Claim, ExpireCall, Expiring, GateLines, DryRunLines, Agrees;
    var (s1, expired) := Expiring(s, other, a);
    var r1, more := T.Read(r, T.Of(expired, e)), CutLines(s1.Row(other), other, a, verifying);
    ExpiringKeepsTold(s, id, e, r, other, a);
    ClaimIsLocal(u, s1, other, a.claiming, a.why, a.summary);
    CutIsAbout(s1.Row(other), other, a, verifying);
    OtherKeepsTold(s1, Claim(u, s1, other, a.claiming).0, id, e, r1, other, more);
    T.OfTwice(expired, more, e);
    T.ReadTwice(r, T.Of(expired, e), T.Of(more, e));
  }

  /** It can happen to any execution that would otherwise go through. */
  lemma CutAfterClaim(u: Tables, s: Store, id: int, a: Attempt)
    requires s.Has(id) && Runnable(u, s, id, a.gate) && Allows(a.gate, s.Row(id).tier) && a.dryRunOk
    requires a.looked < s.Row(id).expiresAt && a.claiming < s.Row(id).expiresAt
    ensures Cuts(u, s, CallCut(id, a, false), id)
  {}

  lemma CutIsAbout(row: Request, id: int, a: Attempt, verifying: bool)
    ensures About(CutLines(row, id, a, verifying), row.executionId)
  {}

  /** The request is executed and the log does not say how that went. */
  ghost predicate Untold(s: Store, id: int, e: string, r: T.Reading) {
    && Alone(s, id) && s.Row(id).executionId == e && s.Row(id).status == Executed
    && r.current == Some(id) && (r.outcome == T.Approved || r.outcome == T.Outcome.Executed)
  }

  lemma DryRunIsQuiet(row: Request, id: int)
    ensures AllQuiet(DryRunLines(row, id, true))
  {}

  lemma QuietBoth(a: seq<A.Note>, b: seq<A.Note>)
    requires AllQuiet(a) && AllQuiet(b)
    ensures AllQuiet(a + b)
  {}

  lemma CutReads(r: T.Reading, row: Request, id: int, a: Attempt, verifying: bool)
    requires Agrees(r, id, Approved)
    ensures var after := T.Read(r, CutLines(row, id, a, verifying));
      after.current == Some(id) && after.outcome == if verifying then T.Outcome.Executed else T.Approved
  {
    hide GateLines, DryRunLines, AllQuiet, T.Read;
    var gated, dry := GateLines(row, id, a.gate, A.ApprovalRecheck), DryRunLines(row, id, true);
    var quiet := gated + dry;
    GateIsQuiet(row, id, a.gate, A.ApprovalRecheck);
    DryRunIsQuiet(row, id);
    QuietBoth(gated, dry);
    QuietAgrees(r, quiet, id, Approved);
    if verifying {
      var ran := Line(row, id, A.Execution, A.Execute).(ok := Some(true));
      T.ReadTwice(r, quiet, [ran]);
      ReadOne(T.Read(r, quiet), ran);
    } else {
      assert quiet + [] == quiet;
    }
  }

  /** Cut short after its claim, an execution leaves the log behind the status. */
  lemma CutLeavesUntold(u: Tables, s: Store, id: int, e: string, r: T.Reading, c: Call)
    requires Told(s, id, e, r) && Cuts(u, s, c, id)
    ensures var (s', lines) := Act(u, s, c); Untold(s', id, e, T.Read(r, T.Of(lines, e)))
  {
    hide T.Of, T.Read, Claim, ExpireCall, Expiring, GateLines, DryRunLines, Approvers;
    var a := c.attempt;
    var (s1, expired) := Expiring(s, id, a);
    var row, r1 := s1.Row(id), T.Read(r, T.Of(expired, e));
    var more, s' := CutLines(row, id, a, c.verifying), Claim(u, s1, id, a.claiming).0;
    ExpiringKeepsTold(s, id, e, r, id, a);
    ClaimShape(u, s1, id, a.claiming);
    ClaimIsLocal(u, s1, id, a.claiming, a.why, a.summary);
    StaysAlone(s1, s', id, e);
    CutIsAbout(row, id, a, c.verifying);
    OfAll(more, e);
    CutReads(r1, row, id, a, c.verifying);
    T.OfTwice(expired, more, e);
    T.ReadTwice(r, T.Of(expired, e), more);
  }

  /** What is left of a call in the log of a request that is executed already. */
  ghost predicate Settles(s: Store, s': Store, id: int, e: string, lines: seq<A.Note>) {
    Alone(s', id) && s'.Row(id).executionId == e && s'.Row(id).status == Executed && AllQuiet(T.Of(lines, e))
  }

  lemma OtherSettles(s: Store, s': Store, id: int, e: string, other: int, lines: seq<A.Note>)
    requires Alone(s, id) && s.Row(id).executionId == e && s.Row(id).status == Executed && other != id
    requires OnlyRow(s, s', other) && SameExecution(s, s', other)
    requires if s.Has(other) then About(lines, s.Row(other).executionId) else lines == []
    ensures Settles(s, s', id, e, lines)
  {
    OfNone(lines, e);
    StaysAlone(s, s', id, e);
  }

  lemma ExpireSettles(s: Store, id: int, e: string, now: real)
    requires Alone(s, id) && s.Row(id).executionId == e && s.Row(id).status == Executed
    ensures var (s', lines) := ExpireCall(s, now); Settles(s, s', id, e, lines) && |s'.requests| == |s.requests|
  {
    var (s', ids) := ExpireDue(s, now);
    DueAreThere(s, now);
    S.DueIdsAre(s.requests, now);
    StaysAlone(s, s', id, e);
    OwnExpiredLine(s', ids, id);
    assert id in ids <==> Due(s.Row(id), now);
  }

  lemma VoteSettles(u: Tables, s: Store, id: int, e: string, c: Call)
    requires Alone(s, id) && s.Row(id).executionId == e && s.Row(id).status == Executed && c.CallDecide?
    ensures var (s', lines) := Act(u, s, c); Settles(s, s', id, e, lines)
  {
    VoteIsLocal(u, s, c);
    var (s', lines) := Act(u, s, c);
    if c.id == id {
      OfAll(lines, e);
      OwnVoteSettles(u, s, c);
    } else {
      OtherSettles(s, s', id, e, c.id, lines);
    }
  }

  lemma OwnVoteSettles(u: Tables, s: Store, c: Call)
    requires c.CallDecide? && s.Has(c.id) && s.Row(c.id).status == Executed
    ensures var (s', lines) := Act(u, s, c); s' == s && AllQuiet(lines)
  {}

  lemma CheckedSettles(u: Tables, s: Store, id: int, e: string, other: int, a: Attempt)
    requires Alone(s, id) && s.Row(id).executionId == e && s.Row(id).status == Executed && s.Has(other)
    ensures var (s', lines, _) := CheckedCall(u, s, other, a); Settles(s, s', id, e, lines)
  {
    hide RunCall, GateLines, CancelledCall, Approvers;
    CheckedIsLocal(u, s, other, a);
    var (s', lines, _) := CheckedCall(u, s, other, a);
    if other == id { OfAll(lines, e); } else { OtherSettles(s, s', id, e, other, lines); }
  }

  lemma ExpiringSettles(s: Store, id: int, e: string, other: int, a: Attempt)
    requires Alone(s, id) && s.Row(id).executionId == e && s.Row(id).status == Executed && s.Has(other)
    ensures var (s1, expired) := Expiring(s, other, a); Settles(s, s1, id, e, expired) && s1.Has(other)
  {
    if Due(s.Row(other), a.looked) { ExpireSettles(s, id, e, a.expiring); } else { OfNone([], e); }
  }

  lemma ExecuteSettles(u: Tables, s: Store, id: int, e: string, other: int, a: Attempt)
    requires Alone(s, id) && s.Row(id).executionId == e && s.Row(id).status == Executed
    ensures var (s', lines, _) := ExecuteCall(u, s, other, a); Settles(s, s', id, e, lines)
  {
    hide CheckedCall, ExpireCall, T.Of;
    if !s.Has(other) {
      OfNone([], e);
    } else {
      var (s1, expired) := Expiring(s, other, a);
      ExpiringSettles(s, id, e, other, a);
      CheckedSettles(u, s1, id, e, other, a);
      T.OfTwice(expired, CheckedCall(u, s1, other, a).1, e);
    }
  }

  lemma CutSettles(u: Tables, s: Store, id: int, e: string, other: int, a: Attempt, verifying: bool)
    requires Alone(s, id) && s.Row(id).executionId == e && s.Row(id).status == Executed && CutsShort(u, s, other, a, verifying)
    ensures var (s', lines) := CutCall(u, s, other, a, verifying); Settles(s, s', id, e, lines)
  {
    hide T.Of, Claim, ExpireCall, Expiring, GateLines, DryRunLines, Approvers;
    var (s1, expired) := Expiring(s, other, a);
    var s', more := Claim(u, s1, other, a.claiming).0, CutLines(s1.Row(other), other, a, verifying);
    ExpiringSettles(s, id, e, other, a);
    assert other != id;
    ClaimIsLocal(u, s1, other, a.claiming, a.why, a.summary);
    CutIsAbout(s1.Row(other), other, a, verifying);
    OtherSettles(s1, s', id, e, other, more);
    T.OfTwice(expired, more, e);
  }

  /** Nothing that happens later puts that right. */
  lemma UntoldStays(u: Tables, s: Store, id: int, e: string, r: T.Reading, c: Call)
    requires Untold(s, id, e, r)
    ensures var (s', lines) := Act(u, s, c); Untold(s', id, e, T.Read(r, T.Of(lines, e))) && !Cuts(u, s, c, id)
  {
    hide ExecuteCall, ExpireCall, DecideCall, T.Read, T.Of;
    var (s', lines) := Act(u, s, c);
    assert Settles(s, s', id, e, lines) by {
      match c
      case CallDecide(_, _, _, _, _, _, _) => VoteSettles(u, s, id, e, c);
      case CallExpire(now) => ExpireSettles(s, id, e, now);
      case CallExecute(other, a) => ExecuteSettles(u, s, id, e, other, a);
      case CallCut(other, a, verifying) =>
        if CutsShort(u, s, other, a, verifying) { CutSettles(u, s, id, e, other, a, verifying); } else { ExecuteSettles(u, s, id, e, other, a); }
    }
    T.SilentNotes(r, T.Of(lines, e));
    if c.CallCut? && c.id == id { ExpiringSettles(s, id, e, id, c.attempt); }
  }

  // ---- whatever calls come ---------------------------------------------------------------------

  /** Somewhere in the run, an execution of this request was cut short. */
  ghost predicate WasCut(u: Tables, w: World, calls: seq<Call>, id: int) {
    exists n: nat :: n < |calls| && Cuts(u, After(u, w, calls[..n]).store, calls[n], id)
  }

  lemma WasCutNext(u: Tables, w: World, front: seq<Call>, c: Call, id: int)
    ensures WasCut(u, w, front + [c], id) <==> WasCut(u, w, front, id) || Cuts(u, After(u, w, front).store, c, id)
  {
    hide After, Cuts;
    var calls := front + [c];
    assert calls[..|front|] == front && calls[|front|] == c;
    assert forall n | 0 <= n < |front| :: calls[..n] == front[..n] && calls[n] == front[n];
  }

  lemma AfterNext(u: Tables, w: World, front: seq<Call>, c: Call)
    ensures var before := After(u, w, front); var (s', lines) := Act(u, before.store, c);
      After(u, w, front + [c]) == World(s', before.notes + lines)
  {
    hide Act;
    assert (front + [c])[..|front|] == front;
  }

  /** What a request's part of the log is to its status, once an execution of it was cut short and before. */
  ghost predicate Stands(s: Store, id: int, e: string, r: T.Reading, cut: bool) {
    if cut then Untold(s, id, e, r) else Told(s, id, e, r)
  }

  lemma CallStands(u: Tables, s: Store, id: int, e: string, r: T.Reading, c: Call, cut: bool)
    requires Stands(s, id, e, r, cut)
    ensures var (s', lines) := Act(u, s, c); Stands(s', id, e, T.Read(r, T.Of(lines, e)), cut || Cuts(u, s, c, id))
  {
    hide Act, Told, Untold, Cuts, T.Of, T.Read;
    if cut {
      UntoldStays(u, s, id, e, r, c);
    } else if Cuts(u, s, c, id) {
      CutLeavesUntold(u, s, id, e, r, c);
    } else {
      CallKeepsTold(u, s, id, e, r, c);
    }
  }

  lemma {:induction false} CallsKeepTold(u: Tables, w: World, id: int, e: string, calls: seq<Call>)
    requires Told(w.store, id, e, T.Read(T.START, T.Of(w.notes, e)))
    ensures var w' := After(u, w, calls); Stands(w'.store, id, e, T.Read(T.START, T.Of(w'.notes, e)), WasCut(u, w, calls, id))
  {
    if calls != [] {
      hide Act, After, Stands, Told, Cuts, T.Of, T.Read, WasCut;
      var front, c := calls[..|calls| - 1], calls[|calls| - 1];
      var before := After(u, w, front);
      var r, lines := T.Read(T.START, T.Of(before.notes, e)), Act(u, before.store, c).1;
      assert calls == front + [c];
      AfterNext(u, w, front, c);
      CallsKeepTold(u, w, id, e, front);
      WasCutNext(u, w, front, c, id);
      CallStands(u, before.store, id, e, r, c, WasCut(u, w, front, id));
      T.OfTwice(before.notes, lines, e);
      T.ReadTwice(T.START, T.Of(before.notes, e), T.Of(lines, e));
    }
  }

  function Opened(r: Request, id: int): A.Note { Line(r, id, A.Proposal, A.ApprovalRequested) }

  /** From the moment a request is opened, whatever was logged before and whatever calls follow, on it or on others: the
      outcome read from its execution's entries tells its status exactly when no execution of it was cut short after its
      claim. If one was, the request is executed and the log stays with the approval, or with an execution nobody
      verified. */
  lemma LogTellsTheTruth(u: Tables, s: Store, earlier: seq<A.Note>, id: int, calls: seq<Call>)
    requires Alone(s, id) && s.Row(id).status == Pending
    ensures var start := World(s, earlier + [Opened(s.Row(id), id)]); var w := After(u, start, calls);
      var outcome := T.Read(T.START, T.Of(w.notes, s.Row(id).executionId)).outcome;
      && w.store.Has(id)
      && (Tells(outcome, w.store.Row(id).status) <==> !WasCut(u, start, calls, id))
      && (WasCut(u, start, calls, id) ==> w.store.Row(id).status == Executed && (outcome == T.Approved || outcome == T.Outcome.Executed))
  {
    hide WasCut, After, T.Of, T.Read;
    var e, first := s.Row(id).executionId, Opened(s.Row(id), id);
    var w := World(s, earlier + [first]);
    OfAll([first], e);
    T.OfTwice(earlier, [first], e);
    var before := T.Read(T.START, T.Of(earlier, e));
    T.ReadTwice(T.START, T.Of(earlier, e), [first]);
    ReadOne(before, first);
    assert Agrees(T.Next(before, first), id, Pending);
    CallsKeepTold(u, w, id, e, calls);
  }

  /** An outcome tells one status only, so agreement works in both directions. */
  lemma TellsOne(outcome: T.Outcome, a: Status, b: Status)
    requires Tells(outcome, a) && Tells(outcome, b)
    ensures a == b
  {}

  // ---- an approval is not an authorisation ------------------------------------------------------

  /** A vote whose look before the gate found one store and whose recording found another: other callers may have come in
      between. */
  function VoteAcross(u: Tables, s: Store, s': Store, id: int, approver: string, gate: GateAnswer, looked: real, checked: real, recorded: real)
    : (Store, Result<Request, Refusal>)
  {
    if Refuses(u, s, id, approver, Approve, gate, looked) then (s', Err(GateRefused))
    else
      var (after, result) := Decide(u, s', id, approver, Approve, checked, recorded);
      (after, Settled(result))
  }

  /** When nobody does, it is the call as it was. */
  lemma VoteAlone(u: Tables, s: Store, id: int, approver: string, gate: GateAnswer, looked: real, checked: real, recorded: real)
    ensures var (after, _, result) := DecideCall(u, s, id, approver, Approve, gate, looked, checked, recorded);
      VoteAcross(u, s, s, id, approver, gate, looked, checked, recorded) == (after, result)
  {
    hide Decide, AskedLines, SettledLines;
  }

  /** An approval of a tier the gate does not allow is recorded exactly when the look before the gate finds no such request
      yet, or finds it overdue, so that the gate is not asked, and the store, looking again, records the vote. */
  lemma GateSkippedExactly(u: Tables, s: Store, s': Store, id: int, approver: string, gate: GateAnswer, looked: real, checked: real, recorded: real)
    requires Later(s, s') && s'.Has(id) && !Allows(gate, s'.Row(id).tier)
    ensures VoteAcross(u, s, s', id, approver, gate, looked, checked, recorded).1.Ok?
      <==> (!s.Has(id) || looked >= s.Row(id).expiresAt) && Decide(u, s', id, approver, Approve, checked, recorded).1.Ok?
  {}

  lemma RecordedInTime(u: Tables, s: Store, id: int, approver: string, vote: Vote, checked: real, recorded: real)
    ensures var (s', result) := Decide(u, s, id, approver, vote, checked, recorded);
      && (|s'.decisions| > |s.decisions| <==> result.Ok?)
      && (result.Ok? ==> s.Has(id) && s.Row(id).status == Pending && checked < s.Row(id).expiresAt)
  {}

  /** So on a clock that does not run backwards between the two looks, an approval of a request that was there at the first
      look is recorded only after the gate, run from fresh facts, allowed the request's own tier. */
  lemma ApprovalNeedsGate(u: Tables, s: Store, s': Store, id: int, approver: string, gate: GateAnswer, looked: real, checked: real, recorded: real)
    requires Later(s, s') && looked <= checked
    ensures var (after, result) := VoteAcross(u, s, s', id, approver, gate, looked, checked, recorded);
      |after.decisions| > |s'.decisions| || result.Ok? ==> s'.Has(id) && (s.Has(id) ==> Allows(gate, s.Row(id).tier))
  {
    hide Decide, Reaches;
    RecordedInTime(u, s', id, approver, Approve, checked, recorded);
    if s.Has(id) && !Allows(gate, s.Row(id).tier) {
      GateSkippedExactly(u, s, s', id, approver, gate, looked, checked, recorded);
    }
  }

  /** On one that does, any approval the store would record is recorded without the gate. */
  lemma BackwardsClockSkipsGate(u: Tables, s: Store, id: int, who: string)
    requires u.Lawful() && s.Has(id) && RowChecks(s.Row(id)) && s.Row(id).status == Pending
    requires StoredIdentity(who) && who != s.Row(id).requestedBy && !Decided(s.decisions, id, who)
    ensures var row := s.Row(id);
      DecideCall(u, s, id, who, Approve, NoGate, row.expiresAt, row.requestedAt, row.requestedAt).2.Ok?
  {
    var row := s.Row(id);
    CheckIsNormalForm(u, who);
    GateSkippedExactly(u, s, s, id, who, NoGate, row.expiresAt, row.requestedAt, row.requestedAt);
    VoteAlone(u, s, id, who, NoGate, row.expiresAt, row.requestedAt, row.requestedAt);
  }

  /** And with the clock standing still: a request that another caller opens between the two looks is approved without the
      gate by anyone else. */
  lemma OpenedInBetween(u: Tables, s: Store, p: Proposal, who: string, now: real)
    requires u.Lawful() && Inv(s) && StoredIdentity(who)
    requires Create(u, s, p, now).1.Ok? && who != Create(u, s, p, now).1.value.requestedBy
    ensures var s' := Create(u, s, p, now).0; var id := |s'.requests|;
      Later(s, s') && !s.Has(id) && VoteAcross(u, s, s', id, who, NoGate, now, now, now).1.Ok?
  {
    var s' := Create(u, s, p, now).0;
    var id := |s'.requests|;
    CreateIsLater(u, s, p, now);
    CheckIsNormalForm(u, who);
    NotDecidedYet(s, id, who);
    GateSkippedExactly(u, s, s', id, who, NoGate, now, now, now);
  }

  lemma NotDecidedYet(s: Store, id: int, who: string)
    requires Inv(s) && !s.Has(id)
    ensures !Decided(s.decisions, id, who)
  {}
}
