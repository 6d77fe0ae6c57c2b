/** One caller of the machine alone: its steps, one after the other, are the calls of the service. */
module ApprovalSolo {
  import opened Wrappers
  import opened Identity
  import opened Approvals
  import opened ApprovalFlow
  import opened ApprovalMachine
  import A = Audit
  import L = FlowLaws

  // ---- until it is done ------------------------------------------------------------------------

  /** How far a caller is from its end. */
  function Stage(c: Caller): nat {
    match c
    case Done => 0
    case Annotating(_) => 1
    case Opening(_) => 2
    case Voting(_, _, _) => 2
    case Reporting(_, _) => 2
    case Cancelling(_, _) => 3
    case Verifying(_, _) => 3
    case Deciding(_, _, _) => 4
    case Entitled(_, _, _, _) => 5
    case Claiming(_, _, _) => 6
    case DryRunning(_, _, _) => 8
    case Gating(_, _) => 10
    case Checking(_, _) => 11
    case Rereading(_) => 12
    case Looking(_, _) => 15
    case Starting(_) => 16
    case Writing(_, next) => Stage(next) + 1
    case Sweeping(next) => Stage(next) + 2
  }

  function Left(c: Caller): nat { if c.Writing? then |c.lines| else 0 }

  lemma Descends(u: Tables, s: Store, i: nat, c: Caller, a: Answer)
    requires c != Done
    ensures var c' := NextMove(u, s, i, c, a).caller; Stage(c') < Stage(c) || (Stage(c') == Stage(c) && Left(c') < Left(c))
  {
    hide Create, Decide, Claim, Cancel, SetNote, ExpireCall, GateLines, SettledLines, DryRunLines, Approvers;
  }

  lemma StepDescends(u: Tables, w: World, i: nat, outside: Outside)
    requires i < |w.callers| && w.callers[i] != Done
    ensures var w' := Happen(u, w, Steps(i, outside(w.store, w.callers[i])));
      && |w'.callers| == |w.callers|
      && (Stage(w'.callers[i]) < Stage(w.callers[i])
          || (Stage(w'.callers[i]) == Stage(w.callers[i]) && Left(w'.callers[i]) < Left(w.callers[i])))
  {
    hide NextMove;
    Descends(u, w.store, i, w.callers[i], outside(w.store, w.callers[i]));
  }

  /** What the outside answers, from the store and the place the caller is at. */
  type Outside = (Store, Caller) -> Answer

  /** The world when this caller goes on by itself until it is done. */
  function Solo(u: Tables, w: World, i: nat, outside: Outside): World
    requires i < |w.callers|
    decreases Stage(w.callers[i]), Left(w.callers[i])
  {
    var c := w.callers[i];
    if c == Done then w
    else
      StepDescends(u, w, i, outside);
      Solo(u, Happen(u, w, Steps(i, outside(w.store, c))), i, outside)
  }

  lemma AfterNext(u: Tables, events: seq<Event>, e: Event)
    ensures After(u, events + [e]) == Happen(u, After(u, events), e)
  {
    hide Happen;
    assert (events + [e])[..|events|] == events;
  }

  /** It is a run of the machine like any other. */
  lemma {:induction false} SoloIsARun(u: Tables, events: seq<Event>, i: nat, outside: Outside) returns (more: seq<Event>)
    requires i < |After(u, events).callers|
    ensures After(u, events + more) == Solo(u, After(u, events), i, outside)
    ensures forall e | e in more :: e.Steps? && e.who == i
    decreases Stage(After(u, events).callers[i]), Left(After(u, events).callers[i])
  {
    hide Happen, After, Stage, Left;
    var w := After(u, events);
    if w.callers[i] == Done {
      more := [];
      assert events + [] == events;
    } else {
      var e := Steps(i, outside(w.store, w.callers[i]));
      StepDescends(u, w, i, outside);
      AfterNext(u, events, e);
      var rest := SoloIsARun(u, events + [e], i, outside);
      more := [e] + rest;
      assert events + more == events + [e] + rest;
    }
  }

  // ---- one step after the other ----------------------------------------------------------------

  /** The world with this caller at another place. */
  function At(w: World, i: nat, c: Caller): World
    requires i < |w.callers|
  {
    w.(callers := w.callers[i := c])
  }

  /** What a call that ends adds to the world. */
  function Ended(w: World, i: nat, s: Store, lines: seq<A.Note>, runs: seq<TargetRun>, cleared: seq<Clearance>): World
    requires i < |w.callers|
  {
    World(s, w.callers[i := Done], w.log + lines, w.executions + runs, w.clearances + cleared)
  }

  /** One step of a caller that is not done. */
  lemma OneStep(u: Tables, w: World, i: nat, c: Caller, outside: Outside)
    requires i < |w.callers| && c != Done
    ensures var m := NextMove(u, w.store, i, c, outside(w.store, c));
      Solo(u, At(w, i, c), i, outside)
        == Solo(u, At(World(m.store, w.callers, Plus(w.log, m.line), Plus(w.executions, m.executes), Plus(w.clearances, m.clears)), i, m.caller), i, outside)
  {
    hide NextMove;
    var m := NextMove(u, w.store, i, c, outside(w.store, c));
    assert At(w, i, c).callers[i] == c && At(w, i, c).callers[i := m.caller] == w.callers[i := m.caller];
  }

  /** A step that changes the store at most. */
  lemma StoreStep(u: Tables, w: World, i: nat, c: Caller, outside: Outside, s: Store, c': Caller)
    requires i < |w.callers| && c != Done && NextMove(u, w.store, i, c, outside(w.store, c)) == Go(s, c')
    ensures Solo(u, At(w, i, c), i, outside) == Solo(u, At(w.(store := s), i, c'), i, outside)
  {
    hide NextMove, Solo;
    OneStep(u, w, i, c, outside);
  }

  lemma DoneStep(u: Tables, w: World, i: nat, outside: Outside)
    requires i < |w.callers|
    ensures Solo(u, At(w, i, Done), i, outside) == Ended(w, i, w.store, [], [], [])
  {
    assert w.log + [] == w.log && w.executions + [] == w.executions && w.clearances + [] == w.clearances;
  }

  /** Writing, line by line, puts all the lines in the log. */
  lemma {:induction false} WriteSteps(u: Tables, w: World, i: nat, lines: seq<A.Note>, next: Caller, outside: Outside)
    requires i < |w.callers|
    ensures Solo(u, At(w, i, Writing(lines, next)), i, outside) == Solo(u, At(w.(log := w.log + lines), i, next), i, outside)
    decreases |lines|
  {
    hide Solo;
    OneStep(u, w, i, Writing(lines, next), outside);
    if lines == [] {
      assert w.log + [] == w.log;
    } else {
      var w' := w.(log := w.log + [lines[0]]);
      WriteSteps(u, w', i, lines[1..], next, outside);
      assert w.log + [lines[0]] + lines[1..] == w.log + lines;
    }
  }

  /** A call that writes its last lines. */
  lemma LastLines(u: Tables, w: World, i: nat, lines: seq<A.Note>, outside: Outside)
    requires i < |w.callers|
    ensures Solo(u, At(w, i, Writing(lines, Done)), i, outside) == Ended(w, i, w.store, lines, [], [])
  {
    hide Solo;
    WriteSteps(u, w, i, lines, Done, outside);
    DoneStep(u, w.(log := w.log + lines), i, outside);
    assert w.log + lines + [] == w.log + lines;
  }

  // ---- opening, voting, expiring ---------------------------------------------------------------

  /** Opening a request. */
  lemma OpenSolo(u: Tables, w: World, i: nat, p: Proposal, outside: Outside, now: real)
    requires i < |w.callers| && outside(w.store, Opening(p)).now == now
    ensures var (s, result) := Create(u, w.store, p, now);
      Solo(u, At(w, i, Opening(p)), i, outside)
        == Ended(w, i, s, if result.Ok? then [L.Opened(result.value, |s.requests|)] else [], [], [])
  {
    hide Solo, Create;
    var (s, result) := Create(u, w.store, p, now);
    if result.Ok? {
      StoreStep(u, w, i, Opening(p), outside, s, Writing([L.Opened(result.value, |s.requests|)], Done));
      LastLines(u, w.(store := s), i, [L.Opened(result.value, |s.requests|)], outside);
    } else {
      StoreStep(u, w, i, Opening(p), outside, s, Done);
      DoneStep(u, w.(store := s), i, outside);
    }
  }

  /** Expiring what is overdue. */
  lemma ExpireSolo(u: Tables, w: World, i: nat, outside: Outside, now: real)
    requires i < |w.callers| && outside(w.store, Sweeping(Done)).now == now
    ensures var (s, lines) := ExpireCall(w.store, now); Solo(u, At(w, i, Sweeping(Done)), i, outside) == Ended(w, i, s, lines, [], [])
  {
    hide Solo, ExpireCall;
    var (s, lines) := ExpireCall(w.store, now);
    StoreStep(u, w, i, Sweeping(Done), outside, s, Writing(lines, Done));
    LastLines(u, w.(store := s), i, lines, outside);
  }

  /** What a vote meets: it looks at the request and asks the gate when the vote could be recorded. */
  function VoteOutside(u: Tables, gate: GateAnswer, looked: real, checked: real, recorded: real): Outside {
    (s: Store, c: Caller) => ApprovalMachine.Answer.Answer(checked, recorded, c.Deciding? && Prechecked(u, s, c.id, c.approver, c.vote, looked), gate, false, "")
  }

  lemma VotingSolo(u: Tables, w: World, i: nat, id: int, approver: string, vote: Vote, outside: Outside, checked: real, recorded: real)
    requires i < |w.callers| && outside(w.store, Voting(id, approver, vote)).now == checked
    requires outside(w.store, Voting(id, approver, vote)).later == recorded
    ensures var (s, result) := Decide(u, w.store, id, approver, vote, checked, recorded);
      Solo(u, At(w, i, Voting(id, approver, vote)), i, outside) == Ended(w, i, s, SettledLines(s, id, result), [], [])
  {
    hide Solo, Decide, SettledLines;
    var (s, result) := Decide(u, w.store, id, approver, vote, checked, recorded);
    StoreStep(u, w, i, Voting(id, approver, vote), outside, s, Writing(SettledLines(s, id, result), Done));
    LastLines(u, w.(store := s), i, SettledLines(s, id, result), outside);
  }

  /** A vote, from the look before the gate to the last line. */
  lemma DecideSolo(u: Tables, w: World, i: nat, id: int, approver: string, vote: Vote, gate: GateAnswer, looked: real, checked: real, recorded: real)
    requires i < |w.callers|
    ensures var (s, lines, _) := DecideCall(u, w.store, id, approver, vote, gate, looked, checked, recorded);
      Solo(u, At(w, i, Deciding(id, approver, vote)), i, VoteOutside(u, gate, looked, checked, recorded)) == Ended(w, i, s, lines, [], [])
  {
    hide Solo, Decide, SettledLines, GateLines, Prechecked;
    var outside, c := VoteOutside(u, gate, looked, checked, recorded), Deciding(id, approver, vote);
    var asked := AskedLines(u, w.store, id, approver, vote, gate, looked);
    if !Prechecked(u, w.store, id, approver, vote, looked) {
      StoreStep(u, w, i, c, outside, w.store, Voting(id, approver, vote));
      VotingSolo(u, w, i, id, approver, vote, outside, checked, recorded);
      var (s, result) := Decide(u, w.store, id, approver, vote, checked, recorded);
      assert [] + SettledLines(s, id, result) == SettledLines(s, id, result);
    } else {
      AskedIsThere(u, w.store, id, approver, vote, looked);
      if Allows(gate, w.store.Row(id).tier) {
        var w' := w.(log := w.log + asked);
        StoreStep(u, w, i, c, outside, w.store, Writing(asked, Voting(id, approver, vote)));
        WriteSteps(u, w, i, asked, Voting(id, approver, vote), outside);
        VotingSolo(u, w', i, id, approver, vote, outside, checked, recorded);
        var (s, result) := Decide(u, w.store, id, approver, vote, checked, recorded);
        assert w.log + asked + SettledLines(s, id, result) == w.log + (asked + SettledLines(s, id, result));
      } else {
        var lines := asked + [Line(w.store.Row(id), id, A.Rejected, A.ApprovalRefused)];
        StoreStep(u, w, i, c, outside, w.store, Writing(lines, Done));
        LastLines(u, w, i, lines, outside);
      }
    }
  }

  lemma AskedIsThere(u: Tables, s: Store, id: int, approver: string, vote: Vote, looked: real)
    requires Prechecked(u, s, id, approver, vote, looked)
    ensures s.Has(id) && vote == Approve
  {}

  // ---- executing -------------------------------------------------------------------------------

  /** What an execution meets. */
  function ExecuteOutside(a: Attempt): Outside {
    (s: Store, c: Caller) => ApprovalMachine.Answer.Answer(
      if c.Looking? then a.looked else if c.Sweeping? then a.expiring else a.claiming, a.claiming, false, a.gate,
      if c.DryRunning? then a.dryRunOk else if c.Entitled? then a.executeOk else a.verified,
      if c.Cancelling? then a.why else a.summary)
  }

  /** The request is executed by this attempt, from the status check on. */
  predicate Executes(u: Tables, s: Store, id: int, a: Attempt)
    requires s.Has(id)
  {
    Runnable(u, s, id, a.gate) && Allows(a.gate, s.Row(id).tier) && a.dryRunOk && Claim(u, s, id, a.claiming).1.Ok?
  }

  lemma ReportSolo(u: Tables, w: World, i: nat, id: int, req: Request, outside: Outside)
    requires i < |w.callers| && w.store.Has(id)
    ensures Solo(u, At(w, i, Reporting(id, req)), i, outside) == Ended(w, i, w.store, [RefusedLine(req, id, w.store.Row(id).status)], [], [])
  {
    hide Solo;
    var lines := [RefusedLine(req, id, w.store.Row(id).status)];
    StoreStep(u, w, i, Reporting(id, req), outside, w.store, Writing(lines, Done));
    LastLines(u, w, i, lines, outside);
  }

  lemma CancelSolo(u: Tables, w: World, i: nat, id: int, a: Attempt)
    requires i < |w.callers| && w.store.Has(id)
    ensures var (s, lines, _) := CancelledCall(w.store, id, a.why);
      Solo(u, At(w, i, Cancelling(id, w.store.Row(id))), i, ExecuteOutside(a)) == Ended(w, i, s, lines, [], [])
  {
    hide Solo;
    var s := Cancel(w.store, id, a.why).0;
    StoreStep(u, w, i, Cancelling(id, w.store.Row(id)), ExecuteOutside(a), s, Reporting(id, w.store.Row(id)));
    ReportSolo(u, w.(store := s), i, id, w.store.Row(id), ExecuteOutside(a));
  }

  lemma NoteSolo(u: Tables, w: World, i: nat, id: int, lines: seq<A.Note>, a: Attempt)
    requires i < |w.callers|
    ensures Solo(u, At(w, i, Writing(lines, Annotating(id))), i, ExecuteOutside(a)) == Ended(w, i, SetNote(w.store, id, a.summary), lines, [], [])
  {
    hide Solo, SetNote;
    var w1 := w.(log := w.log + lines);
    var w2 := w1.(store := SetNote(w.store, id, a.summary));
    WriteSteps(u, w, i, lines, Annotating(id), ExecuteOutside(a));
    StoreStep(u, w1, i, Annotating(id), ExecuteOutside(a), w2.store, Done);
    DoneStep(u, w2, i, ExecuteOutside(a));
    assert w.log + lines + [] == w.log + lines;
  }

  /** From the claim on: the target is entered once, and what it answers is written. */
  lemma EntitledSolo(u: Tables, w: World, i: nat, id: int, req: Request, allowed: int, at: real, a: Attempt)
    requires i < |w.callers|
    ensures Solo(u, At(w, i, Entitled(id, req, allowed, at)), i, ExecuteOutside(a))
      == Ended(w, i, SetNote(w.store, id, a.summary), ExecuteLines(req, id, a), [TargetRun(i, id, allowed, at)], [])
  {
    hide Solo, SetNote;
    var outside, run := ExecuteOutside(a), TargetRun(i, id, allowed, at);
    var w1 := w.(executions := w.executions + [run]);
    var ran := Line(req, id, A.Execution, A.Execute).(ok := Some(a.executeOk));
    OneStep(u, w, i, Entitled(id, req, allowed, at), outside);
    if a.executeOk {
      var checked := [Line(req, id, A.Verification, A.Result).(ok := Some(a.verified))]
        + (if a.verified then [Line(req, id, A.Verification, A.Closed)] else []);
      var w2 := w1.(log := w1.log + [ran]);
      WriteSteps(u, w1, i, [ran], Verifying(id, req), outside);
      StoreStep(u, w2, i, Verifying(id, req), outside, w2.store, Writing(checked, Annotating(id)));
      NoteSolo(u, w2, i, id, checked, a);
      assert ExecuteLines(req, id, a) == [ran] + checked;
      assert w.log + [ran] + checked == w.log + ([ran] + checked);
    } else {
      NoteSolo(u, w1, i, id, [ran, Line(req, id, A.Failed, A.Execute)], a);
      assert ExecuteLines(req, id, a) == [ran, Line(req, id, A.Failed, A.Execute)];
    }
    assert w.clearances + [] == w.clearances && w.executions + [run] + [] == w.executions + [run];
  }

  lemma ClaimSolo(u: Tables, w: World, i: nat, id: int, allowed: int, a: Attempt)
    requires i < |w.callers| && w.store.Has(id)
    ensures var (s, claimed) := Claim(u, w.store, id, a.claiming);
      && s.Has(id)
      && var (after, lines, _) := ClaimedCall(s, id, w.store.Row(id), claimed, a);
        Solo(u, At(w, i, Claiming(id, w.store.Row(id), allowed)), i, ExecuteOutside(a))
          == Ended(w, i, after, lines, if claimed.Ok? then [TargetRun(i, id, allowed, a.claiming)] else [], [])
  {
    hide Solo, SetNote, Approvers;
    var outside, req := ExecuteOutside(a), w.store.Row(id);
    var (s, claimed) := Claim(u, w.store, id, a.claiming);
    var w1 := w.(store := s);
    match claimed
    case Ok(_) =>
      StoreStep(u, w, i, Claiming(id, req, allowed), outside, s, Entitled(id, req, allowed, a.claiming));
      EntitledSolo(u, w1, i, id, req, allowed, a.claiming, a);
    case Err(e) =>
      var expired := if e == PastDeadline then [Line(req, id, A.Kind.Expired, A.Stage.Approval)] else [];
      StoreStep(u, w, i, Claiming(id, req, allowed), outside, s, Writing(expired, Reporting(id, req)));
      WriteSteps(u, w1, i, expired, Reporting(id, req), outside);
      ReportSolo(u, w1.(log := w1.log + expired), i, id, req, outside);
      assert UnclaimedLines(s, id, req, e) == expired + [RefusedLine(req, id, s.Row(id).status)];
      assert w.log + expired + [RefusedLine(req, id, s.Row(id).status)] == w.log + (expired + [RefusedLine(req, id, s.Row(id).status)]);
  }

  /** From the dry run on. */
  lemma DryRunSolo(u: Tables, w: World, i: nat, id: int, allowed: int, a: Attempt)
    requires i < |w.callers| && w.store.Has(id)
    ensures var (s, lines, _) := RunCall(u, w.store, id, a);
      Solo(u, At(w, i, DryRunning(id, w.store.Row(id), allowed)), i, ExecuteOutside(a))
        == Ended(w, i, s, lines, if a.dryRunOk && Claim(u, w.store, id, a.claiming).1.Ok? then [TargetRun(i, id, allowed, a.claiming)] else [], [])
  {
    hide Solo, Claim, ClaimedCall, CancelledCall, DryRunLines;
    var outside, req := ExecuteOutside(a), w.store.Row(id);
    var dry := DryRunLines(req, id, a.dryRunOk);
    var w1 := w.(log := w.log + dry);
    var next := if a.dryRunOk then Claiming(id, req, allowed) else Cancelling(id, req);
    StoreStep(u, w, i, DryRunning(id, req, allowed), outside, w.store, Writing(dry, next));
    WriteSteps(u, w, i, dry, next, outside);
    if a.dryRunOk { ClaimSolo(u, w1, i, id, allowed, a); } else { CancelSolo(u, w1, i, id, a); }
    var lines := if a.dryRunOk then ClaimedCall(Claim(u, w.store, id, a.claiming).0, id, req, Claim(u, w.store, id, a.claiming).1, a).1
                 else CancelledCall(w.store, id, a.why).1;
    assert w.log + dry + lines == w.log + (dry + lines);
  }

  /** From the status check on. */
  lemma CheckSolo(u: Tables, w: World, i: nat, id: int, a: Attempt)
    requires i < |w.callers| && w.store.Has(id)
    ensures var (s, lines, _) := CheckedCall(u, w.store, id, a); var req := w.store.Row(id);
      Solo(u, At(w, i, Checking(id, req)), i, ExecuteOutside(a))
        == Ended(w, i, s, lines, if Executes(u, w.store, id, a) then [TargetRun(i, id, req.tier, a.claiming)] else [],
                 if Runnable(u, w.store, id, a.gate) && Allows(a.gate, req.tier) then [Clearance(i, id, req.tier)] else [])
  {
    hide Solo, Claim, RunCall, CancelledCall, GateLines, Approvers;
    var outside, req := ExecuteOutside(a), w.store.Row(id);
    var gated := GateLines(req, id, a.gate, A.ApprovalRecheck);
    if !Runnable(u, w.store, id, a.gate) {
      var lines := [RefusedLine(req, id, req.status)];
      StoreStep(u, w, i, Checking(id, req), outside, w.store, Writing(lines, Done));
      LastLines(u, w, i, lines, outside);
    } else {
      StoreStep(u, w, i, Checking(id, req), outside, w.store, Gating(id, req));
      OneStep(u, w, i, Gating(id, req), outside);
      if Allows(a.gate, req.tier) {
        var w1 := w.(clearances := w.clearances + [Clearance(i, id, req.tier)]);
        WriteSteps(u, w1, i, gated, DryRunning(id, req, req.tier), outside);
        DryRunSolo(u, w1.(log := w1.log + gated), i, id, req.tier, a);
        assert w.clearances + [Clearance(i, id, req.tier)] + [] == w.clearances + [Clearance(i, id, req.tier)];
        assert w.log + gated + RunCall(u, w.store, id, a).1 == w.log + (gated + RunCall(u, w.store, id, a).1);
      } else {
        WriteSteps(u, w, i, gated, Cancelling(id, req), outside);
        CancelSolo(u, w.(log := w.log + gated), i, id, a);
        assert w.log + gated + CancelledCall(w.store, id, a.why).1 == w.log + (gated + CancelledCall(w.store, id, a.why).1);
      }
    }
  }

  /** The store the status is checked in. */
  function Swept(s: Store, id: int, a: Attempt): Store
    requires s.Has(id)
  {
    if Due(s.Row(id), a.looked) then ExpireCall(s, a.expiring).0 else s
  }

  /** An execution, from its start to its last line: the store, the log, the entry into the target and the gate run that
      are left are those of the service's call. */
  lemma ExecuteSolo(u: Tables, w: World, i: nat, id: int, a: Attempt)
    requires i < |w.callers|
    ensures var (s, lines, _) := ExecuteCall(u, w.store, id, a);
      if !w.store.Has(id) then Solo(u, At(w, i, Starting(id)), i, ExecuteOutside(a)) == Ended(w, i, s, lines, [], [])
      else
        var s1 := Swept(w.store, id, a);
        && s1.Has(id)
        && Solo(u, At(w, i, Starting(id)), i, ExecuteOutside(a))
          == Ended(w, i, s, lines, if Executes(u, s1, id, a) then [TargetRun(i, id, s1.Row(id).tier, a.claiming)] else [],
                   if Runnable(u, s1, id, a.gate) && Allows(a.gate, s1.Row(id).tier) then [Clearance(i, id, s1.Row(id).tier)] else [])
  {
    hide Solo, CheckedCall, ExpireCall, Executes, Runnable, Due;
    var outside := ExecuteOutside(a);
    if !w.store.Has(id) {
      StoreStep(u, w, i, Starting(id), outside, w.store, Done);
      DoneStep(u, w, i, outside);
    } else {
      var req := w.store.Row(id);
      StoreStep(u, w, i, Starting(id), outside, w.store, Looking(id, req));
      if Due(req, a.looked) {
        SweptSolo(u, w, i, id, a);
      } else {
        StoreStep(u, w, i, Looking(id, req), outside, w.store, Checking(id, req));
        CheckSolo(u, w, i, id, a);
        assert [] + CheckedCall(u, w.store, id, a).1 == CheckedCall(u, w.store, id, a).1;
      }
    }
  }

  lemma SweptSolo(u: Tables, w: World, i: nat, id: int, a: Attempt)
    requires i < |w.callers| && w.store.Has(id) && Due(w.store.Row(id), a.looked)
    ensures var (s1, expired) := ExpireCall(w.store, a.expiring);
      && s1.Has(id)
      && var (s, lines, _) := CheckedCall(u, s1, id, a);
        Solo(u, At(w, i, Looking(id, w.store.Row(id))), i, ExecuteOutside(a))
          == Ended(w, i, s, expired + lines, if Executes(u, s1, id, a) then [TargetRun(i, id, s1.Row(id).tier, a.claiming)] else [],
                   if Runnable(u, s1, id, a.gate) && Allows(a.gate, s1.Row(id).tier) then [Clearance(i, id, s1.Row(id).tier)] else [])
  {
    hide Solo, CheckedCall, Executes, Runnable;
    var outside, req := ExecuteOutside(a), w.store.Row(id);
    var (s1, expired) := ExpireCall(w.store, a.expiring);
    var w1 := w.(store := s1);
    var w2 := w1.(log := w1.log + expired);
    StoreStep(u, w, i, Looking(id, req), outside, w.store, Sweeping(Rereading(id)));
    StoreStep(u, w, i, Sweeping(Rereading(id)), outside, s1, Writing(expired, Rereading(id)));
    WriteSteps(u, w1, i, expired, Rereading(id), outside);
    StoreStep(u, w2, i, Rereading(id), outside, s1, Checking(id, s1.Row(id)));
    CheckSolo(u, w2, i, id, a);
    assert w.log + expired + CheckedCall(u, s1, id, a).1 == w.log + (expired + CheckedCall(u, s1, id, a).1);
  }

  // ---- exactly when the target is entered --------------------------------------------------------

  /** Approved, still in time when it is looked at and when it is claimed, with its quorum, allowed by the gate for its own
      tier, and rehearsed. */
  predicate MayExecute(u: Tables, s: Store, id: int, a: Attempt)
    requires s.Has(id)
  {
    var r := s.Row(id);
    && r.status == Approved && (a.looked < r.expiresAt || a.expiring < r.expiresAt) && a.claiming < r.expiresAt
    && |ApproversOf(u, s, id)| >= Required(r.tier)
    && a.gate.Answer? && a.gate.allowed && a.gate.tier == r.tier && a.dryRunOk
  }

  lemma SweptKeeps(u: Tables, s: Store, id: int, a: Attempt)
    requires s.Has(id)
    ensures var s1 := Swept(s, id, a); var r, r1 := s.Row(id), s1.Row(id);
      && s1.Has(id) && |ApproversOf(u, s1, id)| == |ApproversOf(u, s, id)| && r1.tier == r.tier && r1.expiresAt == r.expiresAt
      && r1.status == if IsOpen(r.status) && a.looked >= r.expiresAt && a.expiring >= r.expiresAt then Expired else r.status
  {
    hide Approvers, ExpiredLines;
    DueAreThere(s, a.expiring);
  }

  lemma ExecutesWhen(u: Tables, s: Store, id: int, a: Attempt)
    requires s.Has(id)
    ensures Swept(s, id, a).Has(id) && (Executes(u, Swept(s, id, a), id, a) <==> MayExecute(u, s, id, a))
  {
    hide Swept, Approvers;
    SweptKeeps(u, s, id, a);
  }

  lemma CheckedEnds(u: Tables, s: Store, id: int, a: Attempt)
    requires s.Has(id)
    ensures var (s', _, done) := CheckedCall(u, s, id, a);
      && s'.Has(id) && done.status == s'.Row(id).status
      && (s'.Row(id).status == Executed <==> s.Row(id).status == Executed || Executes(u, s, id, a))
      && (done.executed <==> Executes(u, s, id, a) && a.executeOk && a.verified)
  {
    hide Approvers, ExecuteLines, DryRunLines, GateLines, UnclaimedLines;
  }

  /** A call executes a request exactly when it may; its answer is the status it leaves, and success exactly when the
      target then carried it out and the result held. */
  lemma ExecutesExactly(u: Tables, s: Store, id: int, a: Attempt)
    requires s.Has(id)
    ensures var (s', _, result) := ExecuteCall(u, s, id, a);
      && s'.Has(id) && result.Ok? && result.value.status == s'.Row(id).status
      && (s'.Row(id).status == Executed <==> s.Row(id).status == Executed || MayExecute(u, s, id, a))
      && (result.value.executed <==> MayExecute(u, s, id, a) && a.executeOk && a.verified)
  {
    hide CheckedCall, Executes, MayExecute, ExpireCall;
    SweptKeeps(u, s, id, a);
    ExecutesWhen(u, s, id, a);
    CheckedEnds(u, Swept(s, id, a), id, a);
  }
}
