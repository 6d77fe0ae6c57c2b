/** Any number of callers at once: each step of a caller touches the store, the log or the target at most once, and
    steps of different callers interleave freely on a clock that may say anything. */
module ApprovalMachine {
  import opened Wrappers
  import opened Identity
  import opened Approvals
  import opened ApprovalLaws
  import opened ApprovalFlow
  import A = Audit
  import L = FlowLaws
  import S = ApprovalStore

  /** Where one caller is. `req` is the row as that caller read it, `allowed` the tier its own gate run allowed. */
  datatype Caller =
    | Opening(proposal: Proposal)
    | Deciding(id: int, approver: string, vote: Vote)
    | Voting(id: int, approver: string, vote: Vote)
    | Sweeping(next: Caller)
    | Starting(id: int)
    | Looking(id: int, req: Request)
    | Rereading(id: int)
    | Checking(id: int, req: Request)
    | Gating(id: int, req: Request)
    | DryRunning(id: int, req: Request, allowed: int)
    | Claiming(id: int, req: Request, allowed: int)
    | Entitled(id: int, req: Request, allowed: int, claimedAt: real)
    | Verifying(id: int, req: Request)
    | Annotating(id: int)
    | Cancelling(id: int, req: Request)
    | Reporting(id: int, req: Request)
    | Writing(lines: seq<A.Note>, next: Caller)
    | Done

  /** What the outside answers in one step: two clock readings, the gate, the target, a text. */
  datatype Answer = Answer(now: real, later: real, asked: bool, gate: GateAnswer, ok: bool, text: string)

  datatype TargetRun = TargetRun(caller: nat, id: int, allowed: int, claimedAt: real)

  datatype Clearance = Clearance(caller: nat, id: int, tier: int)

  /** One step's effects: the store, the caller's next place, a line for the log, an entry into the target, a gate
      run that allowed. */
  datatype Move = Move(store: Store, caller: Caller, line: Option<A.Note>, executes: Option<TargetRun>, clears: Option<Clearance>)

  function Go(s: Store, c: Caller): Move { Move(s, c, None, None, None) }

  function NextMove(u: Tables, s: Store, i: nat, c: Caller, a: Answer): Move {
    match c
    case Opening(p) =>
      var (s', result) := Create(u, s, p, a.now);
      if result.Ok? then Go(s', Writing([L.Opened(result.value, |s'.requests|)], Done)) else Go(s', Done)
    case Deciding(id, approver, vote) =>
      if vote != Approve || !a.asked || !s.Has(id) then Go(s, Voting(id, approver, vote))
      else
        var lines := GateLines(s.Row(id), id, a.gate, A.ApprovalPrecheck);
        if Allows(a.gate, s.Row(id).tier) then Go(s, Writing(lines, Voting(id, approver, vote)))
        else Go(s, Writing(lines + [Line(s.Row(id), id, A.Rejected, A.ApprovalRefused)], Done))
    case Voting(id, approver, vote) =>
      var (s', result) := Decide(u, s, id, approver, vote, a.now, a.later);
      Go(s', Writing(SettledLines(s', id, result), Done))
    case Sweeping(next) =>
      var (s', lines) := ExpireCall(s, a.now);
      Go(s', Writing(lines, next))
    case Starting(id) => Go(s, if s.Has(id) then Looking(id, s.Row(id)) else Done)
    case Looking(id, req) => Go(s, if Due(req, a.now) then Sweeping(Rereading(id)) else Checking(id, req))
    case Rereading(id) => Go(s, if s.Has(id) then Checking(id, s.Row(id)) else Done)
    case Checking(id, req) =>
      if req.status == Approved && s.Has(id) && |ApproversOf(u, s, id)| >= Required(req.tier) && !a.gate.NoGate? then Go(s, Gating(id, req))
      else Go(s, Writing([RefusedLine(req, id, req.status)], Done))
    case Gating(id, req) =>
      var lines := GateLines(req, id, a.gate, A.ApprovalRecheck);
      if !Allows(a.gate, req.tier) then Go(s, Writing(lines, Cancelling(id, req)))
      else Move(s, Writing(lines, DryRunning(id, req, a.gate.tier)), None, None, Some(Clearance(i, id, a.gate.tier)))
    case DryRunning(id, req, allowed) =>
      Go(s, Writing(DryRunLines(req, id, a.ok), if a.ok then Claiming(id, req, allowed) else Cancelling(id, req)))
    case Claiming(id, req, allowed) =>
      var (s', claimed) := Claim(u, s, id, a.now);
      match claimed {
        case Ok(_) => Go(s', Entitled(id, req, allowed, a.now))
        case Err(e) =>
          var expired := if e == PastDeadline then [Line(req, id, A.Kind.Expired, A.Stage.Approval)] else [];
          Go(s', Writing(expired, Reporting(id, req)))
      }
    case Entitled(id, req, allowed, at) =>
      var ran := Line(req, id, A.Execution, A.Execute).(ok := Some(a.ok));
      var after := if a.ok then Writing([ran], Verifying(id, req)) else Writing([ran, Line(req, id, A.Failed, A.Execute)], Annotating(id));
      Move(s, after, None, Some(TargetRun(i, id, allowed, at)), None)
    case Verifying(id, req) =>
      var checked := Line(req, id, A.Verification, A.Result).(ok := Some(a.ok));
      Go(s, Writing([checked] + (if a.ok then [Line(req, id, A.Verification, A.Closed)] else []), Annotating(id)))
    case Annotating(id) => Go(SetNote(s, id, a.text), Done)
    case Cancelling(id, req) => Go(Cancel(s, id, a.text).0, Reporting(id, req))
    case Reporting(id, req) => Go(s, if s.Has(id) then Writing([RefusedLine(req, id, s.Row(id).status)], Done) else Done)
    case Writing(lines, next) =>
      if lines == [] then Go(s, next) else Move(s, Writing(lines[1..], next), Some(lines[0]), None, None)
    case Done => Go(s, Done)
  }

  // ---- the world -------------------------------------------------------------------------------

  datatype World = World(store: Store, callers: seq<Caller>, log: seq<A.Note>, executions: seq<TargetRun>, clearances: seq<Clearance>)

  const START := World(EMPTY, [], [], [], [])

  predicate IsStart(c: Caller) {
    c.Opening? || c.Deciding? || c == Sweeping(Done) || c.Starting?
  }

  datatype Event = Arrives(caller: Caller) | Steps(who: nat, answer: Answer)

  function Plus<T>(xs: seq<T>, x: Option<T>): seq<T> { if x.Some? then xs + [x.value] else xs }

  function Happen(u: Tables, w: World, e: Event): World {
    match e
    case Arrives(c) => if IsStart(c) then w.(callers := w.callers + [c]) else w
    case Steps(i, a) =>
      if i >= |w.callers| then w
      else
        var m := NextMove(u, w.store, i, w.callers[i], a);
        World(m.store, w.callers[i := m.caller], Plus(w.log, m.line), Plus(w.executions, m.executes), Plus(w.clearances, m.clears))
  }

  function After(u: Tables, events: seq<Event>): World {
    if events == [] then START else Happen(u, After(u, events[..|events| - 1]), events[|events| - 1])
  }

  // ---- counting --------------------------------------------------------------------------------

  predicate IsExpired(n: A.Note, id: int) { n.kind == A.Kind.Expired && n.requestId == Some(id) }

  function ExpiredIn(lines: seq<A.Note>, id: int): nat {
    if lines == [] then 0 else ExpiredIn(lines[..|lines| - 1], id) + (if IsExpired(lines[|lines| - 1], id) then 1 else 0)
  }

  /** Expired entries a caller has still to write. */
  function Owed(c: Caller, id: int): nat {
    match c
    case Writing(lines, next) => ExpiredIn(lines, id) + Owed(next, id)
    case Sweeping(next) => Owed(next, id)
    case _ => 0
  }

  /** Entries into the target a caller has claimed and not yet made. */
  function Entitlement(c: Caller, id: int): nat {
    match c
    case Writing(_, next) => Entitlement(next, id)
    case Sweeping(next) => Entitlement(next, id)
    case Entitled(claimed, _, _, _) => if claimed == id then 1 else 0
    case _ => 0
  }

  function OwedByAll(callers: seq<Caller>, id: int): nat {
    if callers == [] then 0 else OwedByAll(callers[..|callers| - 1], id) + Owed(callers[|callers| - 1], id)
  }

  function Entitlements(callers: seq<Caller>, id: int): nat {
    if callers == [] then 0 else Entitlements(callers[..|callers| - 1], id) + Entitlement(callers[|callers| - 1], id)
  }

  function ExecutionsOf(executions: seq<TargetRun>, id: int): nat {
    if executions == [] then 0
    else ExecutionsOf(executions[..|executions| - 1], id) + (if executions[|executions| - 1].id == id then 1 else 0)
  }

  function Is(s: Store, id: int, status: Status): nat { if s.Has(id) && s.Row(id).status == status then 1 else 0 }

  lemma {:induction false} OwedUpdate(callers: seq<Caller>, i: nat, c: Caller, id: int)
    requires i < |callers|
    ensures OwedByAll(callers[i := c], id) + Owed(callers[i], id) == OwedByAll(callers, id) + Owed(c, id)
    ensures Entitlements(callers[i := c], id) + Entitlement(callers[i], id) == Entitlements(callers, id) + Entitlement(c, id)
  {
    var n := |callers| - 1;
    if i < n {
      OwedUpdate(callers[..n], i, c, id);
      assert callers[i := c][..n] == callers[..n][i := c];
    } else {
      assert callers[i := c][..n] == callers[..n];
    }
  }

  lemma {:induction false} ExpiredInTwo(a: seq<A.Note>, b: seq<A.Note>, id: int)
    ensures ExpiredIn(a + b, id) == ExpiredIn(a, id) + ExpiredIn(b, id)
  {
    if b == [] {
      assert a + b == a;
    } else {
      ExpiredInTwo(a, b[..|b| - 1], id);
      assert (a + b)[..|a + b| - 1] == a + b[..|b| - 1];
    }
  }

  lemma {:induction false} NoneExpired(lines: seq<A.Note>, id: int)
    requires forall n | n in lines :: n.kind != A.Kind.Expired
    ensures ExpiredIn(lines, id) == 0
  {
    if lines != [] { NoneExpired(lines[..|lines| - 1], id); }
  }

  lemma OneExpired(line: A.Note, id: int)
    ensures ExpiredIn([line], id) == if IsExpired(line, id) then 1 else 0
  {
    assert [line][..0] == [];
  }

  lemma {:induction false} SweptLines(s: Store, ids: seq<int>, id: int)
    requires L.Distinct(ids) && forall i | i in ids :: s.Has(i)
    ensures ExpiredIn(ExpiredLines(s, ids), id) == if id in ids then 1 else 0
  {
    if ids != [] {
      var front, last := ids[..|ids| - 1], ids[|ids| - 1];
      assert last in ids && last !in front && ids == front + [last];
      SweptLines(s, front, id);
      assert ExpiredLines(s, ids)[..|front|] == ExpiredLines(s, front);
    }
  }

  // ---- what each step keeps --------------------------------------------------------------------

  /** A caller's view: its rows are there and are the store's, up to status and note, and past the gate it has a
      clearance of its own for the request's tier. */
  ghost predicate Knows(s: Store, cleared: seq<Clearance>, i: nat, c: Caller) {
    match c
    case Writing(_, next) => Knows(s, cleared, i, next)
    case Sweeping(next) => Knows(s, cleared, i, next)
    case Looking(id, req) => Seen(s, id, req)
    case Checking(id, req) => Seen(s, id, req)
    case Gating(id, req) => Seen(s, id, req)
    case DryRunning(id, req, allowed) => Seen(s, id, req) && allowed == req.tier && Clearance(i, id, allowed) in cleared
    case Claiming(id, req, allowed) => Seen(s, id, req) && allowed == req.tier && Clearance(i, id, allowed) in cleared
    case Entitled(id, req, allowed, at) =>
      Seen(s, id, req) && allowed == req.tier && Clearance(i, id, allowed) in cleared && s.Row(id).status == Executed && at < req.expiresAt
    case Verifying(id, req) => Seen(s, id, req)
    case Cancelling(id, req) => Seen(s, id, req)
    case Reporting(id, req) => Seen(s, id, req)
    case _ => true
  }

  ghost predicate Seen(s: Store, id: int, req: Request) { s.Has(id) && SameRequest(req, s.Row(id)) }

  lemma {:induction false} StillKnows(s: Store, s': Store, cleared: seq<Clearance>, cleared': seq<Clearance>, i: nat, c: Caller)
    requires Knows(s, cleared, i, c) && Later(s, s') && cleared <= cleared'
    ensures Knows(s', cleared', i, c)
    decreases c
  {
    forall x | x in cleared ensures x in cleared' {}
    match c
    case Writing(_, next) => StillKnows(s, s', cleared, cleared', i, next);
    case Sweeping(next) => StillKnows(s, s', cleared, cleared', i, next);
    case _ =>
  }

  // ---- what the store's operations do to the counts --------------------------------------------

  lemma CreateCounts(u: Tables, s: Store, p: Proposal, now: real, id: int)
    ensures var s' := Create(u, s, p, now).0;
      Is(s', id, Expired) == Is(s, id, Expired) && Is(s', id, Executed) == Is(s, id, Executed)
  {}

  lemma DecideCounts(u: Tables, s: Store, who: int, approver: string, vote: Vote, checked: real, recorded: real, id: int)
    ensures var (s', result) := Decide(u, s, who, approver, vote, checked, recorded);
      && Is(s', id, Executed) == Is(s, id, Executed)
      && Is(s', id, Expired) == Is(s, id, Expired) + (if result == Err(PastDeadline) && id == who then 1 else 0)
      && (result == Err(PastDeadline) || result.Ok? ==> s'.Has(who))
  {}

  lemma ExpireCounts(s: Store, now: real, id: int)
    ensures var (s', ids) := ExpireDue(s, now);
      && Is(s', id, Executed) == Is(s, id, Executed)
      && Is(s', id, Expired) == Is(s, id, Expired) + (if id in ids then 1 else 0)
      && L.Distinct(ids)
  {
    S.DueIdsAre(s.requests, now);
  }

  lemma ClaimCounts(u: Tables, s: Store, who: int, now: real, id: int)
    ensures var (s', result) := Claim(u, s, who, now);
      && Is(s', id, Executed) == Is(s, id, Executed) + (if result.Ok? && id == who then 1 else 0)
      && Is(s', id, Expired) == Is(s, id, Expired) + (if result == Err(PastDeadline) && id == who then 1 else 0)
      && (result.Ok? ==> s.Has(who) && now < s.Row(who).expiresAt)
  {}

  lemma CloseCounts(s: Store, who: int, text: string, id: int)
    ensures var s' := Cancel(s, who, text).0;
      Is(s', id, Executed) == Is(s, id, Executed) && Is(s', id, Expired) == Is(s, id, Expired)
    ensures var s' := SetNote(s, who, text);
      Is(s', id, Executed) == Is(s, id, Executed) && Is(s', id, Expired) == Is(s, id, Expired)
  {}

  // ---- one step keeps the balance --------------------------------------------------------------

  /** Entries written plus entries owed move with the requests that are expired; runs made plus runs claimed move with
      the requests that are executed. */
  ghost predicate Balanced(s: Store, c: Caller, m: Move, id: int) {
    && (if m.line.Some? && IsExpired(m.line.value, id) then 1 else 0) + Owed(m.caller, id) + Is(s, id, Expired)
       == Owed(c, id) + Is(m.store, id, Expired)
    && (if m.executes.Some? && m.executes.value.id == id then 1 else 0) + Entitlement(m.caller, id) + Is(s, id, Executed)
       == Entitlement(c, id) + Is(m.store, id, Executed)
  }

  lemma QuietLines(lines: seq<A.Note>, next: Caller, id: int)
    requires forall n | n in lines :: n.kind != A.Kind.Expired
    requires !next.Writing? && !next.Sweeping? && !next.Entitled?
    ensures Owed(Writing(lines, next), id) == 0 && Entitlement(Writing(lines, next), id) == 0
  {
    NoneExpired(lines, id);
  }

  lemma SettledExpired(s: Store, who: int, result: Result<Request, Error>, id: int)
    requires result == Err(PastDeadline) || result.Ok? ==> s.Has(who)
    ensures ExpiredIn(SettledLines(s, who, result), id) == if result == Err(PastDeadline) && id == who then 1 else 0
  {
    var lines := SettledLines(s, who, result);
    if result == Err(PastDeadline) {
      assert lines == [ExpiredLine(s, who)];
      OneExpired(ExpiredLine(s, who), id);
    } else {
      NoneExpired(lines, id);
    }
  }

  lemma DecideBalances(u: Tables, s: Store, i: nat, c: Caller, a: Answer, id: int)
    requires c.Opening? || c.Deciding? || c.Voting?
    ensures Balanced(s, c, NextMove(u, s, i, c, a), id)
  {
    hide Create, Decide, SettledLines, ExpiredIn, Is;
    match c
    case Opening(p) =>
      var (s', result) := Create(u, s, p, a.now);
      CreateCounts(u, s, p, a.now, id);
      if result.Ok? { QuietLines([L.Opened(result.value, |s'.requests|)], Done, id); }
    case Deciding(who, approver, vote) =>
      if s.Has(who) {
        var lines := GateLines(s.Row(who), who, a.gate, A.ApprovalPrecheck);
        QuietLines(lines, Voting(who, approver, vote), id);
        QuietLines(lines + [Line(s.Row(who), who, A.Rejected, A.ApprovalRefused)], Done, id);
      }
    case Voting(who, approver, vote) =>
      var (s', result) := Decide(u, s, who, approver, vote, a.now, a.later);
      DecideCounts(u, s, who, approver, vote, a.now, a.later, id);
      SettledExpired(s', who, result, id);
      assert Owed(Done, id) == 0 && Entitlement(Done, id) == 0;
  }

  lemma SweepBalances(u: Tables, s: Store, i: nat, c: Caller, a: Answer, id: int)
    requires c.Sweeping? || c.Writing?
    ensures Balanced(s, c, NextMove(u, s, i, c, a), id)
  {
    hide Is, ExpireDue, ExpiredIn, IsExpired;
    match c
    case Sweeping(next) =>
      var (s', ids) := ExpireDue(s, a.now);
      ExpireCounts(s, a.now, id);
      DueAreThere(s, a.now);
      SweptLines(s', ids, id);
    case Writing(lines, next) => WriteBalances(lines, next, id);
  }

  lemma WriteBalances(lines: seq<A.Note>, next: Caller, id: int)
    ensures lines == [] ==> Owed(Writing(lines, next), id) == Owed(next, id)
    ensures lines != [] ==> Owed(Writing(lines, next), id) == (if IsExpired(lines[0], id) then 1 else 0) + Owed(Writing(lines[1..], next), id)
  {
    if lines != [] {
      ExpiredInTwo([lines[0]], lines[1..], id);
      assert lines == [lines[0]] + lines[1..];
      OneExpired(lines[0], id);
    }
  }

  lemma ExecuteBalances(u: Tables, s: Store, i: nat, c: Caller, a: Answer, id: int)
    requires !(c.Opening? || c.Deciding? || c.Voting? || c.Sweeping? || c.Writing? || c.Claiming?)
    ensures Balanced(s, c, NextMove(u, s, i, c, a), id)
  {
    hide Is, ExpiredIn, Cancel, SetNote, Approvers;
    match c
    case Checking(who, req) => QuietLines([RefusedLine(req, who, req.status)], Done, id);
    case Gating(who, req) =>
      QuietLines(GateLines(req, who, a.gate, A.ApprovalRecheck), if Allows(a.gate, req.tier) then DryRunning(who, req, a.gate.tier) else Cancelling(who, req), id);
    case DryRunning(who, req, allowed) =>
      QuietLines(DryRunLines(req, who, a.ok), if a.ok then Claiming(who, req, allowed) else Cancelling(who, req), id);
    case Entitled(who, req, allowed, at) =>
      var ran := Line(req, who, A.Execution, A.Execute).(ok := Some(a.ok));
      QuietLines([ran], Verifying(who, req), id);
      QuietLines([ran, Line(req, who, A.Failed, A.Execute)], Annotating(who), id);
    case Verifying(who, req) =>
      var checked := Line(req, who, A.Verification, A.Result).(ok := Some(a.ok));
      QuietLines([checked] + (if a.ok then [Line(req, who, A.Verification, A.Closed)] else []), Annotating(who), id);
    case Annotating(who) => CloseCounts(s, who, a.text, id);
    case Cancelling(who, req) => CloseCounts(s, who, a.text, id);
    case Reporting(who, req) => if s.Has(who) { QuietLines([RefusedLine(req, who, s.Row(who).status)], Done, id); }
    case Looking(who, req) => assert Owed(Rereading(who), id) == 0 && Entitlement(Rereading(who), id) == 0;
    case _ =>
  }

  lemma ClaimBalances(u: Tables, s: Store, i: nat, c: Caller, a: Answer, id: int)
    requires c.Claiming?
    ensures Balanced(s, c, NextMove(u, s, i, c, a), id)
  {
    hide Is, ExpiredIn, Claim;
    ClaimCounts(u, s, c.id, a.now, id);
    OneExpired(Line(c.req, c.id, A.Kind.Expired, A.Stage.Approval), id);
    NoneExpired([], id);
    assert Owed(Reporting(c.id, c.req), id) == 0 && Entitlement(Reporting(c.id, c.req), id) == 0;
  }

  lemma MoveBalances(u: Tables, s: Store, i: nat, c: Caller, a: Answer, id: int)
    ensures Balanced(s, c, NextMove(u, s, i, c, a), id)
  {
    if c.Opening? || c.Deciding? || c.Voting? { DecideBalances(u, s, i, c, a, id); }
    else if c.Sweeping? || c.Writing? { SweepBalances(u, s, i, c, a, id); }
    else if c.Claiming? { ClaimBalances(u, s, i, c, a, id); }
    else { ExecuteBalances(u, s, i, c, a, id); }
  }

  // ---- the whole world -------------------------------------------------------------------------

  lemma MoveIsLater(u: Tables, s: Store, i: nat, c: Caller, a: Answer)
    ensures Later(s, NextMove(u, s, i, c, a).store)
  {
    hide Create, Decide, ExpireDue, Claim, Cancel, SetNote;
    match c
    case Opening(p) => StepIsLater(u, s, DoCreate(p, a.now));
    case Voting(id, approver, vote) => StepIsLater(u, s, DoDecide(id, approver, vote, a.now, a.later));
    case Sweeping(_) => StepIsLater(u, s, DoExpireDue(a.now));
    case Claiming(id, _, _) => StepIsLater(u, s, DoClaim(id, a.now));
    case Annotating(id) => StepIsLater(u, s, DoSetNote(id, a.text));
    case Cancelling(id, _) => StepIsLater(u, s, DoCancel(id, a.text));
    case _ => StepIsLater(u, s, DoSetNote(0, ""));
  }

  lemma MoveKeepsStore(u: Tables, s: Store, i: nat, c: Caller, a: Answer)
    requires u.Lawful() && Inv(s)
    ensures Inv(NextMove(u, s, i, c, a).store)
  {
    hide Create, Decide, ExpireDue, Claim, Cancel, SetNote, Inv;
    match c
    case Opening(p) => StepKeeps(u, s, DoCreate(p, a.now));
    case Voting(id, approver, vote) => StepKeeps(u, s, DoDecide(id, approver, vote, a.now, a.later));
    case Sweeping(_) => StepKeeps(u, s, DoExpireDue(a.now));
    case Claiming(id, _, _) => StepKeeps(u, s, DoClaim(id, a.now));
    case Annotating(id) => StepKeeps(u, s, DoSetNote(id, a.text));
    case Cancelling(id, _) => StepKeeps(u, s, DoCancel(id, a.text));
    case _ =>
  }

  /** A run on the target by a caller cleared by its own gate run for the request's own tier, which claimed the request
      before its deadline. */
  ghost predicate Rightful(s: Store, cleared: seq<Clearance>, e: TargetRun) {
    && s.Has(e.id) && s.Row(e.id).status == Executed
    && Clearance(e.caller, e.id, e.allowed) in cleared && e.allowed == s.Row(e.id).tier
    && e.claimedAt < s.Row(e.id).expiresAt
  }

  lemma MoveKnows(u: Tables, s: Store, cleared: seq<Clearance>, i: nat, c: Caller, a: Answer)
    requires Knows(s, cleared, i, c)
    ensures var m := NextMove(u, s, i, c, a);
      && Knows(m.store, Plus(cleared, m.clears), i, m.caller)
      && (m.executes.Some? ==> m.executes.value.caller == i && Rightful(s, cleared, m.executes.value))
  {
    hide Create, Decide, ExpireDue, Claim, Cancel, SetNote, Approvers, Later, GateLines, Line;
    MoveIsLater(u, s, i, c, a);
    match c
    case Writing(_, next) => StillKnows(s, s, cleared, cleared, i, next);
    case Sweeping(next) => StillKnows(s, NextMove(u, s, i, c, a).store, cleared, cleared, i, next);
    case Gating(id, req) =>
      var m := NextMove(u, s, i, c, a);
      if m.clears.Some? { assert m.clears.value in Plus(cleared, m.clears); }
    case DryRunning(id, req, allowed) =>
      assert a.ok ==> Knows(s, cleared, i, Claiming(id, req, allowed));
    case Claiming(id, req, allowed) => ClaimKnows(u, s, cleared, i, c, a);
    case Cancelling(id, req) => StillKnows(s, NextMove(u, s, i, c, a).store, cleared, cleared, i, Reporting(id, req));
    case _ =>
  }

  lemma ClaimKnows(u: Tables, s: Store, cleared: seq<Clearance>, i: nat, c: Caller, a: Answer)
    requires c.Claiming? && Knows(s, cleared, i, c)
    ensures var m := NextMove(u, s, i, c, a); Knows(m.store, Plus(cleared, m.clears), i, m.caller)
  {
    ClaimCounts(u, s, c.id, a.now, c.id);
  }

  ghost predicate AllKnow(w: World) {
    forall i: nat | i < |w.callers| :: Knows(w.store, w.clearances, i, w.callers[i])
  }

  ghost predicate AllRightful(w: World) {
    forall k | 0 <= k < |w.executions| :: Rightful(w.store, w.clearances, w.executions[k])
  }

  ghost predicate Balances(w: World) {
    forall id: int ::
      && ExpiredIn(w.log, id) + OwedByAll(w.callers, id) == Is(w.store, id, Expired)
      && ExecutionsOf(w.executions, id) + Entitlements(w.callers, id) == Is(w.store, id, Executed)
  }

  ghost predicate Sound(w: World) { Inv(w.store) && AllKnow(w) && AllRightful(w) && Balances(w) }

  lemma PlusCounts(w: World, line: Option<A.Note>, run: Option<TargetRun>, id: int)
    ensures ExpiredIn(Plus(w.log, line), id) == ExpiredIn(w.log, id) + (if line.Some? && IsExpired(line.value, id) then 1 else 0)
    ensures ExecutionsOf(Plus(w.executions, run), id) == ExecutionsOf(w.executions, id) + (if run.Some? && run.value.id == id then 1 else 0)
  {
    if line.Some? { assert (w.log + [line.value])[..|w.log|] == w.log; }
    if run.Some? { assert (w.executions + [run.value])[..|w.executions|] == w.executions; }
  }

  lemma StepBalances(u: Tables, w: World, i: nat, a: Answer)
    requires Balances(w) && i < |w.callers|
    ensures Balances(Happen(u, w, Steps(i, a)))
  {
    hide NextMove, ExpiredIn, ExecutionsOf, OwedByAll, Entitlements, Is, Owed, Entitlement, IsExpired, Plus;
    var w', m := Happen(u, w, Steps(i, a)), NextMove(u, w.store, i, w.callers[i], a);
    forall id: int
      ensures ExpiredIn(w'.log, id) + OwedByAll(w'.callers, id) == Is(w'.store, id, Expired)
      ensures ExecutionsOf(w'.executions, id) + Entitlements(w'.callers, id) == Is(w'.store, id, Executed)
    {
      MoveBalances(u, w.store, i, w.callers[i], a, id);
      OwedUpdate(w.callers, i, m.caller, id);
      PlusCounts(w, m.line, m.executes, id);
    }
  }

  lemma RightfulLater(s: Store, s': Store, cleared: seq<Clearance>, cleared': seq<Clearance>, e: TargetRun)
    requires Rightful(s, cleared, e) && Later(s, s') && cleared <= cleared'
    ensures Rightful(s', cleared', e)
  {}

  lemma StepKnows(u: Tables, w: World, i: nat, a: Answer)
    requires AllKnow(w) && AllRightful(w) && i < |w.callers|
    ensures AllKnow(Happen(u, w, Steps(i, a))) && AllRightful(Happen(u, w, Steps(i, a)))
  {
    hide NextMove, Later, Knows, Rightful;
    var w', m := Happen(u, w, Steps(i, a)), NextMove(u, w.store, i, w.callers[i], a);
    MoveIsLater(u, w.store, i, w.callers[i], a);
    MoveKnows(u, w.store, w.clearances, i, w.callers[i], a);
    forall j: nat | j < |w'.callers| ensures Knows(w'.store, w'.clearances, j, w'.callers[j]) {
      if j != i { StillKnows(w.store, w'.store, w.clearances, w'.clearances, j, w.callers[j]); }
    }
    forall k | 0 <= k < |w'.executions| ensures Rightful(w'.store, w'.clearances, w'.executions[k]) {
      RightfulLater(w.store, w'.store, w.clearances, w'.clearances, w'.executions[k]);
    }
  }

  lemma ArrivalOwesNothing(callers: seq<Caller>, c: Caller, id: int)
    requires IsStart(c)
    ensures OwedByAll(callers + [c], id) == OwedByAll(callers, id) && Entitlements(callers + [c], id) == Entitlements(callers, id)
  {
    assert (callers + [c])[..|callers|] == callers;
    assert Owed(Done, id) == 0 && Entitlement(Done, id) == 0;
  }

  lemma ArrivalKeeps(u: Tables, w: World, c: Caller)
    requires Sound(w) && IsStart(c)
    ensures Sound(Happen(u, w, Arrives(c)))
  {
    hide Inv, ExpiredIn, ExecutionsOf, OwedByAll, Entitlements, Rightful, Is;
    var w' := Happen(u, w, Arrives(c));
    forall id: int
      ensures ExpiredIn(w'.log, id) + OwedByAll(w'.callers, id) == Is(w'.store, id, Expired)
      ensures ExecutionsOf(w'.executions, id) + Entitlements(w'.callers, id) == Is(w'.store, id, Executed)
    {
      ArrivalOwesNothing(w.callers, c, id);
    }
    assert Knows(w.store, w.clearances, |w.callers|, c);
  }

  lemma HappenKeeps(u: Tables, w: World, e: Event)
    requires u.Lawful() && Sound(w)
    ensures Sound(Happen(u, w, e))
  {
    match e
    case Arrives(c) => if IsStart(c) { ArrivalKeeps(u, w, c); }
    case Steps(i, a) =>
      if i < |w.callers| {
        hide NextMove, Inv;
        MoveKeepsStore(u, w.store, i, w.callers[i], a);
        StepBalances(u, w, i, a);
        StepKnows(u, w, i, a);
      }
  }

  lemma {:induction false} AfterIsSound(u: Tables, events: seq<Event>)
    requires u.Lawful()
    ensures Sound(After(u, events))
  {
    if events != [] {
      AfterIsSound(u, events[..|events| - 1]);
      HappenKeeps(u, After(u, events[..|events| - 1]), events[|events| - 1]);
    }
  }

  // ---- no run without a dry run ----------------------------------------------------------------

  predicate IsGoodDryRun(n: A.Note, id: int) {
    n.kind == A.Execution && n.stage == A.DryRun && n.requestId == Some(id) && n.ok == Some(true)
  }

  /** A dry run of the request went through and was written down. */
  predicate DryRunIn(lines: seq<A.Note>, id: int) { exists n :: n in lines && IsGoodDryRun(n, id) }

  /** A caller that is on its way to the target has such a line in the log, or writes it first. */
  predicate Rehearsed(log: seq<A.Note>, c: Caller)
    decreases c
  {
    match c
    case Writing(lines, next) => Rehearsed(log + lines, next)
    case Sweeping(next) => Rehearsed(log, next)
    case Claiming(id, _, _) => DryRunIn(log, id)
    case Entitled(id, _, _, _) => DryRunIn(log, id)
    case _ => true
  }

  lemma {:induction false} StillRehearsed(log: seq<A.Note>, log': seq<A.Note>, c: Caller)
    requires Rehearsed(log, c) && forall n | n in log :: n in log'
    ensures Rehearsed(log', c)
    decreases c
  {
    match c
    case Writing(lines, next) => StillRehearsed(log + lines, log' + lines, next);
    case Sweeping(next) => StillRehearsed(log, log', next);
    case _ =>
  }

  lemma MoveRehearsed(u: Tables, s: Store, i: nat, c: Caller, a: Answer, log: seq<A.Note>)
    requires Rehearsed(log, c)
    ensures var m := NextMove(u, s, i, c, a);
      && Rehearsed(Plus(log, m.line), m.caller)
      && (m.executes.Some? ==> DryRunIn(log, m.executes.value.id))
  {
    hide Create, Decide, ExpireCall, Claim, Cancel, SetNote, Approvers, GateLines, SettledLines, IsGoodDryRun;
    match c
    case Writing(lines, next) =>
      if lines == [] {
        assert log + lines == log;
      } else {
        assert log + [lines[0]] + lines[1..] == log + lines;
      }
    case Sweeping(next) => StillRehearsed(log, log + ExpireCall(s, a.now).1, next);
    case DryRunning(id, req, allowed) => DryRunIsWritten(req, id, a.ok, log);
    case Claiming(id, req, allowed) =>
    case _ =>
  }

  lemma DryRunIsWritten(req: Request, id: int, ok: bool, log: seq<A.Note>)
    ensures ok ==> DryRunIn(log + DryRunLines(req, id, ok), id)
  {
    var lines := DryRunLines(req, id, ok);
    assert lines[0] in log + lines;
  }

  ghost predicate AllRehearsed(w: World) {
    && (forall i | 0 <= i < |w.callers| :: Rehearsed(w.log, w.callers[i]))
    && (forall k | 0 <= k < |w.executions| :: DryRunIn(w.log, w.executions[k].id))
  }

  lemma {:induction false} AfterIsRehearsed(u: Tables, events: seq<Event>)
    ensures AllRehearsed(After(u, events))
  {
    if events != [] {
      AfterIsRehearsed(u, events[..|events| - 1]);
      HappenRehearsed(u, After(u, events[..|events| - 1]), events[|events| - 1]);
    }
  }

  lemma HappenRehearsed(u: Tables, w: World, e: Event)
    requires AllRehearsed(w)
    ensures AllRehearsed(Happen(u, w, e))
  {
    hide NextMove, DryRunIn;
    match e
    case Arrives(c) => if IsStart(c) { assert Rehearsed(w.log, Done) && Rehearsed(w.log, c); }
    case Steps(i, a) =>
      if i < |w.callers| {
        var m, w' := NextMove(u, w.store, i, w.callers[i], a), Happen(u, w, e);
        MoveRehearsed(u, w.store, i, w.callers[i], a, w.log);
        forall j | 0 <= j < |w'.callers| ensures Rehearsed(w'.log, w'.callers[j]) {
          if j != i { StillRehearsed(w.log, w'.log, w.callers[j]); }
        }
        forall k | 0 <= k < |w'.executions| ensures DryRunIn(w'.log, w'.executions[k].id) {
          StillIn(w.log, w'.log, w'.executions[k].id);
        }
      }
  }

  lemma StillIn(log: seq<A.Note>, log': seq<A.Note>, id: int)
    requires forall n | n in log :: n in log'
    ensures DryRunIn(log, id) ==> DryRunIn(log', id)
  {}

  // ---- the promises ----------------------------------------------------------------------------

  /** Under every interleaving the target is entered at most once per request, and never while someone still holds a
      claim on it. */
  lemma AtMostOnce(u: Tables, events: seq<Event>, id: int)
    requires u.Lawful()
    ensures var w := After(u, events);
      && ExecutionsOf(w.executions, id) + Entitlements(w.callers, id) <= 1
      && (ExecutionsOf(w.executions, id) + Entitlements(w.callers, id) == 1 <==> w.store.Has(id) && w.store.Row(id).status == Executed)
  {
    AfterIsSound(u, events);
  }

  /** Every run on the target was made by a caller whose own gate run allowed the request's own tier, who had claimed it
      before the deadline, with the quorum of other people's approvals and no denial, after a dry run that went through. */
  lemma EveryRunIsAuthorised(u: Tables, events: seq<Event>, e: TargetRun)
    requires u.Lawful() && e in After(u, events).executions
    ensures var w := After(u, events);
      && w.store.Has(e.id)
      && Clearance(e.caller, e.id, w.store.Row(e.id).tier) in w.clearances
      && e.claimedAt < w.store.Row(e.id).expiresAt
      && |ApproversOf(u, w.store, e.id)| == Required(w.store.Row(e.id).tier)
      && w.store.Row(e.id).requestedBy !in ApproversOf(u, w.store, e.id)
      && !HasDenial(w.store.decisions, e.id)
      && DryRunIn(w.log, e.id)
  {
    AfterIsSound(u, events);
    AfterIsRehearsed(u, events);
    var w := After(u, events);
    var k :| 0 <= k < |w.executions| && w.executions[k] == e;
    assert Rightful(w.store, w.clearances, w.executions[k]);
    RunWasJustified(u, w.store, e.id);
  }

  lemma RunWasJustified(u: Tables, s: Store, id: int)
    requires u.Lawful() && Inv(s) && s.Has(id) && s.Row(id).status == Executed
    ensures |ApproversOf(u, s, id)| == Required(s.Row(id).tier) && s.Row(id).requestedBy !in ApproversOf(u, s, id)
    ensures !HasDenial(s.decisions, id)
  {
    assert Justified(s, id) && RowChecks(s.Row(id));
    QuorumIsCount(u, s, id);
    forall k | 0 <= k < |s.decisions| ensures StoredIdentity(s.decisions[k].approver) { assert DecisionHolds(s, s.decisions[k]); }
    CountsAgree(u, s.decisions, id, s.Row(id).requestedBy);
  }

  /** A request has at most one `expired` entry, none unless it is expired, and exactly one when nobody has an entry
      left to write, whichever of the four paths found it overdue. */
  lemma ExpiryIsAuditedOnce(u: Tables, events: seq<Event>, id: int)
    requires u.Lawful()
    ensures var w := After(u, events);
      && ExpiredIn(w.log, id) <= Is(w.store, id, Expired)
      && ((forall i | 0 <= i < |w.callers| :: w.callers[i].Done?) ==> ExpiredIn(w.log, id) == Is(w.store, id, Expired))
  {
    AfterIsSound(u, events);
    var w := After(u, events);
    if forall i | 0 <= i < |w.callers| :: w.callers[i].Done? { NothingOwed(w.callers, id); }
  }

  lemma {:induction false} NothingOwed(callers: seq<Caller>, id: int)
    requires forall i | 0 <= i < |callers| :: callers[i].Done?
    ensures OwedByAll(callers, id) == 0
  {
    if callers != [] { NothingOwed(callers[..|callers| - 1], id); }
  }
}
