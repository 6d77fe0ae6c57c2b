/** What every approval store reached by its operations satisfies. */
module ApprovalLaws {
  import opened Identity
  import opened Approvals

  // ---- the invariant ---------------------------------------------------------------------------

  ghost predicate RowsHold(s: Store) {
    forall id | s.Has(id) :: RowChecks(s.Row(id)) && s.Row(id).expiresAt == s.Row(id).requestedAt + Timeout(s.Row(id).tier)
  }

  ghost predicate DecisionHolds(s: Store, d: Decision) {
    && s.Has(d.request) && StoredIdentity(d.approver)
    && (d.vote == Approve ==> d.approver != s.Row(d.request).requestedBy)
  }

  ghost predicate DecisionsHold(s: Store) { forall k | 0 <= k < |s.decisions| :: DecisionHolds(s, s.decisions[k]) }

  /** Nobody decides the same request twice. */
  ghost predicate OncePerPerson(ds: seq<Decision>) {
    forall i, j | 0 <= i < j < |ds| :: !(ds[i].request == ds[j].request && ds[i].approver == ds[j].approver)
  }

  ghost predicate OneOpen(s: Store) {
    forall a, b | s.Has(a) && s.Has(b) && a != b :: !(IsOpen(s.Row(a).status) && IsOpen(s.Row(b).status) && SameKey(s.Row(a), s.Row(b)))
  }

  /** The status is what the decisions make it. */
  ghost predicate Justified(s: Store, id: int)
    requires s.Has(id)
  {
    var r, n, denied := s.Row(id), Count(s.decisions, id, s.Row(id).requestedBy), HasDenial(s.decisions, id);
    match r.status
    case Pending => n < r.required && !denied
    case Approved => n == r.required && !denied
    case Executed => n == r.required && !denied
    case Denied => n < r.required && denied
    case Expired => n <= r.required && !denied
    case Cancelled => n <= r.required && !denied
  }

  ghost predicate AllJustified(s: Store) { forall id | s.Has(id) :: Justified(s, id) }

  ghost predicate Inv(s: Store) {
    RowsHold(s) && DecisionsHold(s) && OncePerPerson(s.decisions) && OneOpen(s) && AllJustified(s)
  }

  // ---- the two counts agree --------------------------------------------------------------------

  lemma DecidedNext(ds: seq<Decision>, d: Decision, id: int, who: string)
    ensures Decided(ds + [d], id, who) <==> Decided(ds, id, who) || (d.request == id && d.approver == who)
  {
    if Decided(ds, id, who) {
      var k :| 0 <= k < |ds| && ds[k].request == id && ds[k].approver == who;
      assert (ds + [d])[k] == ds[k];
    }
    if d.request == id && d.approver == who { assert (ds + [d])[|ds|] == d; }
  }

  lemma {:induction false} ApproversVoted(u: Tables, ds: seq<Decision>, id: int, requester: string, who: string)
    requires u.Lawful() && forall k | 0 <= k < |ds| :: StoredIdentity(ds[k].approver)
    requires who in Approvers(u, ds, id, requester)
    ensures Decided(ds, id, who)
  {
    var n := |ds| - 1;
    CheckIsNormalForm(u, ds[n].approver);
    assert ds == ds[..n] + [ds[n]];
    DecidedNext(ds[..n], ds[n], id, who);
    if who in Approvers(u, ds[..n], id, requester) { ApproversVoted(u, ds[..n], id, requester, who); }
  }

  /** The store's list of approvers is as long as the schema's count, and names nobody twice. */
  lemma {:induction false} CountsAgree(u: Tables, ds: seq<Decision>, id: int, requester: string)
    requires u.Lawful() && OncePerPerson(ds) && forall k | 0 <= k < |ds| :: StoredIdentity(ds[k].approver)
    ensures var seen := Approvers(u, ds, id, requester);
      && |seen| == Count(ds, id, requester)
      && (forall i, j | 0 <= i < j < |seen| :: seen[i] != seen[j])
      && requester !in seen
  {
    if ds != [] {
      var n := |ds| - 1;
      CountsAgree(u, ds[..n], id, requester);
      CheckIsNormalForm(u, ds[n].approver);
      if ds[n].approver in Approvers(u, ds[..n], id, requester) { ApproversVoted(u, ds[..n], id, requester, ds[n].approver); }
    }
  }

  lemma QuorumIsCount(u: Tables, s: Store, id: int)
    requires u.Lawful() && DecisionsHold(s) && OncePerPerson(s.decisions) && s.Has(id)
    ensures |ApproversOf(u, s, id)| == Count(s.decisions, id, s.Row(id).requestedBy)
  {
    forall k | 0 <= k < |s.decisions| ensures StoredIdentity(s.decisions[k].approver) { assert DecisionHolds(s, s.decisions[k]); }
    CountsAgree(u, s.decisions, id, s.Row(id).requestedBy);
  }

  // ---- one more decision -----------------------------------------------------------------------

  lemma CountNext(ds: seq<Decision>, d: Decision, id: int, requester: string)
    ensures Count(ds + [d], id, requester) == Count(ds, id, requester) + (if CountsFor(d, id, requester) then 1 else 0)
  {
    assert (ds + [d])[..|ds|] == ds;
  }

  lemma DenialNext(ds: seq<Decision>, d: Decision, id: int)
    ensures HasDenial(ds + [d], id) <==> HasDenial(ds, id) || (d.request == id && d.vote == Deny)
  {
    if HasDenial(ds, id) {
      var k :| 0 <= k < |ds| && ds[k].request == id && ds[k].vote == Deny;
      assert (ds + [d])[k] == ds[k];
    }
    if d.request == id && d.vote == Deny { assert (ds + [d])[|ds|] == d; }
  }

  lemma {:induction false} NobodyVoted(ds: seq<Decision>, id: int, requester: string)
    requires forall k | 0 <= k < |ds| :: ds[k].request != id
    ensures Count(ds, id, requester) == 0 && !HasDenial(ds, id)
  {
    if ds != [] { NobodyVoted(ds[..|ds| - 1], id, requester); }
  }

  // ---- every operation keeps it ----------------------------------------------------------------

  ghost predicate SameRequest(a: Request, b: Request) { a.(status := b.status, note := b.note) == b }

  /** A status moved by something else than a decision. */
  ghost predicate Moves(before: Status, after: Status) {
    || after == before || (IsOpen(before) && (after == Expired || after == Cancelled)) || (before == Approved && after == Executed)
  }

  ghost predicate Moved(s: Store, s': Store) {
    && s'.decisions == s.decisions && |s'.requests| == |s.requests|
    && forall id | s.Has(id) :: SameRequest(s.Row(id), s'.Row(id)) && Moves(s.Row(id).status, s'.Row(id).status)
  }

  lemma MovedKeeps(s: Store, s': Store)
    requires Inv(s) && Moved(s, s')
    ensures Inv(s')
  {
    forall id | s'.Has(id) ensures RowChecks(s'.Row(id)) && s'.Row(id).expiresAt == s'.Row(id).requestedAt + Timeout(s'.Row(id).tier) {
      assert s.Has(id) && SameRequest(s.Row(id), s'.Row(id));
    }
    forall k | 0 <= k < |s'.decisions| ensures DecisionHolds(s', s'.decisions[k]) {
      assert DecisionHolds(s, s.decisions[k]);
      assert SameRequest(s.Row(s.decisions[k].request), s'.Row(s.decisions[k].request));
    }
    forall a, b | s'.Has(a) && s'.Has(b) && a != b
      ensures !(IsOpen(s'.Row(a).status) && IsOpen(s'.Row(b).status) && SameKey(s'.Row(a), s'.Row(b)))
    {
      assert s.Has(a) && s.Has(b) && SameRequest(s.Row(a), s'.Row(a)) && SameRequest(s.Row(b), s'.Row(b));
    }
    forall id | s'.Has(id) ensures Justified(s', id) {
      assert Justified(s, id) && SameRequest(s.Row(id), s'.Row(id));
    }
  }

  lemma CreateKeeps(u: Tables, s: Store, p: Proposal, now: real)
    requires u.Lawful() && Inv(s)
    ensures Inv(Create(u, s, p, now).0)
  {
    var s', result := Create(u, s, p, now).0, Create(u, s, p, now).1;
    if result.Ok? {
      var row, n := result.value, |s.requests| + 1;
      CheckIsNormalForm(u, row.requestedBy);
      NormalizeIsIdempotent(u, p.requestedBy, row.requestedBy);
      forall id | s'.Has(id) ensures id == n || (s.Has(id) && s'.Row(id) == s.Row(id)) {}
      forall k | 0 <= k < |s.decisions| ensures DecisionHolds(s', s.decisions[k]) && s.decisions[k].request != n {
        assert DecisionHolds(s, s.decisions[k]);
      }
      NobodyVoted(s.decisions, n, row.requestedBy);
      forall a, b | s'.Has(a) && s'.Has(b) && a != b
        ensures !(IsOpen(s'.Row(a).status) && IsOpen(s'.Row(b).status) && SameKey(s'.Row(a), s'.Row(b)))
      {
        if a == n { assert s'.Row(b) == s.requests[b - 1]; }
        if b == n { assert s'.Row(a) == s.requests[a - 1]; }
      }
      forall id | s'.Has(id) ensures Justified(s', id) { if id != n { assert Justified(s, id); } }
    }
  }

  /** What a vote changes: one decision more, and its request's status. */
  ghost predicate Votes(s: Store, s': Store, d: Decision) {
    && s'.decisions == s.decisions + [d] && |s'.requests| == |s.requests|
    && forall id | s.Has(id) :: SameRequest(s.Row(id), s'.Row(id)) && (id != d.request ==> s'.Row(id) == s.Row(id))
  }

  lemma VoteKeepsDecisions(s: Store, s': Store, d: Decision)
    requires Inv(s) && Votes(s, s', d) && DecisionHolds(s, d) && !Decided(s.decisions, d.request, d.approver)
    ensures DecisionsHold(s') && OncePerPerson(s'.decisions)
  {
    forall k | 0 <= k < |s'.decisions| ensures DecisionHolds(s', s'.decisions[k]) {
      assert DecisionHolds(s, s'.decisions[k]) by { if k < |s.decisions| { assert DecisionHolds(s, s.decisions[k]); } }
    }
  }

  lemma VoteKeepsRows(s: Store, s': Store, d: Decision)
    requires Inv(s) && Votes(s, s', d) && s.Has(d.request) && IsOpen(s.Row(d.request).status)
    ensures RowsHold(s') && OneOpen(s')
  {
    forall id | s'.Has(id) ensures RowChecks(s'.Row(id)) && s'.Row(id).expiresAt == s'.Row(id).requestedAt + Timeout(s'.Row(id).tier) {
      assert s.Has(id) && SameRequest(s.Row(id), s'.Row(id));
    }
    forall a, b | s'.Has(a) && s'.Has(b) && a != b
      ensures !(IsOpen(s'.Row(a).status) && IsOpen(s'.Row(b).status) && SameKey(s'.Row(a), s'.Row(b)))
    {
      assert SameRequest(s.Row(a), s'.Row(a)) && SameRequest(s.Row(b), s'.Row(b));
    }
  }

  lemma VotedKeeps(u: Tables, s: Store, id: int, d: Decision)
    requires u.Lawful() && Inv(s) && s.Has(id) && s.Row(id).status == Pending
    requires d.request == id && DecisionHolds(s, d) && !Decided(s.decisions, id, d.approver)
    ensures Inv(Voted(u, s, id, d).0)
  {
    var s' := Voted(u, s, id, d).0;
    var mid := s.(decisions := s.decisions + [d]);
    assert Votes(s, mid, d) && Votes(s, s', d);
    VoteKeepsDecisions(s, mid, d);
    VoteKeepsDecisions(s, s', d);
    VoteKeepsRows(s, s', d);
    QuorumIsCount(u, mid, id);
    forall other | s'.Has(other) ensures Justified(s', other) {
      assert Justified(s, other) && RowChecks(s.Row(other));
      CountNext(s.decisions, d, other, s.Row(other).requestedBy);
      DenialNext(s.decisions, d, other);
    }
  }

  lemma DecideKeeps(u: Tables, s: Store, id: int, approver: string, vote: Vote, checked: real, recorded: real)
    requires u.Lawful() && Inv(s)
    ensures Inv(Decide(u, s, id, approver, vote, checked, recorded).0)
  {
    if Normalize(u, approver).Ok? && s.Has(id) {
      var who, r := Normalize(u, approver).value, s.Row(id);
      if Due(r, checked) {
        OverdueMoves(s, id);
        MovedKeeps(s, s.WithStatus(id, Expired));
      } else if r.status == Pending && !(vote == Approve && who == r.requestedBy) && !Decided(s.decisions, id, who) {
        NormalizeIsIdempotent(u, approver, who);
        VotedKeeps(u, s, id, Decision(id, who, vote, recorded));
      }
    }
  }

  lemma OverdueMoves(s: Store, id: int)
    requires s.Has(id) && IsOpen(s.Row(id).status)
    ensures Moved(s, s.WithStatus(id, Expired))
  {}

  lemma ExpireMoves(s: Store, now: real)
    ensures Moved(s, ExpireDue(s, now).0)
  {}

  lemma ClaimMoves(u: Tables, s: Store, id: int, now: real)
    ensures Moved(s, Claim(u, s, id, now).0)
  {}

  lemma CancelMoves(s: Store, id: int, note: string)
    ensures Moved(s, Cancel(s, id, note).0) && Moved(s, SetNote(s, id, note))
  {}

  // ---- runs ------------------------------------------------------------------------------------

  datatype Op =
    | DoCreate(proposal: Proposal, now: real)
    | DoDecide(id: int, approver: string, vote: Vote, checked: real, recorded: real)
    | DoExpireDue(now: real)
    | DoClaim(id: int, now: real)
    | DoCancel(id: int, note: string)
    | DoSetNote(id: int, note: string)

  function Step(u: Tables, s: Store, op: Op): Store {
    match op
    case DoCreate(p, now) => Create(u, s, p, now).0
    case DoDecide(id, approver, vote, checked, recorded) => Decide(u, s, id, approver, vote, checked, recorded).0
    case DoExpireDue(now) => ExpireDue(s, now).0
    case DoClaim(id, now) => Claim(u, s, id, now).0
    case DoCancel(id, note) => Cancel(s, id, note).0
    case DoSetNote(id, note) => SetNote(s, id, note)
  }

  function After(u: Tables, s: Store, ops: seq<Op>): Store {
    if ops == [] then s else Step(u, After(u, s, ops[..|ops| - 1]), ops[|ops| - 1])
  }

  /** Creating and voting apart, an operation only moves statuses. */
  lemma StepMoves(u: Tables, s: Store, op: Op)
    requires !op.DoCreate? && !op.DoDecide?
    ensures Moved(s, Step(u, s, op))
  {
    match op
    case DoExpireDue(now) => ExpireMoves(s, now);
    case DoClaim(id, now) => ClaimMoves(u, s, id, now);
    case DoCancel(id, note) => CancelMoves(s, id, note);
    case DoSetNote(id, note) => CancelMoves(s, id, note);
  }

  lemma StepKeeps(u: Tables, s: Store, op: Op)
    requires u.Lawful() && Inv(s)
    ensures Inv(Step(u, s, op))
  {
    match op
    case DoCreate(p, now) => CreateKeeps(u, s, p, now);
    case DoDecide(id, approver, vote, checked, recorded) => DecideKeeps(u, s, id, approver, vote, checked, recorded);
    case _ =>
      StepMoves(u, s, op);
      MovedKeeps(s, Step(u, s, op));
  }

  const EMPTY := Store([], [])

  lemma {:induction false} RunKeeps(u: Tables, s: Store, ops: seq<Op>)
    requires u.Lawful() && Inv(s)
    ensures Inv(After(u, s, ops))
  {
    if ops != [] {
      RunKeeps(u, s, ops[..|ops| - 1]);
      StepKeeps(u, After(u, s, ops[..|ops| - 1]), ops[|ops| - 1]);
    }
  }

  // ---- safety ----------------------------------------------------------------------------------

  /** In every store any run of operations can reach: an approved or executed request has exactly the quorum of
      approvals by distinct people other than the requester, and no denial. */
  lemma ApprovalsBehindExecution(u: Tables, ops: seq<Op>, id: int)
    requires u.Lawful()
    ensures var s := After(u, EMPTY, ops);
      s.Has(id) && (s.Row(id).status == Approved || s.Row(id).status == Executed) ==>
        var people := ApproversOf(u, s, id);
        && |people| == Required(s.Row(id).tier)
        && (forall i, j | 0 <= i < j < |people| :: people[i] != people[j])
        && s.Row(id).requestedBy !in people
        && !HasDenial(s.decisions, id)
  {
    var s := After(u, EMPTY, ops);
    RunKeeps(u, EMPTY, ops);
    if s.Has(id) {
      assert Justified(s, id) && RowChecks(s.Row(id));
      QuorumIsCount(u, s, id);
      forall k | 0 <= k < |s.decisions| ensures StoredIdentity(s.decisions[k].approver) { assert DecisionHolds(s, s.decisions[k]); }
      CountsAgree(u, s.decisions, id, s.Row(id).requestedBy);
    }
  }

  ghost predicate Reaches(before: Status, after: Status) {
    after == before || before == Pending || (before == Approved && (after == Executed || after == Expired || after == Cancelled))
  }

  /** Requests keep everything but status and note, statuses only move forward, terminal ones never, and decisions are
      only added. */
  ghost predicate Later(s: Store, s': Store) {
    && |s.requests| <= |s'.requests| && s.decisions <= s'.decisions
    && forall id | s.Has(id) :: SameRequest(s.Row(id), s'.Row(id)) && Reaches(s.Row(id).status, s'.Row(id).status)
  }

  lemma CreateIsLater(u: Tables, s: Store, p: Proposal, now: real)
    ensures Later(s, Create(u, s, p, now).0)
  {}

  lemma DecideIsLater(u: Tables, s: Store, id: int, approver: string, vote: Vote, checked: real, recorded: real)
    ensures Later(s, Decide(u, s, id, approver, vote, checked, recorded).0)
  {}

  lemma MovedIsLater(s: Store, s': Store)
    requires Moved(s, s')
    ensures Later(s, s')
  {}

  lemma StepIsLater(u: Tables, s: Store, op: Op)
    ensures Later(s, Step(u, s, op))
  {
    hide Later, Moved, Create, Decide, ExpireDue, Claim, Cancel, SetNote;
    match op
    case DoCreate(p, now) => CreateIsLater(u, s, p, now);
    case DoDecide(id, approver, vote, checked, recorded) => DecideIsLater(u, s, id, approver, vote, checked, recorded);
    case _ =>
      StepMoves(u, s, op);
      MovedIsLater(s, Step(u, s, op));
  }

  lemma LaterTwice(a: Store, b: Store, c: Store)
    requires Later(a, b) && Later(b, c)
    ensures Later(a, c)
  {
    forall id | a.Has(id) ensures SameRequest(a.Row(id), c.Row(id)) && Reaches(a.Row(id).status, c.Row(id).status) {
      assert b.Has(id);
    }
  }

  lemma {:induction false} HistoryOnlyGrows(u: Tables, s: Store, ops: seq<Op>, n: nat)
    requires n <= |ops|
    ensures Later(After(u, s, ops[..n]), After(u, s, ops))
    decreases |ops|
  {
    if n == |ops| {
      assert ops[..n] == ops;
    } else {
      var front := ops[..|ops| - 1];
      HistoryOnlyGrows(u, s, front, n);
      assert front[..n] == ops[..n];
      StepIsLater(u, After(u, s, front), ops[|ops| - 1]);
      LaterTwice(After(u, s, ops[..n]), After(u, s, front), After(u, s, ops));
    }
  }

  /** A request becomes executed only by a claim made before its deadline. */
  lemma OnlyClaimsExecute(u: Tables, s: Store, op: Op, id: int)
    requires s.Has(id) && s.Row(id).status != Executed && Step(u, s, op).Row(id).status == Executed
    ensures op.DoClaim? && op.id == id && op.now < s.Row(id).expiresAt && s.Row(id).status == Approved
  {}

  /** A decision appears only by a vote whose overdue check was made before the deadline, on a pending request. The
      time it carries is that of the second reading: before the deadline exactly when that reading was. */
  lemma DecisionsAreTimely(u: Tables, s: Store, op: Op, k: nat)
    requires |s.decisions| <= k < |Step(u, s, op).decisions|
    ensures op.DoDecide? && k == |s.decisions| && s.Has(op.id) && s.Row(op.id).status == Pending
    ensures op.checked < s.Row(op.id).expiresAt && Step(u, s, op).decisions[k].request == op.id
    ensures Step(u, s, op).decisions[k].at == op.recorded
  {}

  ghost predicate OnTime(s: Store) {
    forall k | 0 <= k < |s.decisions| :: s.Has(s.decisions[k].request) && s.decisions[k].at < s.Row(s.decisions[k].request).expiresAt
  }

  /** The operation adds a decision, and at the second reading of the clock the request's time is up. */
  ghost predicate AddsLate(u: Tables, s: Store, op: Op) {
    && |Step(u, s, op).decisions| > |s.decisions|
    && op.DoDecide? && s.Has(op.id) && op.recorded >= s.Row(op.id).expiresAt
  }

  ghost predicate Attached(s: Store) { forall k | 0 <= k < |s.decisions| :: s.Has(s.decisions[k].request) }

  lemma OneOnTime(u: Tables, s: Store, op: Op)
    requires Attached(s)
    ensures Attached(Step(u, s, op)) && (OnTime(Step(u, s, op)) <==> OnTime(s) && !AddsLate(u, s, op))
  {
    hide Step, Reaches;
    StepIsLater(u, s, op);
    var s', n := Step(u, s, op), |s.decisions|;
    forall k | 0 <= k < n
      ensures s'.decisions[k] == s.decisions[k]
      ensures s'.Row(s.decisions[k].request).expiresAt == s.Row(s.decisions[k].request).expiresAt
    {}
    if |s'.decisions| > n {
      DecisionsAreTimely(u, s, op, n);
      assert s'.Row(op.id).expiresAt == s.Row(op.id).expiresAt;
      if |s'.decisions| > n + 1 { DecisionsAreTimely(u, s, op, n + 1); }
    }
    if OnTime(s') {
      forall k | 0 <= k < n ensures s.decisions[k].at < s.Row(s.decisions[k].request).expiresAt {
        assert s'.decisions[k] == s.decisions[k];
      }
    }
  }

  ghost predicate NoneLate(u: Tables, ops: seq<Op>) {
    forall n | 0 <= n < |ops| :: !AddsLate(u, After(u, EMPTY, ops[..n]), ops[n])
  }

  lemma NoneLateNext(u: Tables, front: seq<Op>, op: Op)
    ensures NoneLate(u, front + [op]) <==> NoneLate(u, front) && !AddsLate(u, After(u, EMPTY, front), op)
  {
    hide After, AddsLate;
    var ops := front + [op];
    assert forall n | 0 <= n < |front| :: front[..n] == ops[..n] && front[n] == ops[n];
    assert ops[..|front|] == front && ops[|front|] == op;
    if NoneLate(u, ops) {
      forall n | 0 <= n < |front| ensures !AddsLate(u, After(u, EMPTY, front[..n]), front[n]) { assert front[..n] == ops[..n]; }
    }
  }

  /** In a whole run every decision is on time exactly when no operation that adds one reads the clock at or past the
      deadline the second time. */
  lemma {:induction false} DecisionsOnTime(u: Tables, ops: seq<Op>)
    ensures Attached(After(u, EMPTY, ops)) && (OnTime(After(u, EMPTY, ops)) <==> NoneLate(u, ops))
  {
    if ops != [] {
      hide Step, OnTime, Attached, AddsLate, NoneLate;
      var front, op := ops[..|ops| - 1], ops[|ops| - 1];
      assert ops == front + [op];
      DecisionsOnTime(u, front);
      OneOnTime(u, After(u, EMPTY, front), op);
      NoneLateNext(u, front, op);
    }
  }

  /** The two readings matter: wherever a vote could be recorded, one checked in time and recorded at the deadline
      leaves a decision that is not on time. */
  lemma LateVote(u: Tables, s: Store, id: int, who: string, vote: Vote)
    requires u.Lawful() && s.Has(id) && RowChecks(s.Row(id)) && s.Row(id).status == Pending
    requires StoredIdentity(who) && who != s.Row(id).requestedBy && !Decided(s.decisions, id, who)
    ensures !OnTime(Step(u, s, DoDecide(id, who, vote, s.Row(id).requestedAt, s.Row(id).expiresAt)))
  {
    CheckIsNormalForm(u, who);
    var op := DoDecide(id, who, vote, s.Row(id).requestedAt, s.Row(id).expiresAt);
    assert |Step(u, s, op).decisions| == |s.decisions| + 1;
    DecisionsAreTimely(u, s, op, |s.decisions|);
    StepIsLater(u, s, op);
    assert Step(u, s, op).decisions[|s.decisions|].at == s.Row(id).expiresAt;
  }

  /** Never more than one open request for an execution and action. */
  lemma {:induction false} OneOpenRequest(u: Tables, ops: seq<Op>, a: int, b: int)
    requires u.Lawful()
    ensures var s := After(u, EMPTY, ops);
      s.Has(a) && s.Has(b) && IsOpen(s.Row(a).status) && IsOpen(s.Row(b).status) && SameKey(s.Row(a), s.Row(b)) ==> a == b
  {
    RunKeeps(u, EMPTY, ops);
  }
}
