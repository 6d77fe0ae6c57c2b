/** Approval requests and decisions: the rows, the schema's rules, and what each store operation does. */
module Approvals {
  import opened Wrappers
  import opened Identity

  datatype Status = Pending | Approved | Denied | Expired | Executed | Cancelled

  datatype Vote = Approve | Deny

  datatype Request = Request(
    executionId: string, fingerprint: string, tier: int, action: string, requestedBy: string, requestedAt: real,
    expiresAt: real, status: Status, required: int, payload: string, note: string, gateSeq: Option<nat>)

  datatype Decision = Decision(request: int, approver: string, vote: Vote, at: real)

  /** The two tables. Rows are never deleted, so the request with id n is the n-th row. */
  datatype Store = Store(requests: seq<Request>, decisions: seq<Decision>) {
    predicate Has(id: int) { 1 <= id <= |requests| }

    function Row(id: int): Request
      requires Has(id)
    {
      requests[id - 1]
    }

    function WithStatus(id: int, status: Status): Store
      requires Has(id)
    {
      this.(requests := requests[id - 1 := Row(id).(status := status)])
    }
  }

  predicate IsOpen(status: Status) { status == Pending || status == Approved }

  predicate SameKey(a: Request, b: Request) { a.executionId == b.executionId && a.action == b.action }

  // ---- the schema ------------------------------------------------------------------------------

  datatype Statement =
    | InsertRequest(row: Request)
    | UpdateStatus(id: int, status: Status)
    | UpdateStatusAndNote(id: int, status: Status, note: string)
    | UpdateNote(id: int, note: string)
    | InsertDecision(decision: Decision)

  predicate RowChecks(r: Request) {
    && (r.tier == 1 || r.tier == 2)
    && StoredIdentity(r.requestedBy)
    && r.requestedAt < r.expiresAt <= r.requestedAt + 3600.0
    && r.required == if r.tier == 1 then 1 else 2
  }

  /** The unique index over open requests, asked when a row is written. */
  predicate KeyIsFree(s: Store, row: Request, except: int) {
    IsOpen(row.status) ==>
      forall k | 0 <= k < |s.requests| && k + 1 != except :: !(IsOpen(s.requests[k].status) && SameKey(s.requests[k], row))
  }

  predicate Forward(before: Status, after: Status) {
    || (before == Pending && (after == Approved || after == Denied || after == Expired || after == Cancelled))
    || (before == Approved && (after == Executed || after == Expired || after == Cancelled))
  }

  predicate CountsFor(d: Decision, id: int, requester: string) { d.request == id && d.vote == Approve && d.approver != requester }

  /** The schema's `count(*)` of approvals by others. */
  function Count(ds: seq<Decision>, id: int, requester: string): nat {
    if ds == [] then 0
    else Count(ds[..|ds| - 1], id, requester) + (if CountsFor(ds[|ds| - 1], id, requester) then 1 else 0)
  }

  predicate HasDenial(ds: seq<Decision>, id: int) { exists k :: 0 <= k < |ds| && ds[k].request == id && ds[k].vote == Deny }

  /** The trigger that guards `approved` and `executed`. */
  predicate Unjustified(s: Store, id: int, after: Status)
    requires s.Has(id)
  {
    var r := s.Row(id);
    && ((r.status == Pending && after == Approved) || (r.status == Approved && after == Executed))
    && (HasDenial(s.decisions, id) || Count(s.decisions, id, r.requestedBy) < if r.tier == 1 then 1 else 2)
  }

  predicate StatusAccepted(s: Store, id: int, after: Status)
    requires s.Has(id)
  {
    var r := s.Row(id);
    && (after == r.status || Forward(r.status, after))
    && !Unjustified(s, id, after)
    && RowChecks(r.(status := after)) && KeyIsFree(s, r.(status := after), id)
  }

  /** Every CHECK, trigger, index and reference the statement meets. An update of a row that is not there meets
      none; a subquery about a missing request answers nothing, so its trigger stays silent. */
  predicate Accepted(s: Store, q: Statement) {
    match q
    case InsertRequest(row) => row.status == Pending && RowChecks(row) && KeyIsFree(s, row, 0)
    case UpdateStatus(id, status) => s.Has(id) ==> StatusAccepted(s, id, status)
    case UpdateStatusAndNote(id, status, note) => s.Has(id) ==> StatusAccepted(s, id, status)
    case UpdateNote(id, note) => s.Has(id) ==> RowChecks(s.Row(id)) && KeyIsFree(s, s.Row(id), id)
    case InsertDecision(d) =>
      && (s.Has(d.request) ==> s.Row(d.request).status == Pending)
      && (s.Has(d.request) && d.vote == Approve ==> d.approver != s.Row(d.request).requestedBy)
      && StoredIdentity(d.approver)
      && (forall k | 0 <= k < |s.decisions| :: !(s.decisions[k].request == d.request && s.decisions[k].approver == d.approver))
      && s.Has(d.request)
  }

  function Effect(s: Store, q: Statement): Store {
    match q
    case InsertRequest(row) => s.(requests := s.requests + [row])
    case UpdateStatus(id, status) => if s.Has(id) then s.WithStatus(id, status) else s
    case UpdateStatusAndNote(id, status, note) =>
      if s.Has(id) then s.(requests := s.requests[id - 1 := s.Row(id).(status := status, note := note)]) else s
    case UpdateNote(id, note) => if s.Has(id) then s.(requests := s.requests[id - 1 := s.Row(id).(note := note)]) else s
    case InsertDecision(d) => s.(decisions := s.decisions + [d])
  }

  // ---- the store's operations ------------------------------------------------------------------

  datatype Error =
    | BadTier | BadIdentity(why: IdentityError) | DuplicateRequest | UnknownRequest | NotOpen | SelfApproval
    | DuplicateDecision | PastDeadline | Integrity

  function Timeout(tier: int): real { if tier == 1 then 900.0 else 3600.0 }

  function Required(tier: int): int { if tier == 1 then 1 else 2 }

  predicate Due(r: Request, now: real) { IsOpen(r.status) && now >= r.expiresAt }

  function Truncate(note: string): string { if |note| > 500 then note[..500] else note }

  /** The distinct people who approved, in order, without the requester; a name that does not normalise is left
      out. */
  function Approvers(u: Tables, ds: seq<Decision>, id: int, requester: string): seq<string> {
    if ds == [] then []
    else
      var seen, d := Approvers(u, ds[..|ds| - 1], id, requester), ds[|ds| - 1];
      if d.request != id || d.vote != Approve then seen
      else
        match Normalize(u, d.approver)
        case Err(_) => seen
        case Ok(who) => if who != requester && who !in seen then seen + [who] else seen
  }

  function ApproversOf(u: Tables, s: Store, id: int): seq<string>
    requires s.Has(id)
  {
    Approvers(u, s.decisions, id, s.Row(id).requestedBy)
  }

  predicate Decided(ds: seq<Decision>, id: int, who: string) {
    exists k :: 0 <= k < |ds| && ds[k].request == id && ds[k].approver == who
  }

  /** What a new request says. */
  datatype Proposal = Proposal(
    executionId: string, fingerprint: string, tier: int, action: string, requestedBy: string, payload: string, gateSeq: Option<nat>)

  function NewRow(p: Proposal, who: string, now: real): Request {
    Request(p.executionId, p.fingerprint, p.tier, p.action, who, now, now + Timeout(p.tier), Pending,
      Required(p.tier), p.payload, "", p.gateSeq)
  }

  function Create(u: Tables, s: Store, p: Proposal, now: real): (Store, Result<Request, Error>) {
    if p.tier != 1 && p.tier != 2 then (s, Err(BadTier))
    else
      match Normalize(u, p.requestedBy)
      case Err(e) => (s, Err(BadIdentity(e)))
      case Ok(who) =>
        var row := NewRow(p, who, now);
        if !KeyIsFree(s, row, 0) then (s, Err(DuplicateRequest)) else (s.(requests := s.requests + [row]), Ok(row))
  }

  function ExpireRows(rows: seq<Request>, now: real): (r: seq<Request>)
    ensures |r| == |rows|
    ensures forall k | 0 <= k < |r| :: r[k] == if Due(rows[k], now) then rows[k].(status := Expired) else rows[k]
  {
    if rows == [] then []
    else
      var n := |rows| - 1;
      ExpireRows(rows[..n], now) + [if Due(rows[n], now) then rows[n].(status := Expired) else rows[n]]
  }

  /** The ids of the overdue open requests, ascending. */
  function DueIds(rows: seq<Request>, now: real): seq<int> {
    if rows == [] then []
    else DueIds(rows[..|rows| - 1], now) + (if Due(rows[|rows| - 1], now) then [|rows|] else [])
  }

  function ExpireDue(s: Store, now: real): (Store, seq<int>) {
    (s.(requests := ExpireRows(s.requests, now)), DueIds(s.requests, now))
  }

  /** One person's vote. The clock is read once to see whether the request is overdue, and again for the row. */
  function Decide(u: Tables, s: Store, id: int, approver: string, vote: Vote, checked: real, recorded: real)
    : (Store, Result<Request, Error>)
  {
    match Normalize(u, approver)
    case Err(e) => (s, Err(BadIdentity(e)))
    case Ok(who) =>
      if !s.Has(id) then (s, Err(UnknownRequest))
      else
        var r := s.Row(id);
        if Due(r, checked) then (s.WithStatus(id, Expired), Err(PastDeadline))
        else if r.status != Pending then (s, Err(NotOpen))
        else if vote == Approve && who == r.requestedBy then (s, Err(SelfApproval))
        else if Decided(s.decisions, id, who) then (s, Err(DuplicateDecision))
        else Voted(u, s, id, Decision(id, who, vote, recorded))
  }

  /** The vote is recorded: a denial closes the request, the last approval needed approves it. */
  function Voted(u: Tables, s: Store, id: int, d: Decision): (Store, Result<Request, Error>)
    requires s.Has(id)
  {
    var s' := s.(decisions := s.decisions + [d]);
    var after :=
      if d.vote == Deny then Denied
      else if |ApproversOf(u, s', id)| >= Required(s.Row(id).tier) then Approved
      else s.Row(id).status;
    (s'.WithStatus(id, after), Ok(s.Row(id).(status := after)))
  }

  /** Approved to executed, once. */
  function Claim(u: Tables, s: Store, id: int, now: real): (Store, Result<Request, Error>) {
    if !s.Has(id) then (s, Err(UnknownRequest))
    else
      var r := s.Row(id);
      if Due(r, now) then (s.WithStatus(id, Expired), Err(PastDeadline))
      else if r.status != Approved || |ApproversOf(u, s, id)| < Required(r.tier) then (s, Err(NotOpen))
      else (s.WithStatus(id, Executed), Ok(r.(status := Executed)))
  }

  function Cancel(s: Store, id: int, note: string): (Store, Result<Request, Error>) {
    if !s.Has(id) then (s, Err(UnknownRequest))
    else if !IsOpen(s.Row(id).status) then (s, Err(NotOpen))
    else
      var r := s.Row(id).(status := Cancelled, note := Truncate(note));
      (s.(requests := s.requests[id - 1 := r]), Ok(r))
  }

  function SetNote(s: Store, id: int, note: string): Store {
    if s.Has(id) then s.(requests := s.requests[id - 1 := s.Row(id).(note := Truncate(note))]) else s
  }
}
