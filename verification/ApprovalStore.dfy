/** The approval store itself: methods that read rows and send statements the schema may refuse, proved to do what the
    operations say and never to be refused except for a second open request. */
module ApprovalStore {
  import opened Wrappers
  import opened Identity
  import opened Approvals
  import opened ApprovalLaws

  /** A new row is refused for one reason only: an open request for the same execution and action. */
  lemma InsertIsAccepted(u: Tables, s: Store, p: Proposal, who: string, now: real)
    requires u.Lawful() && (p.tier == 1 || p.tier == 2) && Normalize(u, p.requestedBy) == Ok(who)
    ensures Accepted(s, InsertRequest(NewRow(p, who, now)))
      <==> forall id | s.Has(id) && IsOpen(s.Row(id).status) :: !(s.Row(id).executionId == p.executionId && s.Row(id).action == p.action)
  {
    NormalizeIsIdempotent(u, p.requestedBy, who);
    var row := NewRow(p, who, now);
    if KeyIsFree(s, row, 0) {
      forall id | s.Has(id) && IsOpen(s.Row(id).status) ensures !(s.Row(id).executionId == p.executionId && s.Row(id).action == p.action) {
        assert !(IsOpen(s.requests[id - 1].status) && SameKey(s.requests[id - 1], row));
      }
    } else {
      var k :| 0 <= k < |s.requests| && IsOpen(s.requests[k].status) && SameKey(s.requests[k], row);
      assert s.Has(k + 1) && s.Row(k + 1) == s.requests[k];
    }
  }

  /** Claiming an approved request is always accepted. */
  lemma ClaimIsAccepted(u: Tables, s: Store, id: int, after: Status)
    requires u.Lawful() && Inv(s) && s.Has(id)
    requires s.Row(id).status == Approved && after == Executed
    ensures Accepted(s, UpdateStatus(id, after))
  {
    assert Justified(s, id) && RowChecks(s.Row(id));
    KeyStaysFree(s, id, s.Row(id).(status := after));
  }

  lemma KeyStaysFree(s: Store, id: int, row: Request)
    requires OneOpen(s) && s.Has(id) && SameRequest(s.Row(id), row) && (IsOpen(row.status) ==> IsOpen(s.Row(id).status))
    ensures KeyIsFree(s, row, id)
  {
    forall k | 0 <= k < |s.requests| && k + 1 != id && IsOpen(row.status)
      ensures !(IsOpen(s.requests[k].status) && SameKey(s.requests[k], row))
    {
      assert s.Row(k + 1) == s.requests[k];
    }
  }

  /** Closing an open request is always accepted. */
  lemma ClosingIsAccepted(s: Store, id: int, after: Status, note: string)
    requires Inv(s) && s.Has(id) && IsOpen(s.Row(id).status)
    requires after == Expired || after == Cancelled
    ensures Accepted(s, UpdateStatus(id, after)) && Accepted(s, UpdateStatusAndNote(id, after, note))
  {
    assert RowChecks(s.Row(id));
  }

  lemma NoteIsAccepted(s: Store, id: int, note: string)
    requires Inv(s)
    ensures Accepted(s, UpdateNote(id, note))
  {
    if s.Has(id) { KeyStaysFree(s, id, s.Row(id)); }
  }

  /** The vote's row is accepted, and so is the status that follows from it. */
  lemma VoteIsAccepted(u: Tables, s: Store, id: int, d: Decision)
    requires u.Lawful() && Inv(s) && s.Has(id) && s.Row(id).status == Pending
    requires d.request == id && DecisionHolds(s, d) && !Decided(s.decisions, id, d.approver)
    ensures Accepted(s, InsertDecision(d))
    ensures var mid := Effect(s, InsertDecision(d));
      && (d.vote == Deny ==> Accepted(mid, UpdateStatus(id, Denied)))
      && (d.vote == Approve && |ApproversOf(u, mid, id)| >= s.Row(id).required ==> Accepted(mid, UpdateStatus(id, Approved)))
  {
    forall k | 0 <= k < |s.decisions| ensures !(s.decisions[k].request == d.request && s.decisions[k].approver == d.approver) {
      assert !Decided(s.decisions, id, d.approver);
    }
    var mid := Effect(s, InsertDecision(d));
    assert Votes(s, mid, d);
    VoteKeepsDecisions(s, mid, d);
    VoteKeepsRows(s, mid, d);
    QuorumIsCount(u, mid, id);
    DenialNext(s.decisions, d, id);
    assert Justified(s, id) && RowChecks(s.Row(id));
    KeyStaysFree(mid, id, mid.Row(id).(status := Approved));
  }

  lemma {:induction false} DueIdsAre(rows: seq<Request>, now: real)
    ensures var ids := DueIds(rows, now);
      && (forall k | 0 <= k < |rows| :: k + 1 in ids <==> Due(rows[k], now))
      && (forall id | id in ids :: 1 <= id <= |rows|)
      && (forall i, j | 0 <= i < j < |ids| :: ids[i] < ids[j])
  {
    if rows != [] {
      var n := |rows| - 1;
      var front, ids := DueIds(rows[..n], now), DueIds(rows, now);
      DueIdsAre(rows[..n], now);
      forall k | 0 <= k < |rows| ensures k + 1 in ids <==> Due(rows[k], now) {
        if k < n { assert rows[..n][k] == rows[k] && (k + 1 in ids <==> k + 1 in front); }
      }
      forall j | 0 <= j < |front| ensures front[j] <= n { assert front[j] in front; }
    }
  }

  /** The rows while the overdue ones are being marked. */
  ghost predicate Marked(rows: seq<Request>, now: seq<Request>, ids: seq<int>) {
    |now| == |rows| && forall k | 0 <= k < |rows| :: now[k] == if k + 1 in ids then rows[k].(status := Expired) else rows[k]
  }

  lemma MarkedNext(rows: seq<Request>, now: seq<Request>, ids: seq<int>, id: int)
    requires Marked(rows, now, ids) && 1 <= id <= |rows| && id !in ids
    ensures Marked(rows, now[id - 1 := now[id - 1].(status := Expired)], ids + [id])
  {}

  class ApprovalStore {
    const u: Tables
    var requests: seq<Request>
    var decisions: seq<Decision>

    ghost predicate Valid()
      reads this
    {
      u.Lawful() && Inv(Contents())
    }

    function Contents(): Store
      reads this
    {
      Store(requests, decisions)
    }

    constructor (tables: Tables)
      requires tables.Lawful()
      ensures Valid() && Contents() == EMPTY && u == tables
    {
      u, requests, decisions := tables, [], [];
    }

    /** One statement: done when the schema accepts it, refused without effect otherwise. */
    method Execute(q: Statement) returns (ok: bool)
      modifies this
      ensures ok == old(Accepted(Contents(), q))
      ensures Contents() == if ok then old(Effect(Contents(), q)) else old(Contents())
    {
      ok := Accepted(Contents(), q);
      if ok {
        var s := Effect(Contents(), q);
        requests, decisions := s.requests, s.decisions;
      }
    }

    method Get(id: int) returns (r: Result<Request, Error>)
      ensures r == if Contents().Has(id) then Ok(Contents().Row(id)) else Err(UnknownRequest)
    {
      if 1 <= id <= |requests| { return Ok(requests[id - 1]); }
      return Err(UnknownRequest);
    }

    /** The distinct approvers, each counted once, however the schema counts them. */
    method GetApprovers(id: int) returns (seen: seq<string>)
      requires Contents().Has(id)
      ensures seen == ApproversOf(u, Contents(), id)
    {
      var requester := requests[id - 1].requestedBy;
      seen := [];
      for i := 0 to |decisions|
        invariant seen == Approvers(u, decisions[..i], id, requester)
      {
        assert decisions[..i + 1][..i] == decisions[..i];
        var d := decisions[i];
        if d.request == id && d.vote == Approve {
          var who := Normalize(u, d.approver);
          if who.Ok? && who.value != requester && who.value !in seen { seen := seen + [who.value]; }
        }
      }
      assert decisions[..|decisions|] == decisions;
    }

    method Open(p: Proposal, now: real) returns (r: Result<Request, Error>)
      requires Valid()
      modifies this
      ensures Valid() && (Contents(), r) == old(Create(u, Contents(), p, now))
    {
      if p.tier != 1 && p.tier != 2 { return Err(BadTier); }
      var who := Normalize(u, p.requestedBy);
      if who.Err? { return Err(BadIdentity(who.error)); }
      CreateKeeps(u, Contents(), p, now);
      NormalizeIsIdempotent(u, p.requestedBy, who.value);
      var ok := Execute(InsertRequest(NewRow(p, who.value, now)));
      if !ok { return Err(DuplicateRequest); }
      r := Get(|requests|);
    }

    method MarkExpired(id: int)
      requires Valid() && Contents().Has(id) && IsOpen(Contents().Row(id).status)
      modifies this
      ensures Valid() && Contents() == old(Contents().WithStatus(id, Expired))
    {
      ClosingIsAccepted(Contents(), id, Expired, "");
      OverdueMoves(Contents(), id);
      MovedKeeps(Contents(), Contents().WithStatus(id, Expired));
      var ok := Execute(UpdateStatus(id, Expired));
      assert ok;
    }

    method Expire(now: real) returns (ids: seq<int>)
      requires Valid()
      modifies this
      ensures Valid() && (Contents(), ids) == old(ExpireDue(Contents(), now)) && |requests| == old(|requests|)
    {
      ghost var rows := requests;
      ids := GetDue(now);
      DueIdsAre(rows, now);
      for i := 0 to |ids|
        invariant Valid() && decisions == old(decisions) && Marked(rows, requests, ids[..i])
      {
        var id := ids[i];
        assert id in ids && id !in ids[..i] && ids[..i + 1] == ids[..i] + [id];
        assert requests[id - 1] == rows[id - 1] && Due(rows[id - 1], now);
        ghost var before := requests;
        MarkExpired(id);
        MarkedNext(rows, before, ids[..i], id);
      }
      assert ids[..|ids|] == ids;
      assert requests == ExpireRows(rows, now);
    }

    method GetDue(now: real) returns (ids: seq<int>)
      ensures ids == DueIds(requests, now)
    {
      ids := [];
      for i := 0 to |requests|
        invariant ids == DueIds(requests[..i], now)
      {
        assert requests[..i + 1][..i] == requests[..i];
        if Due(requests[i], now) { ids := ids + [i + 1]; }
      }
      assert requests[..|requests|] == requests;
    }

    method Vote(id: int, approver: string, vote: Vote, checked: real, recorded: real) returns (r: Result<Request, Error>)
      requires Valid()
      modifies this
      ensures Valid() && (Contents(), r) == old(Decide(u, Contents(), id, approver, vote, checked, recorded))
    {
      var who := Normalize(u, approver);
      if who.Err? { return Err(BadIdentity(who.error)); }
      DecideKeeps(u, Contents(), id, approver, vote, checked, recorded);
      var found := Get(id);
      if found.Err? { return found; }
      var req := found.value;
      if Due(req, checked) {
        MarkExpired(id);
        return Err(PastDeadline);
      }
      if req.status != Pending { return Err(NotOpen); }
      if vote == Approve && who.value == req.requestedBy { return Err(SelfApproval); }
      if Decided(decisions, id, who.value) { return Err(DuplicateDecision); }
      NormalizeIsIdempotent(u, approver, who.value);
      r := RecordVote(id, Decision(id, who.value, vote, recorded));
    }

    method RecordVote(id: int, d: Decision) returns (r: Result<Request, Error>)
      requires Valid() && Contents().Has(id) && Contents().Row(id).status == Pending
      requires d.request == id && DecisionHolds(Contents(), d) && !Decided(decisions, id, d.approver)
      modifies this
      ensures Valid() && (Contents(), r) == old(Voted(u, Contents(), id, d))
    {
      VoteIsAccepted(u, Contents(), id, d);
      VotedKeeps(u, Contents(), id, d);
      assert requests[id - 1].required == Required(requests[id - 1].tier) by { assert RowChecks(Contents().Row(id)); }
      ghost var row := requests[id - 1];
      var inserted := Execute(InsertDecision(d));
      assert inserted && requests == old(requests) && requests[id - 1] == row;
      assert Contents() == Store(requests, old(decisions) + [d]);
      if d.vote == Deny {
        var moved := Execute(UpdateStatus(id, Denied));
        assert moved;
      } else {
        var seen := GetApprovers(id);
        if |seen| >= requests[id - 1].required {
          var moved := Execute(UpdateStatus(id, Approved));
          assert moved;
        } else {
          assert requests == requests[id - 1 := row.(status := row.status)];
        }
      }
      r := Get(id);
    }

    method ClaimForExecution(id: int, now: real) returns (r: Result<Request, Error>)
      requires Valid()
      modifies this
      ensures Valid() && (Contents(), r) == old(Claim(u, Contents(), id, now)) && |requests| == old(|requests|)
    {
      ClaimMoves(u, Contents(), id, now);
      MovedKeeps(Contents(), Claim(u, Contents(), id, now).0);
      var found := Get(id);
      if found.Err? { return found; }
      var req := found.value;
      assert RowChecks(Contents().Row(id));
      if Due(req, now) {
        MarkExpired(id);
        return Err(PastDeadline);
      }
      if req.status != Approved { return Err(NotOpen); }
      var seen := GetApprovers(id);
      if |seen| < req.required { return Err(NotOpen); }
      ClaimIsAccepted(u, Contents(), id, Executed);
      var ok := Execute(UpdateStatus(id, Executed));
      assert ok;
      r := Get(id);
    }

    method Close(id: int, note: string) returns (r: Result<Request, Error>)
      requires Valid()
      modifies this
      ensures Valid() && (Contents(), r) == old(Cancel(Contents(), id, note))
    {
      CancelMoves(Contents(), id, note);
      MovedKeeps(Contents(), Cancel(Contents(), id, note).0);
      var found := Get(id);
      if found.Err? { return found; }
      if !IsOpen(found.value.status) { return Err(NotOpen); }
      ClosingIsAccepted(Contents(), id, Cancelled, Truncate(note));
      var ok := Execute(UpdateStatusAndNote(id, Cancelled, Truncate(note)));
      assert ok;
      r := Get(id);
    }

    method Annotate(id: int, note: string)
      requires Valid()
      modifies this
      ensures Valid() && Contents() == old(SetNote(Contents(), id, note))
    {
      CancelMoves(Contents(), id, note);
      MovedKeeps(Contents(), SetNote(Contents(), id, note));
      NoteIsAccepted(Contents(), id, Truncate(note));
      var ok := Execute(UpdateNote(id, Truncate(note)));
      assert ok;
    }
  }
}
