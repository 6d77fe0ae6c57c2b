/** What the schema guards by itself: whatever statements are sent, by whatever code, in whatever order. */
module ApprovalSchema {
  import opened Wrappers
  import opened Identity
  import opened Approvals
  import opened ApprovalLaws

  function Needed(tier: int): nat { if tier == 1 then 1 else 2 }

  /** A request only counts as approved or executed with the approvals its tier needs and without a denial. */
  ghost predicate Backed(s: Store, id: int)
    requires s.Has(id)
  {
    var r := s.Row(id);
    r.status == Approved || r.status == Executed ==>
      Count(s.decisions, id, r.requestedBy) >= Needed(r.tier) && !HasDenial(s.decisions, id)
  }

  ghost predicate RowGuarded(r: Request) {
    && (r.tier == 1 || r.tier == 2) && StoredIdentity(r.requestedBy) && r.required == Needed(r.tier)
    && r.requestedAt < r.expiresAt && r.expiresAt - r.requestedAt <= 3600.0
  }

  ghost predicate Guarded(s: Store) {
    && (forall id | s.Has(id) :: RowGuarded(s.Row(id)) && Backed(s, id))
    && DecisionsHold(s) && OncePerPerson(s.decisions) && OneOpen(s)
  }

  /** What an accepted statement may do to a request that is there. */
  ghost predicate Steps(before: Request, after: Request) {
    && SameRequest(before, after)
    && (after.status != before.status ==>
          if before.status == Pending then after.status != Executed
          else before.status == Approved && (after.status == Executed || after.status == Expired || after.status == Cancelled))
  }

  ghost predicate Grows(s: Store, s': Store) {
    && |s.requests| <= |s'.requests| && s.decisions <= s'.decisions
    && (forall id | s.Has(id) :: Steps(s.Row(id), s'.Row(id)))
    && (forall id | s'.Has(id) && !s.Has(id) :: s'.Row(id).status == Pending)
  }

  lemma InsertKeeps(s: Store, row: Request)
    requires Guarded(s) && Accepted(s, InsertRequest(row))
    ensures Guarded(Effect(s, InsertRequest(row))) && Grows(s, Effect(s, InsertRequest(row)))
  {
    var s' := Effect(s, InsertRequest(row));
    forall id | s'.Has(id) ensures RowGuarded(s'.Row(id)) && Backed(s', id) { if s.Has(id) { assert RowGuarded(s.Row(id)) && Backed(s, id); } }
    forall k | 0 <= k < |s.decisions| ensures DecisionHolds(s', s.decisions[k]) { assert DecisionHolds(s, s.decisions[k]); }
    forall a, b | s'.Has(a) && s'.Has(b) && a != b
      ensures !(IsOpen(s'.Row(a).status) && IsOpen(s'.Row(b).status) && SameKey(s'.Row(a), s'.Row(b)))
    {
      if s.Has(a) && s.Has(b) { assert s'.Row(a) == s.Row(a) && s'.Row(b) == s.Row(b); }
    }
  }

  lemma UpdateKeeps(s: Store, id: int, row: Request)
    requires Guarded(s) && s.Has(id) && SameRequest(s.Row(id), row)
    requires row.status == s.Row(id).status || StatusAccepted(s, id, row.status)
    ensures var s' := s.(requests := s.requests[id - 1 := row]); Guarded(s') && Grows(s, s')
  {
    var s' := s.(requests := s.requests[id - 1 := row]);
    forall other | s'.Has(other) ensures RowGuarded(s'.Row(other)) && Backed(s', other) && Steps(s.Row(other), s'.Row(other)) {
      assert RowGuarded(s.Row(other)) && Backed(s, other);
    }
    forall k | 0 <= k < |s.decisions| ensures DecisionHolds(s', s.decisions[k]) { assert DecisionHolds(s, s.decisions[k]); }
    OneOpenAfter(s, id, row);
  }

  lemma OneOpenAfter(s: Store, id: int, row: Request)
    requires OneOpen(s) && s.Has(id) && SameRequest(s.Row(id), row)
    requires row.status == s.Row(id).status || StatusAccepted(s, id, row.status)
    ensures OneOpen(s.(requests := s.requests[id - 1 := row]))
  {
    hide Unjustified, RowChecks, Forward;
    var s' := s.(requests := s.requests[id - 1 := row]);
    forall a, b | s'.Has(a) && s'.Has(b) && a != b
      ensures !(IsOpen(s'.Row(a).status) && IsOpen(s'.Row(b).status) && SameKey(s'.Row(a), s'.Row(b)))
    {
      if a == id { NoOther(s, id, row, b); } else if b == id { NoOther(s, id, row, a); } else { assert s'.Row(a) == s.Row(a) && s'.Row(b) == s.Row(b); }
    }
  }

  lemma NoOther(s: Store, id: int, row: Request, other: int)
    requires OneOpen(s) && s.Has(id) && SameRequest(s.Row(id), row) && s.Has(other) && other != id
    requires row.status == s.Row(id).status || StatusAccepted(s, id, row.status)
    ensures !(IsOpen(row.status) && IsOpen(s.Row(other).status) && SameKey(row, s.Row(other)))
  {
    hide Unjustified, RowChecks, Forward;
    assert s.requests[other - 1] == s.Row(other);
    if row.status != s.Row(id).status { assert KeyIsFree(s, s.Row(id).(status := row.status), id); }
  }

  lemma SameRowsOneOpen(s: Store, s': Store)
    requires OneOpen(s) && s'.requests == s.requests
    ensures OneOpen(s')
  {
    forall a, b | s'.Has(a) && s'.Has(b) && a != b
      ensures !(IsOpen(s'.Row(a).status) && IsOpen(s'.Row(b).status) && SameKey(s'.Row(a), s'.Row(b)))
    {
      assert s'.Row(a) == s.Row(a) && s'.Row(b) == s.Row(b);
    }
  }

  lemma DecisionKeeps(s: Store, d: Decision)
    requires Guarded(s) && Accepted(s, InsertDecision(d))
    ensures Guarded(Effect(s, InsertDecision(d))) && Grows(s, Effect(s, InsertDecision(d)))
  {
    var s' := Effect(s, InsertDecision(d));
    forall id | s'.Has(id) ensures RowGuarded(s'.Row(id)) && Backed(s', id) {
      assert RowGuarded(s.Row(id)) && Backed(s, id);
      CountNext(s.decisions, d, id, s.Row(id).requestedBy);
      DenialNext(s.decisions, d, id);
    }
    SameRowsOneOpen(s, s');
    forall k | 0 <= k < |s'.decisions| ensures DecisionHolds(s', s'.decisions[k]) {
      if k < |s.decisions| { assert DecisionHolds(s, s.decisions[k]); }
    }
  }

  /** Every accepted statement keeps what the schema guards, and moves what is there only forward. */
  lemma AcceptedKeeps(s: Store, q: Statement)
    requires Guarded(s) && Accepted(s, q)
    ensures Guarded(Effect(s, q)) && Grows(s, Effect(s, q))
  {
    hide Guarded, Grows, StatusAccepted;
    match q
    case InsertRequest(row) => InsertKeeps(s, row);
    case InsertDecision(d) => DecisionKeeps(s, d);
    case UpdateStatus(id, status) =>
      if s.Has(id) { UpdateKeeps(s, id, s.Row(id).(status := status)); } else { NothingGrows(s); }
    case UpdateStatusAndNote(id, status, note) =>
      if s.Has(id) { UpdateKeeps(s, id, s.Row(id).(status := status, note := note)); } else { NothingGrows(s); }
    case UpdateNote(id, note) =>
      if s.Has(id) { UpdateKeeps(s, id, s.Row(id).(note := note)); } else { NothingGrows(s); }
  }

  lemma NothingGrows(s: Store)
    ensures Grows(s, s)
  {}

  /** Statements one after the other; a refused one does nothing. */
  function Sent(s: Store, qs: seq<Statement>): Store {
    if qs == [] then s
    else
      var before, q := Sent(s, qs[..|qs| - 1]), qs[|qs| - 1];
      if Accepted(before, q) then Effect(before, q) else before
  }

  lemma {:induction false} SentKeeps(s: Store, qs: seq<Statement>)
    requires Guarded(s)
    ensures Guarded(Sent(s, qs))
  {
    hide Guarded, Grows, Accepted, Effect;
    if qs != [] {
      SentKeeps(s, qs[..|qs| - 1]);
      var before, q := Sent(s, qs[..|qs| - 1]), qs[|qs| - 1];
      if Accepted(before, q) { AcceptedKeeps(before, q); }
    }
  }

  lemma EmptyIsGuarded()
    ensures Guarded(Store([], []))
  {}

  /** Whatever is sent to an empty database: an approved or executed request has its tier's approvals, each by another
      person and none by the requester, and no denial; and one execution and action never have two open requests. */
  lemma SchemaGuards(qs: seq<Statement>, id: int)
    requires Sent(Store([], []), qs).Has(id)
    ensures var s := Sent(Store([], []), qs);
      && (s.Row(id).status == Approved || s.Row(id).status == Executed ==>
            Count(s.decisions, id, s.Row(id).requestedBy) >= (if s.Row(id).tier == 1 then 1 else 2) && !HasDenial(s.decisions, id))
      && (forall k | 0 <= k < |s.decisions| && s.decisions[k].request == id && s.decisions[k].vote == Approve ::
            s.decisions[k].approver != s.Row(id).requestedBy)
      && (forall i, j | 0 <= i < j < |s.decisions| && s.decisions[i].request == s.decisions[j].request ::
            s.decisions[i].approver != s.decisions[j].approver)
      && (forall other | s.Has(other) && other != id && IsOpen(s.Row(id).status) && IsOpen(s.Row(other).status) ::
            s.Row(other).executionId != s.Row(id).executionId || s.Row(other).action != s.Row(id).action)
  {
    EmptyIsGuarded();
    SentKeeps(Store([], []), qs);
    var s := Sent(Store([], []), qs);
    assert RowGuarded(s.Row(id)) && Backed(s, id);
    forall k | 0 <= k < |s.decisions| && s.decisions[k].request == id && s.decisions[k].vote == Approve
      ensures s.decisions[k].approver != s.Row(id).requestedBy
    {
      assert DecisionHolds(s, s.decisions[k]);
    }
  }

  // ---- what the store asks of it ---------------------------------------------------------------

  /** A request is opened exactly for Tier 1 and 2, by somebody who can be named, when none is open for the same execution
      and action: pending, with its tier's quorum and deadline. */
  lemma OpensExactly(u: Tables, s: Store, p: Proposal, now: real)
    ensures var (s', result) := Create(u, s, p, now);
      && (result.Ok? <==>
            && (p.tier == 1 || p.tier == 2) && Normalize(u, p.requestedBy).Ok?
            && forall id | s.Has(id) && IsOpen(s.Row(id).status) :: !(s.Row(id).executionId == p.executionId && s.Row(id).action == p.action))
      && (result.Err? ==> s' == s)
      && (result.Ok? ==>
            && s' == s.(requests := s.requests + [result.value])
            && result.value == Request(p.executionId, p.fingerprint, p.tier, p.action, Normalize(u, p.requestedBy).value, now,
                 now + (if p.tier == 1 then 900.0 else 3600.0), Pending, if p.tier == 1 then 1 else 2, p.payload, "", p.gateSeq))
  {
    if Normalize(u, p.requestedBy).Ok? {
      var row := NewRow(p, Normalize(u, p.requestedBy).value, now);
      if KeyIsFree(s, row, 0) {
        forall id | s.Has(id) && IsOpen(s.Row(id).status) ensures !(s.Row(id).executionId == p.executionId && s.Row(id).action == p.action) {
          assert !(IsOpen(s.requests[id - 1].status) && SameKey(s.requests[id - 1], row));
        }
      } else {
        var k :| 0 <= k < |s.requests| && IsOpen(s.requests[k].status) && SameKey(s.requests[k], row);
        assert s.Has(k + 1) && s.Row(k + 1) == s.requests[k];
      }
    }
  }

  /** A note is kept up to 500 characters, by a cancellation as by itself. */
  lemma NotesAreCut(s: Store, id: int, note: string)
    requires s.Has(id)
    ensures var kept := SetNote(s, id, note).Row(id).note;
      && kept <= note && |kept| == (if |note| <= 500 then |note| else 500)
      && (IsOpen(s.Row(id).status) ==> Cancel(s, id, note).1.Ok? && Cancel(s, id, note).1.value.note == kept)
  {}
}
