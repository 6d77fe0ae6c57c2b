/** The in-memory store of remediation attempts. */
module Attempts {
  import opened Wrappers

  /** An execution id and the attempt's number, which is all the source's text form holds. */
  datatype AttemptId = AttemptId(executionId: string, number: nat)

  datatype AttemptOutcome = Executed | Failed | PrProposed | Verified

  datatype Attempt = Attempt(
    id: AttemptId, fingerprint: string, executionId: string, tier: int, action: string, outcome: AttemptOutcome, verified: Option<bool>)

  function OfFingerprint(rows: seq<Attempt>, fingerprint: string): seq<Attempt> {
    if rows == [] then []
    else
      OfFingerprint(rows[..|rows| - 1], fingerprint)
      + (if rows[|rows| - 1].fingerprint == fingerprint then [rows[|rows| - 1]] else [])
  }

  /** The first row with this id; the number of rows when there is none. */
  function IndexOf(rows: seq<Attempt>, id: AttemptId): (i: nat)
    ensures i <= |rows| && (i < |rows| ==> rows[i].id == id)
    ensures forall k | 0 <= k < i :: rows[k].id != id
  {
    if rows == [] || rows[0].id == id then 0 else 1 + IndexOf(rows[1..], id)
  }

  lemma {:induction false} OfFingerprintIs(rows: seq<Attempt>, fingerprint: string, a: Attempt)
    ensures a in OfFingerprint(rows, fingerprint) <==> a in rows && a.fingerprint == fingerprint
  {
    if rows != [] {
      OfFingerprintIs(rows[..|rows| - 1], fingerprint, a);
      assert rows == rows[..|rows| - 1] + [rows[|rows| - 1]];
    }
  }

  lemma {:induction false} OfFingerprintGrows(rows: seq<Attempt>, n: nat, m: nat, fingerprint: string)
    requires n <= m <= |rows|
    ensures |OfFingerprint(rows[..n], fingerprint)| <= |OfFingerprint(rows[..m], fingerprint)|
    ensures n < m && rows[n].fingerprint == fingerprint ==> |OfFingerprint(rows[..n], fingerprint)| < |OfFingerprint(rows[..m], fingerprint)|
    decreases m
  {
    if n < m {
      OfFingerprintGrows(rows, n, m - 1, fingerprint);
      assert rows[..m][..m - 1] == rows[..m - 1];
    }
  }

  class AttemptStore {
    var rows: seq<Attempt>

    constructor (rows: seq<Attempt>)
      ensures this.rows == rows
    {
      this.rows := rows;
    }

    method Add(a: Attempt)
      modifies this
      ensures rows == old(rows) + [a]
    {
      rows := rows + [a];
    }

    method ByFingerprint(fingerprint: string) returns (found: seq<Attempt>)
      ensures found == OfFingerprint(rows, fingerprint)
    {
      found := [];
      for i := 0 to |rows|
        invariant found == OfFingerprint(rows[..i], fingerprint)
      {
        assert rows[..i + 1][..i] == rows[..i];
        if rows[i].fingerprint == fingerprint { found := found + [rows[i]]; }
      }
      assert rows[..|rows|] == rows;
    }

    /** The first attempt with this id. */
    method Get(id: AttemptId) returns (found: Option<Attempt>)
      ensures var i := IndexOf(rows, id); found == if i < |rows| then Some(rows[i]) else None
    {
      var i := 0;
      assert rows[0..] == rows;
      while i < |rows| && rows[i].id != id
        invariant 0 <= i <= |rows| && forall k | 0 <= k < i :: rows[k].id != id
      {
        i := i + 1;
      }
      FirstIs(rows, id, i);
      if i < |rows| { return Some(rows[i]); }
      return None;
    }

    /** Replaces the first attempt with this id by a copy that carries the result; nothing else changes. */
    method Update(id: AttemptId, outcome: AttemptOutcome, verified: bool) returns (row: Attempt)
      requires IndexOf(rows, id) < |rows|
      modifies this
      ensures var i := IndexOf(old(rows), id);
        && row == old(rows)[i].(outcome := outcome, verified := Some(verified))
        && rows == old(rows)[i := row]
    {
      var i := 0;
      while rows[i].id != id
        invariant 0 <= i <= IndexOf(rows, id)
        decreases |rows| - i
      {
        i := i + 1;
      }
      FirstIs(rows, id, i);
      row := rows[i].(outcome := outcome, verified := Some(verified));
      rows := rows[i := row];
    }
  }

  lemma FirstIs(rows: seq<Attempt>, id: AttemptId, i: nat)
    requires i <= |rows| && (i < |rows| ==> rows[i].id == id) && forall k | 0 <= k < i :: rows[k].id != id
    ensures IndexOf(rows, id) == i
  {}
}
