/** One failed execution from investigation to outcome, re-entered once through the hook that verifies what was done.
    Everything outside (model, target, source, gate facts) answers as it likes. */
module CaseLoop {
  import opened Wrappers
  import opened Attempts
  import opened Budget
  import opened CaseSteps
  import opened CaseTells
  import Agents
  import C = Tier3Check
  import G = SafetyGate

  class Outcome {
    const executionId: string
    var kind: Kind
    var rounds: nat
    var revisions: nat
    var fingerprint: string
    var remediation: Option<Proposal>
    var attemptId: Option<AttemptId>
    var verified: Option<bool>
    var firstAttemptFailed: bool

    constructor (executionId: string, kind: Kind, rounds: nat, revisions: nat, fingerprint: string)
      ensures this.executionId == executionId && this.kind == kind && this.rounds == rounds && this.revisions == revisions
      ensures this.fingerprint == fingerprint && remediation == None && attemptId == None && verified == None && !firstAttemptFailed
    {
      this.executionId, this.kind, this.rounds, this.revisions, this.fingerprint := executionId, kind, rounds, revisions, fingerprint;
      remediation, attemptId, verified, firstAttemptFailed := None, None, None, false;
    }
  }

  function NewAttempt(rows: seq<Attempt>, out: Outcome, p: Proposal): Attempt
    reads out
  {
    NumberedAttempt(rows, out.executionId, out.fingerprint, p.rem.tier, p.rem.action, AttemptOutcome.PrProposed)
  }

  // ---- the loop --------------------------------------------------------------------------------

  /** What every part of the loop keeps: at most `most` more steps that reach the target, revisions counted, pull
      requests sound, and no Tier 0 attempt after a failed one. */
  ghost predicate Goes(log: seq<Step>, log': seq<Step>, rows: seq<Attempt>, most: int, revised: int) {
    && log <= log' && Actions(log') <= Actions(log) + most && Revisions(log') == Revisions(log) + revised
    && (PullRequestsAreSound(log) ==> PullRequestsAreSound(log'))
    && NeverAgain(|log|, log', rows)
  }

  lemma GoesOn(log: seq<Step>, log': seq<Step>, rows: seq<Attempt>, most: int, revised: int)
    requires Goes(log, log', rows, most, revised)
    ensures log <= log'
  {}

  /** Steps that neither reach the target nor touch an attempt. */
  ghost predicate Quietly(log: seq<Step>, log': seq<Step>, revised: int) {
    && log <= log' && Actions(log') == Actions(log) && Revisions(log') == Revisions(log) + revised
    && (PullRequestsAreSound(log) ==> PullRequestsAreSound(log'))
    && forall k | |log| <= k < |log'| :: !log'[k].Tried? && !log'[k].Marked?
  }

  lemma QuietNothing(log: seq<Step>)
    ensures Quietly(log, log, 0)
  {}

  lemma QuietStep(log: seq<Step>, mid: seq<Step>, step: Step, revised: int)
    requires Quietly(log, mid, revised) && !step.Ran? && !step.Opened? && !step.Tried? && !step.Marked?
    ensures Quietly(log, mid + [step], revised + (if step.Revising? then 1 else 0))
    ensures LastGate(mid + [step]) == if step.Gated? then Some(step) else LastGate(mid)
  {
    hide ReviewedAndChecked;
    OneMore(mid, step);
  }

  lemma QuietTwice(a: seq<Step>, b: seq<Step>, c: seq<Step>, first: int, second: int)
    requires Quietly(a, b, first) && Quietly(b, c, second)
    ensures Quietly(a, c, first + second)
  {
    hide PullRequestsAreSound, Actions, Revisions;
    forall k | |a| <= k < |c| ensures !c[k].Tried? && !c[k].Marked? { if k < |b| { assert b[k] == c[k]; } }
  }

  lemma QuietThen(log: seq<Step>, mid: seq<Step>, log': seq<Step>, rows: seq<Attempt>, most: int, first: int, second: int)
    requires Quietly(log, mid, first) && Goes(mid, log', rows, most, second)
    ensures Goes(log, log', rows, most, first + second)
  {
    hide PullRequestsAreSound, Actions, Revisions, PriorTier0Failed;
    ThenNeverAgain(|log|, mid, log', rows, rows);
  }

  lemma QuietGoes(log: seq<Step>, log': seq<Step>, rows: seq<Attempt>, most: int, revised: int)
    requires Quietly(log, log', revised) && most >= 0
    ensures Goes(log, log', rows, most, revised)
  {}

  /** One step that reaches the target, and then the rest. */
  lemma ActionThen(log: seq<Step>, step: Step, log': seq<Step>, rows: seq<Attempt>, most: int, revised: int)
    requires step.Ran? || (step.Opened? && ReviewedAndChecked(log, step.diff, step.contents))
    requires Goes(log + [step], log', rows, most, revised)
    ensures Goes(log, log', rows, most + 1, revised)
  {
    hide PullRequestsAreSound, ReviewedAndChecked, PriorTier0Failed;
    OneMore(log, step);
    ThenNeverAgain(|log|, log + [step], log', rows, rows);
  }

  /** An attempt the gate let through, and then the rest. */
  lemma TriedThen(log: seq<Step>, fingerprint: string, log': seq<Step>, rows: seq<Attempt>, rows': seq<Attempt>, most: int, revised: int)
    requires !PriorTier0Failed(rows, fingerprint) && FailuresStay(rows, rows')
    requires Goes(log + [Tried(fingerprint)], log', rows', most, revised)
    ensures Goes(log, log', rows, most, revised)
  {
    hide PullRequestsAreSound, PriorTier0Failed;
    OneMore(log, Tried(fingerprint));
    ThenNeverAgain(|log|, log + [Tried(fingerprint)], log', rows, rows');
  }

  /** An attempt marked as failed, and then the rest. */
  lemma MarkedThen(log: seq<Step>, row: Attempt, log': seq<Step>, rows: seq<Attempt>, rows': seq<Attempt>, most: int, revised: int)
    requires FailuresStay(rows, rows') && (row.tier == 0 ==> PriorTier0Failed(rows', row.fingerprint))
    requires Goes(log + [Marked(row.fingerprint, row.tier, false)], log', rows', most, revised)
    ensures Goes(log, log', rows, most, revised)
  {
    hide PullRequestsAreSound, PriorTier0Failed;
    OneMore(log, Marked(row.fingerprint, row.tier, false));
    ThenNeverAgain(|log|, log + [Marked(row.fingerprint, row.tier, false)], log', rows, rows');
  }

  lemma MarkedLast(log: seq<Step>, step: Step, rows: seq<Attempt>, most: int)
    requires step.Marked? && most >= 0
    ensures Goes(log, log + [step], rows, most, 0)
  {
    OneMore(log, step);
  }

  lemma PriorIsInHistory(rows: seq<Attempt>, fingerprint: string)
    ensures PriorTier0Failed(rows, fingerprint) <==>
      exists j :: 0 <= j < |OfFingerprint(rows, fingerprint)| && OfFingerprint(rows, fingerprint)[j].tier == 0
                  && OfFingerprint(rows, fingerprint)[j].verified == Some(false)
  {
    var history := OfFingerprint(rows, fingerprint);
    if PriorTier0Failed(rows, fingerprint) {
      var k :| 0 <= k < |rows| && rows[k].fingerprint == fingerprint && rows[k].tier == 0 && rows[k].verified == Some(false);
      OfFingerprintIs(rows, fingerprint, rows[k]);
      var j :| 0 <= j < |history| && history[j] == rows[k];
    }
    if j :| 0 <= j < |history| && history[j].tier == 0 && history[j].verified == Some(false) {
      OfFingerprintIs(rows, fingerprint, history[j]);
      assert history[j] in history;
      var k :| 0 <= k < |rows| && rows[k] == history[j];
    }
  }

  // ---- for as long as the store lives ----------------------------------------------------------

  /** Every attempt carries the number it was given when it was added. */
  ghost predicate Numbered(rows: seq<Attempt>) {
    forall i | 0 <= i < |rows| :: rows[i].id == AttemptId(rows[i].executionId, |OfFingerprint(rows[..i], rows[i].fingerprint)| + 1)
  }

  /** Every execution's attempts are on one fingerprint. */
  ghost predicate Homed(rows: seq<Attempt>, home: string -> string) {
    forall i | 0 <= i < |rows| :: rows[i].fingerprint == home(rows[i].executionId)
  }

  /** Every Tier 0 attempt ever marked as failed is still on record as failed. */
  ghost predicate OnRecord(log: seq<Step>, rows: seq<Attempt>, home: string -> string) {
    Numbered(rows) && Homed(rows, home) && MarksOnRecord(0, log, rows)
  }

  lemma AddedIsNumbered(rows: seq<Attempt>, a: Attempt)
    requires Numbered(rows) && a.id == AttemptId(a.executionId, |OfFingerprint(rows, a.fingerprint)| + 1)
    ensures Numbered(rows + [a])
  {
    var rows' := rows + [a];
    forall i | 0 <= i < |rows'| ensures rows'[i].id == AttemptId(rows'[i].executionId, |OfFingerprint(rows'[..i], rows'[i].fingerprint)| + 1) {
      assert rows'[..i] == rows[..i];
      if i == |rows| { assert rows[..i] == rows; }
    }
  }

  lemma {:induction false} SameHistory(rows: seq<Attempt>, i: nat, row: Attempt, n: nat, fingerprint: string)
    requires i < |rows| && n <= |rows| && row.fingerprint == rows[i].fingerprint
    ensures |OfFingerprint(rows[i := row][..n], fingerprint)| == |OfFingerprint(rows[..n], fingerprint)|
    decreases n
  {
    if n > 0 {
      SameHistory(rows, i, row, n - 1, fingerprint);
      assert rows[..n][..n - 1] == rows[..n - 1] && rows[i := row][..n][..n - 1] == rows[i := row][..n - 1];
    }
  }

  /** Marking changes no number. */
  lemma MarkedIsNumbered(rows: seq<Attempt>, i: nat, verified: bool)
    requires Numbered(rows) && i < |rows|
    ensures Numbered(rows[i := MarkedRow(rows[i], verified)])
  {
    var rows' := rows[i := MarkedRow(rows[i], verified)];
    forall k | 0 <= k < |rows'| ensures rows'[k].id == AttemptId(rows'[k].executionId, |OfFingerprint(rows'[..k], rows'[k].fingerprint)| + 1) {
      SameHistory(rows, i, MarkedRow(rows[i], verified), k, rows[k].fingerprint);
      assert rows[k].id == AttemptId(rows[k].executionId, |OfFingerprint(rows[..k], rows[k].fingerprint)| + 1);
    }
  }

  lemma OneId(rows: seq<Attempt>, home: string -> string, i: nat, j: nat)
    requires Numbered(rows) && Homed(rows, home) && i < |rows| && j < |rows| && rows[i].id == rows[j].id
    ensures i == j
  {
    if i < j { OfFingerprintGrows(rows, i, j, rows[i].fingerprint); }
    if j < i { OfFingerprintGrows(rows, j, i, rows[j].fingerprint); }
  }

  lemma OnRecordOneId(log: seq<Step>, rows: seq<Attempt>, home: string -> string, i: nat, j: nat)
    requires OnRecord(log, rows, home) && i < |rows| && j < |rows| && rows[i].id == rows[j].id
    ensures i == j
  {
    OneId(rows, home, i, j);
  }

  lemma UnmarkedKeepsRecord(log: seq<Step>, step: Step, rows: seq<Attempt>, home: string -> string)
    requires OnRecord(log, rows, home) && !step.Marked?
    ensures OnRecord(log + [step], rows, home)
  {}

  lemma AddedKeepsRecord(log: seq<Step>, rows: seq<Attempt>, a: Attempt, home: string -> string)
    requires OnRecord(log, rows, home)
    requires a.id == AttemptId(a.executionId, |OfFingerprint(rows, a.fingerprint)| + 1) && a.fingerprint == home(a.executionId)
    ensures OnRecord(log, rows + [a], home)
  {
    AddedStays(rows, a);
    forall i | 0 <= i < |rows + [a]|
      ensures (rows + [a])[i].id == AttemptId((rows + [a])[i].executionId, |OfFingerprint((rows + [a])[..i], (rows + [a])[i].fingerprint)| + 1)
    {
      assert (rows + [a])[..i] == rows[..i];
      if i == |rows| { assert rows[..i] == rows; }
    }
  }

  /** Marking the newest attempt, not marked before, erases no failure. */
  lemma MarkedKeepsRecord(log: seq<Step>, rows: seq<Attempt>, row: Attempt, outcome: AttemptOutcome, verified: bool, home: string -> string)
    requires OnRecord(log, rows, home) && rows != [] && rows[|rows| - 1].verified == None
    requires row == rows[|rows| - 1].(outcome := outcome, verified := Some(verified))
    ensures OnRecord(log + [Marked(row.fingerprint, row.tier, verified)], rows[|rows| - 1 := row], home)
  {
    var last := |rows| - 1;
    var rows', log' := rows[last := row], log + [Marked(row.fingerprint, row.tier, verified)];
    forall i | 0 <= i < |rows'| ensures rows'[i].id == AttemptId(rows'[i].executionId, |OfFingerprint(rows'[..i], rows'[i].fingerprint)| + 1) {
      assert rows'[..i] == rows[..i];
      assert rows[i].id == AttemptId(rows[i].executionId, |OfFingerprint(rows[..i], rows[i].fingerprint)| + 1);
    }
    forall i | 0 <= i < |log'| && log'[i].Marked? && log'[i].tier == 0 && !log'[i].verified ensures PriorTier0Failed(rows', log'[i].fingerprint) {
      if i < |log| {
        assert log'[i] == log[i];
        var k :| 0 <= k < |rows| && rows[k].fingerprint == log[i].fingerprint && rows[k].tier == 0 && rows[k].verified == Some(false);
        assert rows'[k] == rows[k];
      } else {
        assert rows'[last] == row;
      }
    }
  }

  /** An earlier attempt of the newest one's execution has the same number on another fingerprint. */
  predicate Shares(rows: seq<Attempt>, i: nat) {
    && i < |rows| - 1 && rows[i].executionId == rows[|rows| - 1].executionId
    && rows[i].id.number == rows[|rows| - 1].id.number && rows[i].fingerprint != rows[|rows| - 1].fingerprint
  }

  lemma SharesId(rows: seq<Attempt>, i: nat)
    requires Numbered(rows) && i < |rows| - 1
    ensures rows[i].id == rows[|rows| - 1].id <==> Shares(rows, i)
  {
    var last := |rows| - 1;
    assert rows[i].id.executionId == rows[i].executionId && rows[last].id.executionId == rows[last].executionId;
    if rows[i].id == rows[last].id { OfFingerprintGrows(rows, i, last, rows[i].fingerprint); }
  }

  /** The newest attempt is not the first one with its id exactly when its execution was put on another fingerprint
      before and had as many attempts there. */
  lemma SharedIdExactly(rows: seq<Attempt>)
    requires Numbered(rows) && rows != []
    ensures var i := IndexOf(rows, rows[|rows| - 1].id);
      && i < |rows| && (i < |rows| - 1 <==> Shares(rows, i)) && (i < |rows| - 1 <==> exists j :: Shares(rows, j))
  {
    var last := |rows| - 1;
    var i := IndexOf(rows, rows[last].id);
    if i < last { SharesId(rows, i); }
    if j :| Shares(rows, j) { SharesId(rows, j); }
  }

  predicate FailedTier0(a: Attempt) { a.tier == 0 && a.verified == Some(false) }

  predicate OnlyFailure(rows: seq<Attempt>, i: nat)
    requires i < |rows|
  {
    FailedTier0(rows[i]) && forall k | 0 <= k < |rows| && k != i && FailedTier0(rows[k]) :: rows[k].fingerprint != rows[i].fingerprint
  }

  /** Marking the newest attempt as verified erases a failure from the record exactly when it shares its id with an
      earlier attempt that is the only failed Tier 0 attempt on its fingerprint: the gate would let one through there
      again. */
  lemma SharedIdErasesFailure(rows: seq<Attempt>)
    requires Numbered(rows) && rows != [] && rows[|rows| - 1].verified.None?
    ensures var i := IndexOf(rows, rows[|rows| - 1].id);
      i < |rows| && (FailuresStay(rows, rows[i := MarkedRow(rows[i], true)]) <==> !(Shares(rows, i) && OnlyFailure(rows, i)))
  {
    hide Shares, Numbered;
    SharedIdExactly(rows);
    var i := IndexOf(rows, rows[|rows| - 1].id);
    OverwrittenStays(rows, i);
  }

  /** Overwriting one row with a verified copy of it loses a failure exactly when no other row has it. */
  lemma OverwrittenStays(rows: seq<Attempt>, i: nat)
    requires i < |rows|
    ensures FailuresStay(rows, rows[i := MarkedRow(rows[i], true)]) <==> !OnlyFailure(rows, i)
  {
    var rows' := rows[i := MarkedRow(rows[i], true)];
    if OnlyFailure(rows, i) {
      assert PriorTier0Failed(rows, rows[i].fingerprint);
      assert !PriorTier0Failed(rows', rows[i].fingerprint);
    } else {
      forall fingerprint | PriorTier0Failed(rows, fingerprint) ensures PriorTier0Failed(rows', fingerprint) {
        var k :| 0 <= k < |rows| && rows[k].fingerprint == fingerprint && rows[k].tier == 0 && rows[k].verified == Some(false);
        if k == i {
          var other :| 0 <= other < |rows| && other != i && FailedTier0(rows[other]) && rows[other].fingerprint == rows[i].fingerprint;
          assert rows'[other] == rows[other];
        } else {
          assert rows'[k] == rows[k];
        }
      }
    }
  }

  /** Marking the newest attempt as failed puts a failure on record for its fingerprint unless it shares its id: then the
      result lands on the other fingerprint. */
  lemma SharedIdMissesFailure(rows: seq<Attempt>)
    requires Numbered(rows) && rows != [] && rows[|rows| - 1].tier == 0
    ensures var i, fingerprint := IndexOf(rows, rows[|rows| - 1].id), rows[|rows| - 1].fingerprint;
      && i < |rows|
      && (PriorTier0Failed(rows[i := MarkedRow(rows[i], false)], fingerprint) <==> PriorTier0Failed(rows, fingerprint) || !Shares(rows, i))
  {
    hide Numbered, PriorTier0Failed, IndexOf;
    SharedIdExactly(rows);
    var last := |rows| - 1;
    var i := IndexOf(rows, rows[last].id);
    if Shares(rows, i) {
      OverwrittenElsewhere(rows, i, MarkedRow(rows[i], false), rows[last].fingerprint);
    } else {
      MarkedFailedStays(rows, last, MarkedRow(rows[last], false));
    }
  }

  lemma OverwrittenElsewhere(rows: seq<Attempt>, i: nat, row: Attempt, fingerprint: string)
    requires i < |rows| && rows[i].fingerprint != fingerprint && row.fingerprint == rows[i].fingerprint
    ensures PriorTier0Failed(rows[i := row], fingerprint) <==> PriorTier0Failed(rows, fingerprint)
  {
    var rows' := rows[i := row];
    forall k | 0 <= k < |rows| && k != i ensures rows'[k] == rows[k] {}
    if PriorTier0Failed(rows, fingerprint) {
      var k :| 0 <= k < |rows| && rows[k].fingerprint == fingerprint && rows[k].tier == 0 && rows[k].verified == Some(false);
      assert rows'[k] == rows[k];
    }
  }

  /** Case after case: what is on record is what the next case's gate looks at. */
  lemma StillNeverAgain(log: seq<Step>, log': seq<Step>, rows: seq<Attempt>, home: string -> string, most: int, revised: int)
    requires OnRecord(log, rows, home) && NeverAgain(0, log, []) && Goes(log, log', rows, most, revised)
    ensures NeverAgain(0, log', [])
  {
    ThenNeverAgain(0, log, log', [], rows);
  }

  lemma LessGoes(log: seq<Step>, log': seq<Step>, rows: seq<Attempt>, less: int, most: int, revised: int)
    requires Goes(log, log', rows, less, revised) && less <= most
    ensures Goes(log, log', rows, most, revised)
  {}

  class Orchestrator {
    const attempts: AttemptStore
    const settings: Settings
    const world: nat -> Answer
    ghost const home: string -> string // the fingerprint of each execution, if it has one
    var tick: nat
    var log: seq<Step>

    constructor (attempts: AttemptStore, settings: Settings, world: nat -> Answer, ghost home: string -> string)
      ensures this.attempts == attempts && this.settings == settings && this.world == world && this.home == home && tick == 0 && log == []
    {
      this.attempts, this.settings, this.world, this.home, tick, log := attempts, settings, world, home, 0, [];
    }

    /** The source puts an execution on the same fingerprint every time. */
    ghost predicate Agreed() {
      forall n, executionId :: world(n).fingerprints(executionId) == home(executionId) != ""
    }

    /** What holds between cases, if it did at first: the attempts are numbered as the loop numbers them and, when the
        source is like that, every failure marked is on record. */
    ghost predicate Remembers()
      reads this, attempts
    {
      Numbered(attempts.rows) && (Agreed() ==> OnRecord(log, attempts.rows, home))
    }

    ghost function Here(out: Outcome, budget: InvestigationBudget): Case
      reads out, budget
    {
      Case(settings, world, out.executionId, out.rounds, budget.limits.maxReinvestigations - budget.reinvestigations)
    }

    /** The round went as it should. */
    ghost predicate EndedAs(out: Outcome, end: End)
      reads this, attempts, out
    {
      Now() == end.state && out.kind == end.kind && out.revisions == end.revisions
    }

    ghost function Now(): State
      reads this, attempts
    {
      State(tick, log, attempts.rows)
    }

    ghost predicate AtHome(out: Outcome)
      reads out
    {
      Agreed() ==> out.fingerprint == home(out.executionId)
    }

    /** Nothing was done that could be verified, or nobody verifies. */
    predicate Quiescent(kind: Kind, remediation: Option<Proposal>) {
      !settings.hooked || (kind != Kind.Executed && kind != Kind.PrProposed) || remediation.None?
    }

    /** The outcome's attempt, if it has one, is the newest and not marked yet. */
    ghost predicate Fresh(out: Outcome)
      reads attempts, out
    {
      out.attemptId.Some? ==>
        attempts.rows != [] && attempts.rows[|attempts.rows| - 1].id == out.attemptId.value && attempts.rows[|attempts.rows| - 1].verified.None?
    }

    /** A run has its attempt, a pull request none yet. */
    ghost predicate HasItsAttempt(out: Outcome)
      reads out
    {
      (out.kind == Kind.Executed && out.attemptId.Some?) || (out.kind == Kind.PrProposed && out.attemptId.None?)
    }

    /** A pull request was proposed after `before`: the case ends so unless it was verified next and did not hold. */
    ghost predicate Proposed(out: Outcome, p: Proposal, before: seq<Step>, a: Answer)
      reads this, out
    {
      if settings.hooked then
        && before < log && log[|before|].Marked? && log[|before|].verified == Holds(p, a)
        && (Holds(p, a) ==> |log| == |before| + 1 && out.kind == Kind.PrProposed && out.verified == Some(true))
        && (!Holds(p, a) ==> out.firstAttemptFailed)
      else log == before && out.kind == Kind.PrProposed
    }

    method Ask() returns (a: Answer)
      modifies this`tick
      ensures a == world(old(tick)) && tick == old(tick) + 1
      ensures Agreed() ==> forall executionId :: a.fingerprints(executionId) == home(executionId) != ""
    {
      a, tick := world(tick), tick + 1;
    }

    /** One failed execution; `None` when it is not one. At most two rounds and two steps that reach the target, at most
        one revision, every pull request reviewed and checked, and no Tier 0 attempt after a failed one: in this case,
        and when executions keep their fingerprints and the store began in order, in any case before or after it. */
    method Handle(executionId: string, limits: Limits) returns (result: Option<Outcome>)
      modifies this, attempts
      ensures old(Remembers()) ==> Remembers()
      ensures result.Some? ==> fresh(result.value) && result.value.rounds <= 2 && result.value.revisions <= 1
      ensures Goes(old(log), log, old(attempts.rows), 2, if result.Some? then result.value.revisions else 0)
      ensures old(Remembers()) && Agreed() && NeverAgain(0, old(log), []) ==> NeverAgain(0, log, [])
      ensures var a := world(old(tick));
        && (result.None? <==> !a.prefiltered && !a.failed)
        && (a.prefiltered ==> result.value.kind == Closed && log == old(log) && attempts.rows == old(attempts.rows))
        && (!a.prefiltered && a.failed ==>
          EndedAs(result.value, RoundEnd(Case(settings, world, executionId, 1, limits.maxReinvestigations), 0, State(old(tick) + 1, old(log), old(attempts.rows)))))
      ensures var a, b := world(old(tick)), world(old(tick) + 1);
        !a.prefiltered && a.failed ==>
          && (log != old(log) <==> b.proposal.Some? && !b.abstained && b.analyzed && b.correlated && b.valid)
          && if log == old(log) then result.value.kind == Escalated else log != [] && Tells(settings, log, result.value.kind, result.value.revisions)
    {
      hide Agreed, OnRecord, Goes, Quietly, PriorTier0Failed, NeverAgain, RoundEnd, Tells, Numbered;
      ghost var log0, rows0 := log, attempts.rows;
      QuietNothing(log);
      QuietGoes(log, log, attempts.rows, 2, 0);
      var a := Ask();
      result := None;
      if a.prefiltered {
        var out := new Outcome(executionId, Closed, 1, 0, a.ownFingerprint);
        result := Some(out);
      } else if a.failed {
        var budget := new InvestigationBudget(limits);
        ghost var from, here := Now(), Case(settings, world, executionId, 1, limits.maxReinvestigations);
        var out := RunRound(executionId, budget, 1, 0);
        RoundTells(here, 0, from);
        LogsExactly(here, 0, from);
        result := Some(out);
      }
      if old(Remembers()) && Agreed() && NeverAgain(0, log0, []) {
        StillNeverAgain(log0, log, rows0, home, 2, if result.Some? then result.value.revisions else 0);
      }
    }

    /** One round: investigate, check, gate, act. The second round only comes from the hook. */
    method RunRound(executionId: string, budget: InvestigationBudget, rounds: nat, revisions: nat) returns (out: Outcome)
      requires 1 <= rounds <= 2 && revisions <= 1
      modifies this, attempts, budget
      decreases 2 - rounds, 8
      ensures fresh(out) && out.executionId == executionId && out.rounds <= 2 && revisions <= out.revisions <= 1
      ensures Goes(old(log), log, old(attempts.rows), 3 - rounds, out.revisions - revisions)
      ensures old(Remembers()) ==> Remembers()
      ensures var a := world(old(tick));
        if !Proceeds(a, rounds) then out.kind == Escalated && log == old(log) && attempts.rows == old(attempts.rows)
        else
          var allowed := Gate(a.proposal.value, a, FingerprintFor(a, executionId), old(attempts.rows), settings.ceiling).verdict == G.Allowed;
          old(log) + [Gated(a.proposal.value, allowed)] <= log && (!allowed ==> out.kind == Escalated && log == old(log) + [Gated(a.proposal.value, allowed)])
      ensures EndedAs(out, RoundEnd(Case(settings, world, executionId, rounds, budget.limits.maxReinvestigations - old(budget.reinvestigations)), revisions, old(Now())))
    {
      hide Agreed, OnRecord, Goes, Quietly, PriorTier0Failed, FailuresStay, ReviewedAndChecked, Gate, PullRequestsAreSound, GateEnd, RoundEnd, Numbered;
      RoundStep(Case(settings, world, executionId, rounds, budget.limits.maxReinvestigations - budget.reinvestigations), revisions, Now());
      var a := Ask();
      var proposal := if rounds >= 2 && a.spent then None else a.proposal;
      var fingerprint := if a.analyzed then a.fingerprints(executionId) else a.ownFingerprint;
      out := new Outcome(executionId, Escalated, rounds, revisions, fingerprint);
      QuietNothing(log);
      QuietGoes(log, log, attempts.rows, 3 - rounds, 0);
      if rounds == 2 && proposal.Some? && (!a.readAttempt || a.sameHypothesis) {
        out.remediation := proposal;
        return;
      }
      if proposal.None? || a.abstained { return; }
      out.remediation := proposal;
      if !a.analyzed || !a.correlated || !a.valid { return; }
      var p := proposal.value;
      if fingerprint == "" { fingerprint := "unclassified:" + executionId; }
      Propose(out, budget, p, a, fingerprint);
    }

    /** Gate what the investigation proposed, and act only if it is allowed. */
    method Propose(out: Outcome, budget: InvestigationBudget, p: Proposal, a: Answer, fingerprint: string)
      requires 1 <= out.rounds <= 2 && out.revisions <= 1 && out.attemptId.None? && out.kind == Escalated && out.remediation == Some(p)
      requires AtHome(out) && (Agreed() ==> fingerprint == home(out.executionId))
      modifies this, attempts, budget, out
      decreases 2 - out.rounds, 7
      ensures out.rounds <= 2 && old(out.revisions) <= out.revisions <= 1
      ensures Goes(old(log), log, old(attempts.rows), 3 - old(out.rounds), out.revisions - old(out.revisions))
      ensures old(Remembers()) ==> Remembers()
      ensures var allowed := Gate(p, a, fingerprint, old(attempts.rows), settings.ceiling).verdict == G.Allowed;
        && old(log) + [Gated(p, allowed)] <= log && (!allowed ==> out.kind == Escalated && log == old(log) + [Gated(p, allowed)])
      ensures EndedAs(out, GateEnd(old(Here(out, budget)), p, a, fingerprint, old(out.fingerprint), old(out.revisions), old(Now())))
    {
      hide Agreed, OnRecord, Goes, Quietly, PriorTier0Failed, FailuresStay, ReviewedAndChecked, Gate, PullRequestsAreSound, ActEnd, Numbered;
      ghost var log0, rows0, rounds0, revisions0 := log, attempts.rows, out.rounds, out.revisions;
      QuietNothing(log);
      var allowed := Decide(p, a, fingerprint);
      QuietStep(log0, log0, Gated(p, allowed), 0);
      if !allowed {
        QuietGoes(log0, log, rows0, 3 - rounds0, 0);
        return;
      }
      ghost var log1 := log;
      Act(out, budget, p, a, fingerprint);
      GoesOn(log1, log, rows0, 3 - rounds0, out.revisions - revisions0);
      QuietThen(log0, log1, log, rows0, 3 - rounds0, 0, out.revisions - revisions0);
    }

    /** The gate, told whether a Tier 0 attempt on the fingerprint has failed before. */
    method Decide(p: Proposal, a: Answer, fingerprint: string) returns (allowed: bool)
      modifies this`log
      ensures log == old(log) + [Gated(p, allowed)]
      ensures allowed && p.rem.tier == 0 ==> !PriorTier0Failed(attempts.rows, fingerprint)
      ensures old(Remembers()) ==> Remembers()
      ensures allowed <==> Gate(p, a, fingerprint, attempts.rows, settings.ceiling).verdict == G.Allowed
    {
      hide Numbered;
      var prior := false;
      var history := attempts.ByFingerprint(fingerprint);
      for k := 0 to |history|
        invariant prior <==> exists j :: 0 <= j < k && history[j].tier == 0 && history[j].verified == Some(false)
      {
        if history[k].tier == 0 && history[k].verified == Some(false) { prior := true; }
      }
      PriorIsInHistory(attempts.rows, fingerprint);
      var facts := a.facts.(fingerprint := fingerprint, priorTier0Failed := prior);
      var decision := G.Combine(p.rem, G.Evaluate(p.rem, facts, a.kill, settings.ceiling, a.full));
      GateRemembers(p, a, fingerprint, attempts.rows, settings.ceiling);
      allowed := decision.verdict == G.Allowed;
      if old(Remembers()) && Agreed() { UnmarkedKeepsRecord(log, Gated(p, allowed), attempts.rows, home); }
      log := log + [Gated(p, allowed)];
    }

    method Act(out: Outcome, budget: InvestigationBudget, p: Proposal, a: Answer, fingerprint: string)
      requires 1 <= out.rounds <= 2 && out.revisions <= 1 && out.attemptId.None? && out.remediation == Some(p)
      requires LastGate(log) == Some(Gated(p, true))
      requires p.rem.tier == 0 ==> !PriorTier0Failed(attempts.rows, fingerprint)
      requires AtHome(out) && (Agreed() ==> fingerprint == home(out.executionId))
      modifies this, attempts, budget, out
      decreases 2 - out.rounds, 6
      ensures out.rounds <= 2 && old(out.revisions) <= out.revisions <= 1
      ensures Goes(old(log), log, old(attempts.rows), 3 - old(out.rounds), out.revisions - old(out.revisions))
      ensures old(Remembers()) ==> Remembers()
      ensures p.rem.tier != 3 && !a.dryRunOk ==> out.kind == Escalated && log == old(log) && attempts.rows == old(attempts.rows)
      ensures p.rem.tier != 3 && p.rem.tier != 0 ==> log == old(log) && attempts.rows == old(attempts.rows)
      ensures p.rem.tier == 0 && a.dryRunOk ==> old(log) + [Ran(fingerprint), Tried(fingerprint)] <= log
      ensures EndedAs(out, ActEnd(old(Here(out, budget)), p, a, fingerprint, old(out.fingerprint), old(out.revisions), old(Now())))
    {
      hide Agreed, OnRecord, Goes, Quietly, PriorTier0Failed, FailuresStay, ReviewedAndChecked, PrEnd, Tier0End, Numbered;
      QuietNothing(log);
      QuietGoes(log, log, attempts.rows, 3 - out.rounds, 0);
      if p.rem.tier == 3 {
        ProposePr(out, budget, p, fingerprint);
      } else if !a.dryRunOk {
        out.kind := Escalated;
      } else if p.rem.tier != 0 {
        AwaitApproval(out, budget, a);
      } else {
        RunTier0(out, budget, p, a, fingerprint);
      }
    }

    /** The run that was made, as an attempt with the next number on its fingerprint. */
    method AddAttempt(out: Outcome, p: Proposal, a: Answer, fingerprint: string) returns (row: Attempt)
      requires (Agreed() ==> fingerprint == home(out.executionId))
      modifies this`log, attempts, out`attemptId
      ensures (old(Remembers()) ==> Remembers()) && log == old(log) + [Tried(fingerprint)] && attempts.rows == old(attempts.rows) + [row]
      ensures row == Attempt(AttemptId(out.executionId, |OfFingerprint(old(attempts.rows), fingerprint)| + 1), fingerprint,
        out.executionId, 0, p.rem.action, if a.executeOk then AttemptOutcome.Executed else Failed, None)
      ensures out.attemptId == Some(row.id)
    {
      hide Agreed, OnRecord, OfFingerprint, Numbered;
      ghost var before := attempts.rows;
      var history := attempts.ByFingerprint(fingerprint);
      var id := AttemptId(out.executionId, |history| + 1);
      row := Attempt(id, fingerprint, out.executionId, 0, p.rem.action, if a.executeOk then AttemptOutcome.Executed else Failed, None);
      if old(Remembers()) && Agreed() {
        AddedKeepsRecord(log, before, row, home);
        UnmarkedKeepsRecord(log, Tried(fingerprint), before + [row], home);
      }
      if old(Remembers()) { AddedIsNumbered(before, row); }
      attempts.Add(row);
      out.attemptId := Some(id);
      log := log + [Tried(fingerprint)];
    }

    method RunTier0(out: Outcome, budget: InvestigationBudget, p: Proposal, a: Answer, fingerprint: string)
      requires 1 <= out.rounds <= 2 && out.revisions <= 1 && out.attemptId.None? && out.remediation == Some(p)
      requires p.rem.tier == 0 && !PriorTier0Failed(attempts.rows, fingerprint)
      requires AtHome(out) && (Agreed() ==> fingerprint == home(out.executionId))
      modifies this, attempts, budget, out
      decreases 2 - out.rounds, 5
      ensures out.rounds <= 2 && old(out.revisions) <= out.revisions <= 1
      ensures Goes(old(log), log, old(attempts.rows), 3 - old(out.rounds), out.revisions - old(out.revisions))
      ensures old(Remembers()) ==> Remembers()
      ensures old(log) + [Ran(fingerprint), Tried(fingerprint)] <= log
      ensures !a.executeOk ==> out.kind == Escalated && log == old(log) + [Ran(fingerprint), Tried(fingerprint)]
      ensures !a.executeOk || !settings.hooked ==> attempts.rows == old(attempts.rows) + [Attempt(
        AttemptId(out.executionId, |OfFingerprint(old(attempts.rows), fingerprint)| + 1), fingerprint, out.executionId, 0,
        p.rem.action, if a.executeOk then AttemptOutcome.Executed else Failed, None)]
      ensures EndedAs(out, Tier0End(old(Here(out, budget)), p, a, fingerprint, old(out.fingerprint), old(out.revisions), old(Now())))
    {
      hide Agreed, OnRecord, Goes, Quietly, PriorTier0Failed, FailuresStay, ReviewedAndChecked, OfFingerprint, PullRequestsAreSound, HookEnd, Numbered;
      ghost var log0, rows0, rounds0, revisions0 := log, attempts.rows, out.rounds, out.revisions;
      if old(Remembers()) && Agreed() { UnmarkedKeepsRecord(log, Ran(fingerprint), attempts.rows, home); }
      log := log + [Ran(fingerprint)];
      ghost var log1 := log;
      ghost var row := AddAttempt(out, p, a, fingerprint);
      AddedStays(rows0, row);
      if !a.executeOk {
        out.kind := Escalated;
        QuietNothing(log);
        QuietGoes(log, log, attempts.rows, 2 - rounds0, 0);
      } else {
        out.kind := Kind.Executed;
        After(out, budget);
      }
      TriedThen(log1, fingerprint, log, rows0, rows0 + [row], 2 - rounds0, out.revisions - revisions0);
      ActionThen(log0, Ran(fingerprint), log, rows0, 2 - rounds0, out.revisions - revisions0);
    }

    /** Tier 1 and 2 never execute here. */
    method AwaitApproval(out: Outcome, budget: InvestigationBudget, a: Answer)
      requires 1 <= out.rounds <= 2 && out.revisions <= 1 && out.attemptId.None?
      requires AtHome(out)
      modifies this, attempts, budget, out
      decreases 2 - out.rounds, 5
      ensures out.rounds <= 2 && old(out.revisions) <= out.revisions <= 1
      ensures Goes(old(log), log, old(attempts.rows), 3 - old(out.rounds), out.revisions - old(out.revisions))
      ensures old(Remembers()) ==> Remembers()
      ensures Now() == old(Now()) && out.revisions == old(out.revisions)
      ensures out.kind == if settings.approvals && !a.requested then Escalated else Kind.AwaitingApproval
    {
      hide Agreed, OnRecord, Goes, Quietly, HookEnd, Numbered;
      if settings.approvals && !a.requested {
        out.kind := Escalated;
        QuietNothing(log);
        QuietGoes(log, log, attempts.rows, 3 - out.rounds, 0);
        return;
      }
      out.kind := Kind.AwaitingApproval;
      ghost var log0, rows0, rounds0, revisions0 := log, attempts.rows, out.rounds, out.revisions;
      After(out, budget);
      LessGoes(log0, log, rows0, 2 - rounds0, 3 - rounds0, out.revisions - revisions0);
    }

    method ProposePr(out: Outcome, budget: InvestigationBudget, p: Proposal, fingerprint: string)
      requires 1 <= out.rounds <= 2 && out.revisions <= 1 && out.attemptId.None? && out.remediation == Some(p)
      requires LastGate(log) == Some(Gated(p, true))
      requires AtHome(out)
      modifies this, attempts, budget, out
      decreases 2 - out.rounds, 5
      ensures out.rounds <= 2 && old(out.revisions) <= out.revisions <= 1
      ensures Goes(old(log), log, old(attempts.rows), 3 - old(out.rounds), out.revisions - old(out.revisions))
      ensures old(Remembers()) ==> Remembers()
      ensures !settings.reviewer && !settings.allowUnreviewed ==> out.kind == Escalated && log == old(log)
      ensures !settings.reviewer && settings.allowUnreviewed && !settings.hooked ==> out.kind == Kind.PrProposed && log == old(log)
      ensures EndedAs(out, PrEnd(old(Here(out, budget)), p, fingerprint, old(out.fingerprint), old(out.revisions), old(Now())))
    {
      hide Agreed, OnRecord, Goes, Quietly, ReviewEnd, HookEnd, Numbered;
      ghost var log0, rows0, rounds0, revisions0 := log, attempts.rows, out.rounds, out.revisions;
      QuietNothing(log);
      QuietGoes(log, log, attempts.rows, 3 - out.rounds, 0);
      if settings.reviewer {
        Tier3Flow(out, budget, p, fingerprint);
      } else if settings.allowUnreviewed {
        out.kind := Kind.PrProposed;
        After(out, budget);
        LessGoes(log0, log, rows0, 2 - rounds0, 3 - rounds0, out.revisions - revisions0);
      } else {
        out.kind := Escalated;
      }
    }

    /** Check, review, perhaps revise once, and open. */
    method Tier3Flow(out: Outcome, budget: InvestigationBudget, first: Proposal, fingerprint: string)
      requires 1 <= out.rounds <= 2 && out.revisions <= 1 && out.attemptId.None? && out.remediation == Some(first)
      requires LastGate(log) == Some(Gated(first, true))
      requires AtHome(out)
      modifies this, attempts, budget, out
      decreases 2 - out.rounds, 4
      ensures out.rounds <= 2 && old(out.revisions) <= out.revisions <= 1
      ensures Goes(old(log), log, old(attempts.rows), 3 - old(out.rounds), out.revisions - old(out.revisions))
      ensures old(Remembers()) ==> Remembers()
      ensures EndedAs(out, ReviewEnd(old(Here(out, budget)), first, fingerprint, old(out.fingerprint), old(out.revisions), old(Now())))
    {
      hide Agreed, OnRecord, Goes, Quietly, PullRequestsAreSound, ReviewedAndChecked, LastGate, C.CheckOf, Gate, Usable, Numbered;
      hide ReviewEnd, ReviseEnd, OpenEnd;
      ghost var here := Here(out, budget);
      ghost var end := ReviewEnd(here, first, fingerprint, out.fingerprint, out.revisions, Now());
      ghost var rounds0, rows0, log0, revisions0 := out.rounds, attempts.rows, log, out.revisions;
      var p, check, approved := first, C.Check([], None, []), false;
      QuietNothing(log);
      while !approved
        invariant out.rounds == rounds0 && revisions0 <= out.revisions <= 1 && out.attemptId.None? && attempts.rows == rows0
        invariant LastGate(log) == Some(Gated(p, true)) && Quietly(log0, log, out.revisions - revisions0) && AtHome(out) && (old(Remembers()) ==> Remembers())
        invariant Here(out, budget) == here && out.remediation == Some(p)
        invariant approved ==> OpenEnd(here, p, out.fingerprint, out.revisions, check.contents, Now()) == end
        invariant !approved ==> ReviewEnd(here, p, fingerprint, out.fingerprint, out.revisions, Now()) == end
        invariant approved ==> ReviewedAndChecked(log, p.diff, check.contents)
        decreases !approved, 1 - out.revisions
      {
        QuietGoes(log0, log, rows0, 3 - rounds0, out.revisions - revisions0);
        ghost var from := Now();
        ReviewStep(here, p, fingerprint, out.fingerprint, out.revisions, from);
        var verdict;
        verdict, check := CheckAndReview(out, p, log0, revisions0);
        QuietGoes(log0, log, rows0, 3 - rounds0, out.revisions - revisions0);
        if verdict == Some(Agents.Approve) {
          approved := true;
        } else if verdict == Some(Agents.Revise) && out.revisions == 0 {
          ghost var reviewed := log;
          ReviseStep(here, fingerprint, Now());
          var revised := Revise(out, fingerprint);
          QuietTwice(log0, reviewed, log, 0 - revisions0, 1);
          QuietGoes(log0, log, rows0, 3 - rounds0, 1 - revisions0);
          if revised.None? { return; }
          p := revised.value;
        } else {
          out.kind := if verdict.Some? then Escalated else out.kind;
          return;
        }
      }
      ghost var log1, revisions1 := log, out.revisions;
      OpenPr(out, budget, p, check);
      QuietThen(log0, log1, log, rows0, 3 - rounds0, revisions1 - revisions0, out.revisions - revisions1);
    }

    /** The check of the diff and the review of what passed it; `None` when there was nothing to review. */
    method CheckAndReview(out: Outcome, p: Proposal, ghost log0: seq<Step>, ghost revisions0: int)
      returns (verdict: Option<Agents.Verdict>, check: C.Check)
      requires Quietly(log0, log, out.revisions - revisions0)
      modifies this, out`kind
      ensures Quietly(log0, log, out.revisions - revisions0) && LastGate(log) == old(LastGate(log))
      ensures verdict == Some(Agents.Approve) && old(LastGate(log)) == Some(Gated(p, true)) ==> ReviewedAndChecked(log, p.diff, check.contents)
      ensures old(Remembers()) ==> Remembers()
      ensures tick == old(tick) + 1
      ensures var a := world(old(tick)); var found := C.CheckOf(p.diff, p.policy, a.read, a.again);
        if found.None? then verdict.None? && out.kind == Raised && log == old(log)
        else if found.value.violations != [] then verdict.None? && out.kind == Escalated && log == old(log) + [Step.Checked(p.diff, found.value)]
        else
          && verdict == Some(VerdictOf(a)) && check == found.value && out.kind == old(out.kind)
          && log == old(log) + [Step.Checked(p.diff, check)] + [Reviewed(p.diff, VerdictOf(a))]
    {
      hide Agreed, OnRecord, Quietly, PullRequestsAreSound, LastGate, C.CheckOf, Numbered;
      var a := Ask();
      check := C.Check([], None, []);
      var found := C.CheckDiff(p.diff, p.policy, a.read, a.again);
      if found.None? {
        out.kind := Raised;
        return None, check;
      }
      check := found.value;
      QuietStep(log0, log, Step.Checked(p.diff, check), out.revisions - revisions0);
      if old(Remembers()) && Agreed() { UnmarkedKeepsRecord(log, Step.Checked(p.diff, check), attempts.rows, home); }
      log := log + [Step.Checked(p.diff, check)];
      if check.violations != [] {
        out.kind := Escalated;
        return None, check;
      }
      var review := if a.review.Some? then a.review.value else Agents.Reject;
      QuietStep(log0, log, Reviewed(p.diff, review), out.revisions - revisions0);
      if old(Remembers()) && Agreed() { UnmarkedKeepsRecord(log, Reviewed(p.diff, review), attempts.rows, home); }
      log := log + [Reviewed(p.diff, review)];
      assert log[|log| - 2] == Step.Checked(p.diff, check);
      return Some(review), check;
    }

    /** The review's feedback goes to the investigator once; what comes back is checked and gated again. */
    method Revise(out: Outcome, fingerprint: string) returns (revised: Option<Proposal>)
      requires out.revisions == 0
      modifies this, out
      ensures out.rounds == old(out.rounds) && out.revisions == 1 && out.attemptId == old(out.attemptId) && out.kind == Escalated
      ensures Quietly(old(log), log, 1) && tick == old(tick) + 1
      ensures revised.Some? ==> LastGate(log) == Some(Gated(revised.value, true)) && AtHome(out)
      ensures old(Remembers()) ==> Remembers()
      ensures var a := world(old(tick));
        if a.spent || !Usable(a) || a.proposal.value.rem.tier != 3 then revised == None && log == old(log) + [Revising]
        else
          var allowed := Gate(a.proposal.value, a, fingerprint, attempts.rows, settings.ceiling).verdict == G.Allowed;
          && log == old(log) + [Revising] + [Gated(a.proposal.value, allowed)] && revised == (if allowed then Some(a.proposal.value) else None)
          && (allowed ==> out.remediation == revised && out.fingerprint == a.fingerprints(out.executionId))
    {
      hide Agreed, OnRecord, Quietly, PriorTier0Failed, Gate, Numbered;
      ghost var log0 := log;
      QuietNothing(log);
      out.revisions := 1;
      if old(Remembers()) && Agreed() { UnmarkedKeepsRecord(log, Revising, attempts.rows, home); }
      QuietStep(log0, log, Revising, 0);
      log := log + [Revising];
      var a := Ask();
      var proposal := if a.spent then None else a.proposal;
      out.fingerprint := if a.analyzed then a.fingerprints(out.executionId) else a.ownFingerprint;
      out.kind, out.remediation := Escalated, proposal;
      if a.spent || !Usable(a) || a.proposal.value.rem.tier != 3 { return None; }
      ghost var asked := log;
      var allowed := Decide(proposal.value, a, fingerprint);
      QuietStep(log0, asked, Gated(proposal.value, allowed), 1);
      return if allowed then proposal else None;
    }

    /** Open the pull request with exactly the checked contents. */
    method OpenPr(out: Outcome, budget: InvestigationBudget, p: Proposal, check: C.Check)
      requires 1 <= out.rounds <= 2 && out.revisions <= 1 && out.attemptId.None? && out.remediation == Some(p)
      requires ReviewedAndChecked(log, p.diff, check.contents)
      requires AtHome(out)
      modifies this, attempts, budget, out
      decreases 2 - out.rounds, 3, 1
      ensures out.rounds <= 2 && old(out.revisions) <= out.revisions <= 1
      ensures Goes(old(log), log, old(attempts.rows), 3 - old(out.rounds), out.revisions - old(out.revisions))
      ensures old(Remembers()) ==> Remembers()
      ensures var contents := check.contents;
        && (BadContents(contents) ==> out.kind == Escalated && log == old(log) && attempts.rows == old(attempts.rows))
        && (!BadContents(contents) && settings.pullRequests && !world(old(tick)).accepted ==>
          out.kind == Escalated && log == old(log) + [Opened(p.diff, contents, false)] && attempts.rows == old(attempts.rows))
        && (!BadContents(contents) && settings.pullRequests && world(old(tick)).accepted ==>
          Proposed(out, p, old(log) + [Opened(p.diff, contents, true)], world(old(tick) + 1)))
        && (!BadContents(contents) && !settings.pullRequests ==> Proposed(out, p, old(log), world(old(tick))))
      ensures EndedAs(out, OpenEnd(old(Here(out, budget)), p, old(out.fingerprint), old(out.revisions), check.contents, old(Now())))
    {
      hide Agreed, OnRecord, Goes, Quietly, ReviewedAndChecked, HookEnd, SubmitEnd, Numbered, Holds;
      if check.contents == [] || exists k :: 0 <= k < |check.contents| && check.contents[k].1.None? {
        assert BadContents(check.contents);
        QuietNothing(log);
        QuietGoes(log, log, attempts.rows, 3 - out.rounds, 0);
        out.kind := Escalated;
        return;
      }
      assert !BadContents(check.contents);
      if settings.pullRequests {
        Submit(out, budget, p, check.contents);
        return;
      }
      ghost var log0, rows0, rounds0, revisions0 := log, attempts.rows, out.rounds, out.revisions;
      out.kind := Kind.PrProposed;
      After(out, budget);
      LessGoes(log0, log, rows0, 2 - rounds0, 3 - rounds0, out.revisions - revisions0);
    }

    /** The target opens it or refuses it. */
    method Submit(out: Outcome, budget: InvestigationBudget, p: Proposal, contents: C.Contents)
      requires 1 <= out.rounds <= 2 && out.revisions <= 1 && out.attemptId.None? && out.remediation == Some(p)
      requires ReviewedAndChecked(log, p.diff, contents)
      requires AtHome(out)
      modifies this, attempts, budget, out
      decreases 2 - out.rounds, 3, 0
      ensures out.rounds <= 2 && old(out.revisions) <= out.revisions <= 1
      ensures Goes(old(log), log, old(attempts.rows), 3 - old(out.rounds), out.revisions - old(out.revisions))
      ensures old(Remembers()) ==> Remembers()
      ensures if world(old(tick)).accepted then Proposed(out, p, old(log) + [Opened(p.diff, contents, true)], world(old(tick) + 1))
              else out.kind == Escalated && log == old(log) + [Opened(p.diff, contents, false)] && attempts.rows == old(attempts.rows)
      ensures EndedAs(out, SubmitEnd(old(Here(out, budget)), p, old(out.fingerprint), old(out.revisions), contents, old(Now())))
    {
      hide Agreed, OnRecord, Goes, Quietly, ReviewedAndChecked, HookEnd, Numbered, Holds;
      ghost var log0, rows0, rounds0, revisions0 := log, attempts.rows, out.rounds, out.revisions;
      var a := Ask();
      if old(Remembers()) && Agreed() { UnmarkedKeepsRecord(log, Opened(p.diff, contents, a.accepted), attempts.rows, home); }
      log := log + [Opened(p.diff, contents, a.accepted)];
      if !a.accepted {
        out.kind := Escalated;
        QuietNothing(log);
        QuietGoes(log, log, attempts.rows, 2 - rounds0, 0);
      } else {
        out.kind := Kind.PrProposed;
        After(out, budget);
      }
      ActionThen(log0, Opened(p.diff, contents, a.accepted), log, rows0, 2 - rounds0, out.revisions - revisions0);
    }

    // ---- the hook ------------------------------------------------------------------------------

    /** Verify what was done; if it did not hold, one more round at most. */
    method After(out: Outcome, budget: InvestigationBudget)
      requires 1 <= out.rounds <= 2 && out.revisions <= 1
      requires Fresh(out)
      requires AtHome(out)
      modifies this, attempts, budget, out
      decreases 2 - out.rounds, 2
      ensures out.rounds <= 2 && old(out.revisions) <= out.revisions <= 1
      ensures Goes(old(log), log, old(attempts.rows), 2 - old(out.rounds), out.revisions - old(out.revisions))
      ensures old(Remembers()) ==> Remembers()
      ensures Quiescent(old(out.kind), old(out.remediation)) ==> Now() == old(Now()) && out.kind == old(out.kind) && out.revisions == old(out.revisions)
      ensures !Quiescent(old(out.kind), old(out.remediation)) ==>
        var p, a := old(out.remediation).value, world(old(tick));
        && old(log) < log && log[|old(log)|].Marked? && log[|old(log)|].verified == Holds(p, a)
        && (Holds(p, a) ==> |log| == |old(log)| + 1 && out.verified == Some(true) && out.kind == old(out.kind))
        && (!Holds(p, a) ==> out.firstAttemptFailed)
      ensures old(out.remediation).Some? && old(HasItsAttempt(out)) ==>
        EndedAs(out, HookEnd(old(Here(out, budget)), old(out.remediation).value, old(out.fingerprint), old(out.revisions), old(Now()), old(out.kind)))
    {
      hide Agreed, OnRecord, Goes, Quietly, SettleEnd, Numbered, Holds;
      QuietNothing(log);
      QuietGoes(log, log, attempts.rows, 2 - out.rounds, 0);
      if !settings.hooked || (out.kind != Kind.Executed && out.kind != Kind.PrProposed) || out.remediation.None? { return; }
      Settle(out, budget, out.remediation.value);
    }

    /** Verify, record the result, and see to a failure. */
    method Settle(out: Outcome, budget: InvestigationBudget, p: Proposal)
      requires 1 <= out.rounds <= 2 && out.revisions <= 1
      requires Fresh(out)
      requires AtHome(out)
      modifies this, attempts, budget, out
      decreases 2 - out.rounds, 2, 0
      ensures out.rounds <= 2 && old(out.revisions) <= out.revisions <= 1
      ensures Goes(old(log), log, old(attempts.rows), 2 - old(out.rounds), out.revisions - old(out.revisions))
      ensures old(Remembers()) ==> Remembers()
      ensures var a := world(old(tick));
        && old(log) < log && log[|old(log)|].Marked? && log[|old(log)|].verified == Holds(p, a)
        && (Holds(p, a) ==> |log| == |old(log)| + 1 && out.verified == Some(true) && out.kind == old(out.kind))
        && (!Holds(p, a) ==> out.firstAttemptFailed)
      ensures old(HasItsAttempt(out)) ==>
        EndedAs(out, SettleEnd(old(Here(out, budget)), p, old(out.fingerprint), old(out.revisions), old(Now()), old(out.kind)))
    {
      hide Agreed, OnRecord, Goes, Quietly, PriorTier0Failed, FailuresStay, MayRetry, FailedEarlier, Holds, RoundEnd, SettleEnd, Numbered;
      ghost var log0, rows0, rounds0, revisions0 := log, attempts.rows, out.rounds, out.revisions;
      var a, verified, row := Verify(out, p, Here(out, budget));
      if verified {
        MarkedLast(log0, Marked(row.fingerprint, row.tier, true), rows0, 2 - rounds0);
        return;
      }
      ghost var rows1 := attempts.rows;
      AfterFailure(out, budget, p, a);
      MarkedThen(log0, row, log, rows0, rows1, 2 - rounds0, out.revisions - revisions0);
    }

    /** The look at what was done, and its result on the attempt. */
    method Verify(out: Outcome, p: Proposal, ghost here: Case) returns (a: Answer, verified: bool, row: Attempt)
      requires here.settings == settings && here.world == world && here.executionId == out.executionId && here.rounds == out.rounds
      requires out.rounds <= 2 && out.revisions <= 1 && Fresh(out) && AtHome(out)
      modifies this, attempts, out`attemptId, out`verified
      ensures a == world(old(tick)) && verified == Holds(p, a) && out.verified == Some(verified) && out.attemptId.Some?
      ensures log == old(log) + [Marked(row.fingerprint, row.tier, verified)]
      ensures !verified ==> FailuresStay(old(attempts.rows), attempts.rows) && (row.tier == 0 ==> PriorTier0Failed(attempts.rows, row.fingerprint))
      ensures old(Remembers()) ==> Remembers()
      ensures old(HasItsAttempt(out)) ==>
        SettleEnd(here, p, out.fingerprint, out.revisions, old(Now()), out.kind) ==
          if verified then End(Now(), out.kind, out.revisions)
          else if MayRetry(settings, p, a, out.rounds, here.left) && !FailedEarlier(attempts.rows, out.fingerprint, out.attemptId.value)
          then RoundEnd(here.(rounds := 2, left := here.left - 1), out.revisions, Now())
          else End(Now(), Escalated, out.revisions)
    {
      hide Agreed, OnRecord, PriorTier0Failed, FailuresStay, MayRetry, OfFingerprint, IndexOf, FailedEarlier, RoundEnd, SettleEnd, Numbered;
      a := Ask();
      verified := a.targetVerified && (p.rem.tier == 3 || !a.recurred);
      ghost var rows1;
      row, rows1 := Record(out, p, verified);
      out.verified := Some(verified);
      if old(HasItsAttempt(out)) { SettleStep(here, p, out.fingerprint, out.revisions, old(Now()), out.kind, out.attemptId.value, row); }
    }

    /** Once more, unless the failure cannot be undone, it is not the first, or no round is left. */
    method AfterFailure(out: Outcome, budget: InvestigationBudget, p: Proposal, a: Answer)
      requires 1 <= out.rounds <= 2 && out.revisions <= 1 && out.attemptId.Some?
      modifies this, attempts, budget, out
      decreases 2 - out.rounds, 1
      ensures out.rounds <= 2 && old(out.revisions) <= out.revisions <= 1
      ensures Goes(old(log), log, old(attempts.rows), 2 - old(out.rounds), out.revisions - old(out.revisions))
      ensures old(Remembers()) ==> Remembers()
      ensures out.firstAttemptFailed
      ensures var left := budget.limits.maxReinvestigations - old(budget.reinvestigations);
        var again := MayRetry(settings, p, a, old(out.rounds), left) && !FailedEarlier(old(attempts.rows), old(out.fingerprint), old(out.attemptId).value);
        && old(log) <= log
        && (again ==> out.rounds == 2 && EndedAs(out, RoundEnd(Case(settings, world, out.executionId, 2, left - 1), old(out.revisions), old(Now()))))
        && (!again ==> out.rounds == old(out.rounds) && EndedAs(out, End(old(Now()), Escalated, old(out.revisions))))
    {
      hide Agreed, OnRecord, Goes, Quietly, PriorTier0Failed, FailuresStay, ReviewedAndChecked, RoundEnd, FailedEarlier, Numbered;
      QuietNothing(log);
      QuietGoes(log, log, attempts.rows, 2 - out.rounds, 0);
      out.firstAttemptFailed := true;
      var blocked := p.rem.tier != 3 && p.reversible && settings.rollback && a.kill.Blocks(p.rem.tier);
      var earlier := EarlierFailure(out);
      var again := false;
      if !blocked && out.rounds < 2 && !earlier { again := budget.BeginReinvestigation(); }
      if again {
        Reinvestigate(out, budget);
      } else {
        out.kind := Escalated;
      }
    }

    /** There is an attempt to record a result on: a pull request gets its own only now. */
    method EnsureAttempt(out: Outcome, p: Proposal)
      requires Fresh(out)
      requires AtHome(out)
      modifies attempts, out`attemptId
      ensures (old(Remembers()) ==> Remembers()) && FailuresStay(old(attempts.rows), attempts.rows)
      ensures out.attemptId.Some? && Fresh(out)
      ensures var before := old(attempts.rows);
        if old(out.attemptId).Some? then out.attemptId == old(out.attemptId) && attempts.rows == before
        else attempts.rows == before + [NewAttempt(before, out, p)]
    {
      hide Agreed, OnRecord, PriorTier0Failed, FailuresStay, OfFingerprint, Numbered;
      ghost var before := attempts.rows;
      StaysSame(before);
      if out.attemptId.None? {
        var history := attempts.ByFingerprint(out.fingerprint);
        var id := AttemptId(out.executionId, |history| + 1);
        var added := Attempt(id, out.fingerprint, out.executionId, p.rem.tier, p.rem.action, AttemptOutcome.PrProposed, None);
        if old(Remembers()) && Agreed() { AddedKeepsRecord(log, before, added, home); }
        if old(Remembers()) { AddedIsNumbered(before, added); }
        AddedStays(before, added);
        attempts.Add(added);
        out.attemptId := Some(id);
      }
    }

    /** The attempt is made sure of and its result recorded on it. */
    method Record(out: Outcome, p: Proposal, verified: bool) returns (row: Attempt, ghost rows1: seq<Attempt>)
      requires Fresh(out)
      requires AtHome(out)
      modifies this`log, attempts, out`attemptId
      ensures log == old(log) + [Marked(row.fingerprint, row.tier, verified)] && rows1 == attempts.rows && out.attemptId.Some?
      ensures !verified ==> FailuresStay(old(attempts.rows), rows1) && (row.tier == 0 ==> PriorTier0Failed(rows1, row.fingerprint))
      ensures old(Remembers()) ==> Remembers()
      ensures var before := old(attempts.rows); var rows := if old(out.attemptId).Some? then before else before + [NewAttempt(before, out, p)];
        var i := IndexOf(rows, out.attemptId.value);
        && out.attemptId == (if old(out.attemptId).Some? then old(out.attemptId) else Some(NewAttempt(before, out, p).id))
        && i < |rows| && row == rows[i].(outcome := if verified then AttemptOutcome.Verified else Failed, verified := Some(verified))
        && rows1 == rows[i := row]
    {
      hide Agreed, OnRecord, PriorTier0Failed, FailuresStay, OfFingerprint, Numbered;
      ghost var rows0 := attempts.rows;
      EnsureAttempt(out, p);
      ghost var rows, last := attempts.rows, |attempts.rows| - 1;
      assert rows[last].id == out.attemptId.value;
      ghost var i := IndexOf(rows, out.attemptId.value);
      var outcome := if verified then AttemptOutcome.Verified else Failed;
      row := attempts.Update(out.attemptId.value, outcome, verified);
      rows1 := attempts.rows;
      if old(Remembers()) { MarkedIsNumbered(rows, i, verified); }
      if !verified {
        MarkedFailedStays(rows, i, row);
        StaysTwice(rows0, rows, rows1);
      }
      if old(Remembers()) && Agreed() {
        OnRecordOneId(log, rows, home, i, last);
        MarkedKeepsRecord(log, rows, row, outcome, verified, home);
      }
      log := log + [Marked(row.fingerprint, row.tier, verified)];
    }

    /** Another attempt on this fingerprint already failed. */
    method EarlierFailure(out: Outcome) returns (found: bool)
      requires out.attemptId.Some?
      ensures found <==> FailedEarlier(attempts.rows, out.fingerprint, out.attemptId.value)
    {
      var history := attempts.ByFingerprint(out.fingerprint);
      found := exists k :: 0 <= k < |history| && history[k].id != out.attemptId.value && history[k].outcome == Failed;
      forall a ensures a in history <==> a in attempts.rows && a.fingerprint == out.fingerprint { OfFingerprintIs(attempts.rows, out.fingerprint, a); }
    }

    /** The failed attempt goes back once; the case's outcome becomes the new round's. */
    method Reinvestigate(out: Outcome, budget: InvestigationBudget)
      requires out.rounds == 1 && out.revisions <= 1
      modifies this, attempts, budget, out
      decreases 1, 0
      ensures out.rounds == 2 && old(out.revisions) <= out.revisions <= 1
      ensures Goes(old(log), log, old(attempts.rows), 1, out.revisions - old(out.revisions))
      ensures old(Remembers()) ==> Remembers()
      ensures old(log) <= log && out.firstAttemptFailed
      ensures EndedAs(out, RoundEnd(old(Here(out, budget)).(rounds := 2), old(out.revisions), old(Now())))
    {
      hide Agreed, OnRecord, Goes, RoundEnd, Numbered;
      var round2 := RunRound(out.executionId, budget, 2, out.revisions);
      var attemptId := if round2.attemptId.Some? then round2.attemptId else out.attemptId;
      out.kind, out.rounds, out.revisions, out.fingerprint := round2.kind, 2, round2.revisions, round2.fingerprint;
      out.remediation, out.verified, out.attemptId, out.firstAttemptFailed := round2.remediation, round2.verified, attemptId, true;
    }
  }
}
