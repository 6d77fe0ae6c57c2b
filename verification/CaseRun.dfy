/** A run of the loop in which the record of a failure is lost. */
module CaseRun {
  import opened Wrappers
  import opened Attempts
  import opened Budget
  import opened CaseLoop
  import opened CaseSteps
  import C = Tier3Check
  import G = SafetyGate

  const RERUN := Proposal(G.Remediation(0, "rerun", G.Auto, Some(G.Allowed)), false, "",
    C.Policy(_ => true, _ => true, _ => false, _ => 0, {}, 0, 0))

  const SETTINGS := Settings(true, true, false, true, true, true, 3)

  /** Everything a look may find: a failed execution on the fingerprint, a rerun to propose, and a target that answers. */
  function Finds(fingerprint: string, holds: bool): Answer {
    Answer(false, true,
      false, Some(RERUN), false, fingerprint, true, false,
      true, true, _ => fingerprint, true,
      G.Facts(fingerprint, true, true, true, 1, [], Some(2), Some(1), false, G.NoHolder, false, true), G.KillSwitch(true, map[0 := true]), false,
      true, true, holds, false, true, true,
      _ => C.Missing, _ => C.Missing, None)
  }

  /** The first verification fails, and the second round finds the execution on another fingerprint. */
  function Outside(one: string, other: string): nat -> Answer {
    n => Finds(if n == 3 then other else one, n != 2)
  }

  function Rerun(executionId: string, number: nat, fingerprint: string, outcome: AttemptOutcome, verified: Option<bool>): Attempt {
    Attempt(AttemptId(executionId, number), fingerprint, executionId, 0, "rerun", outcome, verified)
  }

  /** What one such run writes. */
  function Lines(fingerprint: string, marked: string, holds: bool): seq<Step> {
    [Gated(RERUN, true), Ran(fingerprint), Tried(fingerprint), Marked(marked, 0, holds)]
  }

  lemma GateAllows(fingerprint: string, holds: bool, executionId: string, rounds: nat, rows: seq<Attempt>)
    requires fingerprint != "" && !PriorTier0Failed(rows, fingerprint)
    ensures var a := Finds(fingerprint, holds);
      && Proceeds(a, rounds) && FingerprintFor(a, executionId) == fingerprint
      && Gate(RERUN, a, fingerprint, rows, SETTINGS.ceiling).verdict == G.Allowed
  {
    var a := Finds(fingerprint, holds);
    var facts := a.facts.(fingerprint := fingerprint, priorTier0Failed := false);
    G.AllowedExactly(RERUN.rem, facts, a.kill, SETTINGS.ceiling, a.full);
  }

  lemma NoneOn(fingerprint: string)
    ensures OfFingerprint([], fingerprint) == []
  {}

  lemma OneOn(a: Attempt, fingerprint: string)
    ensures OfFingerprint([a], fingerprint) == if a.fingerprint == fingerprint then [a] else []
  {
    assert [a][..0] == [];
  }

  lemma TwoOn(a: Attempt, b: Attempt, fingerprint: string)
    ensures OfFingerprint([a, b], fingerprint) == OfFingerprint([a], fingerprint) + OfFingerprint([b], fingerprint)
  {
    assert [a, b][..1] == [a];
    OneOn(b, fingerprint);
  }

  /** The next attempt of the execution on the fingerprint. */
  function NextRun(rows: seq<Attempt>, executionId: string, fingerprint: string): Attempt {
    Rerun(executionId, |OfFingerprint(rows, fingerprint)| + 1, fingerprint, AttemptOutcome.Executed, None)
  }

  /** What one round leaves when it reruns. */
  function Left(from: State, executionId: string, fingerprint: string, holds: bool): State {
    var rows := from.rows + [NextRun(from.rows, executionId, fingerprint)];
    var i := IndexOf(rows, rows[|rows| - 1].id);
    State(from.tick + 2, from.log + Lines(fingerprint, rows[i].fingerprint, holds), rows[i := MarkedRow(rows[i], holds)])
  }

  /** A round that reruns is settled from the state the rerun leaves. */
  lemma Reruns(c: Case, revisions: nat, from: State, fingerprint: string, holds: bool)
    requires c.settings == SETTINGS && 1 <= c.rounds <= 2 && revisions <= 1 && c.world(from.tick) == Finds(fingerprint, holds)
    requires fingerprint != "" && !PriorTier0Failed(from.rows, fingerprint)
    ensures var log := from.log + [Gated(RERUN, true)] + [Ran(fingerprint)] + [Tried(fingerprint)];
      var ran := State(from.tick + 1, log, from.rows + [NextRun(from.rows, c.executionId, fingerprint)]);
      RoundEnd(c, revisions, from) == SettleEnd(c, RERUN, fingerprint, revisions, ran, Kind.Executed)
  {
    hide Proceeds, Gate, FingerprintFor, PriorTier0Failed, SettleEnd, RoundEnd, OfFingerprint;
    GateAllows(fingerprint, holds, c.executionId, c.rounds, from.rows);
    RoundStep(c, revisions, from);
    var a, next := Finds(fingerprint, holds), State(from.tick + 1, from.log, from.rows);
    var decided := State(from.tick + 1, from.log + [Gated(RERUN, true)], from.rows);
    assert RoundEnd(c, revisions, from) == GateEnd(c, RERUN, a, fingerprint, fingerprint, revisions, next);
    assert GateEnd(c, RERUN, a, fingerprint, fingerprint, revisions, next) == ActEnd(c, RERUN, a, fingerprint, fingerprint, revisions, decided);
    assert ActEnd(c, RERUN, a, fingerprint, fingerprint, revisions, decided) == Tier0End(c, RERUN, a, fingerprint, fingerprint, revisions, decided);
  }

  lemma OneRun(c: Case, from: State, fingerprint: string, holds: bool)
    requires c.settings == SETTINGS && 1 <= c.rounds <= 2
    requires fingerprint != "" && !PriorTier0Failed(from.rows, fingerprint) && forall a | a in from.rows :: a.tier == 0
    requires (exists h :: c.world(from.tick) == Finds(fingerprint, h)) && (exists f :: c.world(from.tick + 1) == Finds(f, holds))
    ensures var after, end := Left(from, c.executionId, fingerprint, holds), RoundEnd(c, 0, from);
      if holds then end.state == after
      else c.rounds < 2 && c.left > 0 && !FailedEarlier(after.rows, fingerprint, NextRun(from.rows, c.executionId, fingerprint).id)
           ==> end == RoundEnd(c.(rounds := 2, left := c.left - 1), 0, after)
  {
    hide RoundEnd, Gate, FailedEarlier, PriorTier0Failed, IndexOf, OfFingerprint, SettleEnd;
    var h :| c.world(from.tick) == Finds(fingerprint, h);
    Reruns(c, 0, from, fingerprint, h);
    var run := NextRun(from.rows, c.executionId, fingerprint);
    var rows := from.rows + [run];
    assert rows[|rows| - 1] == run;
    var log := from.log + [Gated(RERUN, true)];
    var ran := State(from.tick + 1, log + [Ran(fingerprint)] + [Tried(fingerprint)], rows);
    var i := IndexOf(rows, run.id);
    assert rows[i].tier == 0 by { assert rows[i] in rows; }
    assert ran.log + [Marked(rows[i].fingerprint, 0, holds)] == from.log + Lines(fingerprint, rows[i].fingerprint, holds);
    SettleStep(c, RERUN, fingerprint, 0, ran, Kind.Executed, run.id, MarkedRow(rows[i], holds));
  }

  /** The rerun of the first round, marked as failed. */
  lemma FirstRound(executionId: string, one: string)
    ensures Left(State(1, [], []), executionId, one, false)
      == State(3, Lines(one, one, false), [Rerun(executionId, 1, one, Failed, Some(false))])
  {
    NoneOn(one);
    var run := Rerun(executionId, 1, one, AttemptOutcome.Executed, None);
    assert [] + [run] == [run];
    FirstIs([run], run.id, 0);
    assert [] + Lines(one, one, false) == Lines(one, one, false);
  }

  /** The rerun of the second round has the same id, so its success is recorded on the first one. */
  lemma SecondRound(executionId: string, one: string, other: string, log: seq<Step>)
    requires one != other
    ensures Left(State(3, log, [Rerun(executionId, 1, one, Failed, Some(false))]), executionId, other, true)
      == State(5, log + Lines(other, one, true),
        [Rerun(executionId, 1, one, AttemptOutcome.Verified, Some(true)), Rerun(executionId, 1, other, AttemptOutcome.Executed, None)])
  {
    var first, run := Rerun(executionId, 1, one, Failed, Some(false)), Rerun(executionId, 1, other, AttemptOutcome.Executed, None);
    OneOn(first, other);
    assert [first] + [run] == [first, run];
    FirstIs([first, run], run.id, 0);
    assert [first, run][0 := MarkedRow(first, true)] == [MarkedRow(first, true), run];
  }

  /** A later case on the first fingerprint finds no failure there and reruns. */
  lemma ThirdRound(executionId: string, later: string, one: string, other: string, log: seq<Step>)
    requires one != other
    ensures var rows := [Rerun(executionId, 1, one, AttemptOutcome.Verified, Some(true)), Rerun(executionId, 1, other, AttemptOutcome.Executed, None)];
      Left(State(6, log, rows), later, one, true)
      == State(8, log + Lines(one, one, true), rows + [Rerun(later, 2, one, AttemptOutcome.Verified, Some(true))])
  {
    var a, b := Rerun(executionId, 1, one, AttemptOutcome.Verified, Some(true)), Rerun(executionId, 1, other, AttemptOutcome.Executed, None);
    TwoOn(a, b, one);
    OneOn(a, one);
    OneOn(b, one);
    var run := Rerun(later, 2, one, AttemptOutcome.Executed, None);
    var rows := [a, b] + [run];
    assert rows[0] == a && rows[1] == b && rows[2] == run;
    FirstIs(rows, run.id, 2);
    assert rows[2 := MarkedRow(run, true)] == [a, b] + [MarkedRow(run, true)];
  }

  lemma NotFailedEarlier(a: Attempt, fingerprint: string)
    ensures !FailedEarlier([a], fingerprint, a.id)
  {}

  /** What the first case leaves. */
  function AfterFirst(executionId: string, one: string, other: string): State {
    State(5, Lines(one, one, false) + Lines(other, one, true),
      [Rerun(executionId, 1, one, AttemptOutcome.Verified, Some(true)), Rerun(executionId, 1, other, AttemptOutcome.Executed, None)])
  }

  lemma FirstCase(executionId: string, one: string, other: string, left: int)
    requires one != other && one != "" && other != "" && left > 0
    ensures RoundEnd(Case(SETTINGS, Outside(one, other), executionId, 1, left), 0, State(1, [], [])).state == AfterFirst(executionId, one, other)
  {
    hide RoundEnd, Left;
    var w, failed := Outside(one, other), Rerun(executionId, 1, one, Failed, Some(false));
    var mid := State(3, Lines(one, one, false), [failed]);
    assert w(1) == Finds(one, true) && w(2) == Finds(one, false) && w(3) == Finds(other, true) && w(4) == Finds(one, true);
    NoneOn(one);
    assert NextRun([], executionId, one).id == failed.id;
    FirstRound(executionId, one);
    NotFailedEarlier(failed, one);
    OneRun(Case(SETTINGS, w, executionId, 1, left), State(1, [], []), one, false);
    SecondRound(executionId, one, other, mid.log);
    OneRun(Case(SETTINGS, w, executionId, 2, left - 1), mid, other, true);
  }

  lemma SecondCase(executionId: string, later: string, one: string, other: string, left: int)
    requires one != other && one != ""
    ensures var from := AfterFirst(executionId, one, other);
      RoundEnd(Case(SETTINGS, Outside(one, other), later, 1, left), 0, State(6, from.log, from.rows)).state
      == State(8, from.log + Lines(one, one, true), from.rows + [Rerun(later, 2, one, AttemptOutcome.Verified, Some(true))])
  {
    hide RoundEnd, Left;
    var w, from := Outside(one, other), AfterFirst(executionId, one, other);
    assert w(6) == Finds(one, true) && w(7) == Finds(one, true);
    ThirdRound(executionId, later, one, other, from.log);
    OneRun(Case(SETTINGS, w, later, 1, left), State(6, from.log, from.rows), one, true);
  }

  lemma TriedAgain(one: string, other: string)
    ensures !NeverAgain(0, Lines(one, one, false) + Lines(other, one, true) + Lines(one, one, true), [])
  {
    var log := Lines(one, one, false) + Lines(other, one, true) + Lines(one, one, true);
    assert log[3] == Marked(one, 0, false) && log[10] == Tried(one);
  }

  /** Two cases, one after the other: the first one's rerun fails on a fingerprint, its second round is put on another
      one, and in the later case a rerun on the first fingerprint is tried again, against everything on record. */
  method FailureForgotten(executionId: string, later: string, one: string, other: string, limits: Limits)
    returns (log: seq<Step>, rows: seq<Attempt>)
    requires one != other && one != "" && other != "" && limits.maxReinvestigations > 0
    ensures log == Lines(one, one, false) + Lines(other, one, true) + Lines(one, one, true)
    ensures rows == [Rerun(executionId, 1, one, AttemptOutcome.Verified, Some(true)), Rerun(executionId, 1, other, AttemptOutcome.Executed, None),
                     Rerun(later, 2, one, AttemptOutcome.Verified, Some(true))]
    ensures !NeverAgain(0, log, [])
  {
    hide RoundEnd, Left, NeverAgain, PriorTier0Failed;
    var store := new AttemptStore([]);
    var loop := new Orchestrator(store, SETTINGS, Outside(one, other), _ => one);
    assert loop.world(0) == Finds(one, true) && loop.world(5) == Finds(one, true);
    var first := loop.Handle(executionId, limits);
    FirstCase(executionId, one, other, limits.maxReinvestigations);
    var second := loop.Handle(later, limits);
    SecondCase(executionId, later, one, other, limits.maxReinvestigations);
    assert AfterFirst(executionId, one, other).rows + [Rerun(later, 2, one, AttemptOutcome.Verified, Some(true))]
      == [Rerun(executionId, 1, one, AttemptOutcome.Verified, Some(true)), Rerun(executionId, 1, other, AttemptOutcome.Executed, None),
          Rerun(later, 2, one, AttemptOutcome.Verified, Some(true))];
    log, rows := loop.log, store.rows;
    TriedAgain(one, other);
  }
}
