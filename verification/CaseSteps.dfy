/** The steps of the case loop: what they show, and how a round ends as a function of what the looks outside find. */
module CaseSteps {
  import opened Wrappers
  import opened Attempts
  import Agents
  import C = Tier3Check
  import G = SafetyGate

  // ---- the outside -----------------------------------------------------------------------------

  datatype Proposal = Proposal(rem: G.Remediation, reversible: bool, diff: string, policy: C.Policy)

  /** What one look outside finds. Not every look uses every field. */
  datatype Answer = Answer(
    prefiltered: bool, failed: bool, // the execution itself
    spent: bool, proposal: Option<Proposal>, abstained: bool, ownFingerprint: string, readAttempt: bool, sameHypothesis: bool, // the investigation
    analyzed: bool, correlated: bool, fingerprints: string -> string, valid: bool, // the deterministic facts
    facts: G.Facts, kill: G.KillSwitch, full: bool, // the gate
    dryRunOk: bool, executeOk: bool, targetVerified: bool, recurred: bool, accepted: bool, requested: bool, // the target, the approval store
    read: string -> C.Reading, again: string -> C.Reading, review: Option<Agents.Verdict>) // the source, the review

  datatype Settings = Settings(
    hooked: bool, reviewer: bool, allowUnreviewed: bool, approvals: bool, pullRequests: bool, rollback: bool, ceiling: int)

  // ---- what is done ----------------------------------------------------------------------------

  datatype Step =
    | Gated(proposal: Proposal, allowed: bool)
    | Ran(fingerprint: string)
    | Tried(fingerprint: string)
    | Marked(fingerprint: string, tier: int, verified: bool)
    | Checked(diff: string, check: C.Check)
    | Reviewed(diff: string, verdict: Agents.Verdict)
    | Revising
    | Opened(diff: string, contents: C.Contents, accepted: bool)

  datatype Kind = Closed | Executed | AwaitingApproval | PrProposed | Escalated | Raised

  // ---- what a log of steps shows ---------------------------------------------------------------

  /** Steps that reach the target: Tier 0 runs and pull requests. */
  function Actions(log: seq<Step>): nat {
    if log == [] then 0 else Actions(log[..|log| - 1]) + (if log[|log| - 1].Ran? || log[|log| - 1].Opened? then 1 else 0)
  }

  function Revisions(log: seq<Step>): nat {
    if log == [] then 0 else Revisions(log[..|log| - 1]) + (if log[|log| - 1].Revising? then 1 else 0)
  }

  function LastGate(log: seq<Step>): (gate: Option<Step>)
    ensures gate.Some? ==> gate.value.Gated?
  {
    if log == [] then None
    else if log[|log| - 1].Gated? then Some(log[|log| - 1])
    else LastGate(log[..|log| - 1])
  }

  /** A pull request right after an approving review, which came right after a check without a report, all of the same
      diff and with that check's contents, under a last gate decision that allowed a proposal with that diff. */
  predicate ReviewedAndChecked(before: seq<Step>, diff: string, contents: C.Contents) {
    && |before| >= 2
    && before[|before| - 1] == Reviewed(diff, Agents.Approve)
    && before[|before| - 2].Checked? && before[|before| - 2].diff == diff
    && before[|before| - 2].check.violations == [] && before[|before| - 2].check.contents == contents
    && LastGate(before).Some? && LastGate(before).value.allowed && LastGate(before).value.proposal.diff == diff
  }

  predicate PullRequestsAreSound(log: seq<Step>) {
    log != [] ==>
      var last, front := log[|log| - 1], log[..|log| - 1];
      PullRequestsAreSound(front) && (last.Opened? ==> ReviewedAndChecked(front, last.diff, last.contents))
  }

  predicate PriorTier0Failed(rows: seq<Attempt>, fingerprint: string) {
    exists k :: 0 <= k < |rows| && rows[k].fingerprint == fingerprint && rows[k].tier == 0 && rows[k].verified == Some(false)
  }

  /** No Tier 0 attempt is added, from `since` on, on a fingerprint that one had already failed on: in the rows at that
      time, or marked since. */
  ghost predicate NeverAgain(since: nat, log: seq<Step>, rows: seq<Attempt>) {
    forall j | since <= j < |log| && log[j].Tried? ::
      && !PriorTier0Failed(rows, log[j].fingerprint)
      && forall i | since <= i < j :: log[i] != Marked(log[j].fingerprint, 0, false)
  }

  /** Failures on record are still on record. */
  ghost predicate FailuresStay(rows: seq<Attempt>, rows': seq<Attempt>) {
    forall fingerprint :: PriorTier0Failed(rows, fingerprint) ==> PriorTier0Failed(rows', fingerprint)
  }

  ghost predicate MarksOnRecord(since: nat, log: seq<Step>, rows: seq<Attempt>) {
    forall i | since <= i < |log| && log[i].Marked? && log[i].tier == 0 && !log[i].verified :: PriorTier0Failed(rows, log[i].fingerprint)
  }

  /** What came first and what followed. */
  lemma ThenNeverAgain(since: nat, mid: seq<Step>, log: seq<Step>, rows: seq<Attempt>, rows': seq<Attempt>)
    requires since <= |mid| && mid <= log
    requires NeverAgain(since, mid, rows) && NeverAgain(|mid|, log, rows')
    requires FailuresStay(rows, rows') && MarksOnRecord(since, mid, rows')
    ensures NeverAgain(since, log, rows)
  {
    forall j | since <= j < |log| && log[j].Tried?
      ensures !PriorTier0Failed(rows, log[j].fingerprint)
      ensures forall i | since <= i < j :: log[i] != Marked(log[j].fingerprint, 0, false)
    {
      if j < |mid| {
        assert mid[j] == log[j];
      } else {
        forall i | since <= i < j ensures log[i] != Marked(log[j].fingerprint, 0, false) {
          if i < |mid| { assert mid[i] == log[i]; }
        }
      }
    }
  }

  lemma StaysTwice(a: seq<Attempt>, b: seq<Attempt>, c: seq<Attempt>)
    requires FailuresStay(a, b) && FailuresStay(b, c)
    ensures FailuresStay(a, c)
  {}

  lemma StaysSame(rows: seq<Attempt>)
    ensures FailuresStay(rows, rows)
  {}

  lemma AddedStays(rows: seq<Attempt>, a: Attempt)
    ensures FailuresStay(rows, rows + [a])
  {
    forall fingerprint | PriorTier0Failed(rows, fingerprint) ensures PriorTier0Failed(rows + [a], fingerprint) {
      var k :| 0 <= k < |rows| && rows[k].fingerprint == fingerprint && rows[k].tier == 0 && rows[k].verified == Some(false);
      assert (rows + [a])[k] == rows[k];
    }
  }

  lemma MarkedFailedStays(rows: seq<Attempt>, i: nat, row: Attempt)
    requires i < |rows| && row.fingerprint == rows[i].fingerprint && row.tier == rows[i].tier && row.verified == Some(false)
    ensures FailuresStay(rows, rows[i := row])
    ensures row.tier == 0 ==> PriorTier0Failed(rows[i := row], row.fingerprint)
  {
    forall fingerprint | PriorTier0Failed(rows, fingerprint) ensures PriorTier0Failed(rows[i := row], fingerprint) {
      var k :| 0 <= k < |rows| && rows[k].fingerprint == fingerprint && rows[k].tier == 0 && rows[k].verified == Some(false);
      assert rows[i := row][k].verified == Some(false);
    }
    if row.tier == 0 { assert rows[i := row][i] == row; }
  }

  lemma OneMore(log: seq<Step>, step: Step)
    ensures var log' := log + [step];
      && Actions(log') == Actions(log) + (if step.Ran? || step.Opened? then 1 else 0)
      && Revisions(log') == Revisions(log) + (if step.Revising? then 1 else 0)
      && LastGate(log') == (if step.Gated? then Some(step) else LastGate(log))
      && (PullRequestsAreSound(log) && (step.Opened? ==> ReviewedAndChecked(log, step.diff, step.contents)) ==> PullRequestsAreSound(log'))
  {
    assert (log + [step])[..|log|] == log;
  }

  // ---- the gate --------------------------------------------------------------------------------

  function Gate(p: Proposal, a: Answer, fingerprint: string, rows: seq<Attempt>, ceiling: int): G.Decision {
    var facts := a.facts.(fingerprint := fingerprint, priorTier0Failed := PriorTier0Failed(rows, fingerprint));
    G.Combine(p.rem, G.Evaluate(p.rem, facts, a.kill, ceiling, a.full))
  }

  /** An investigation that proposes something, with the facts to gate it. */
  predicate Usable(a: Answer) { a.proposal.Some? && !a.abstained && a.analyzed && a.correlated && a.valid }

  /** A round gets as far as the gate; the second one only with allowance left, the failed attempt read and the
      hypothesis revised. */
  predicate Proceeds(a: Answer, rounds: nat) {
    Usable(a) && (rounds >= 2 ==> !a.spent) && (rounds == 2 ==> a.readAttempt && !a.sameHypothesis)
  }

  function FingerprintFor(a: Answer, executionId: string): string {
    if a.fingerprints(executionId) == "" then "unclassified:" + executionId else a.fingerprints(executionId)
  }

  /** No second Tier 0 attempt after a failed one, whatever else the gate is told. */
  lemma GateRemembers(p: Proposal, a: Answer, fingerprint: string, rows: seq<Attempt>, ceiling: int)
    ensures p.rem.tier == 0 && Gate(p, a, fingerprint, rows, ceiling).verdict == G.Allowed ==> !PriorTier0Failed(rows, fingerprint)
  {}

  // ---- how a round ends, step by step ------------------------------------------------------------

  /** How many looks outside were taken, what was done, and the attempts. */
  datatype State = State(tick: nat, log: seq<Step>, rows: seq<Attempt>)

  function MarkedRow(row: Attempt, verified: bool): Attempt {
    row.(outcome := if verified then AttemptOutcome.Verified else Failed, verified := Some(verified))
  }

  /** The newest attempt's result goes to the first row with its id. */
  function MarkNewest(s: State, verified: bool): State
    requires s.rows != []
  {
    var i := IndexOf(s.rows, s.rows[|s.rows| - 1].id);
    var row := MarkedRow(s.rows[i], verified);
    State(s.tick + 1, s.log + [Marked(row.fingerprint, row.tier, verified)], s.rows[i := row])
  }

  predicate Holds(p: Proposal, a: Answer) { a.targetVerified && (p.rem.tier == 3 || !a.recurred) }

  /** Another attempt on this fingerprint already failed. */
  predicate FailedEarlier(rows: seq<Attempt>, fingerprint: string, id: AttemptId) {
    exists b :: b in rows && b.fingerprint == fingerprint && b.id != id && b.outcome == Failed
  }

  /** A failure may go back once, unless a kill switch stopped its rollback or no round is left. */
  predicate MayRetry(settings: Settings, p: Proposal, a: Answer, rounds: nat, left: int) {
    !(p.rem.tier != 3 && p.reversible && settings.rollback && a.kill.Blocks(p.rem.tier)) && rounds < 2 && left > 0
  }

  /** What stays the same during one round. `left` is what remains of the allowance for a second one. */
  datatype Case = Case(settings: Settings, world: nat -> Answer, executionId: string, rounds: nat, left: int)

  /** Where a round leaves the loop, what it ends as, and the revisions used by then. */
  datatype End = End(state: State, kind: Kind, revisions: nat)

  function Log(s: State, step: Step): State { s.(log := s.log + [step]) }

  function NumberedAttempt(rows: seq<Attempt>, executionId: string, fingerprint: string, tier: int, action: string, outcome: AttemptOutcome): Attempt {
    Attempt(AttemptId(executionId, |OfFingerprint(rows, fingerprint)| + 1), fingerprint, executionId, tier, action, outcome, None)
  }

  /** The attempt a result is recorded on: a run's own, and one added now for a pull request. */
  function WithAttempt(c: Case, p: Proposal, fingerprint: string, from: State, kind: Kind): (s: State)
    ensures kind != Kind.Executed ==> s.rows != []
  {
    if kind == Kind.Executed then from
    else from.(rows := from.rows + [NumberedAttempt(from.rows, c.executionId, fingerprint, p.rem.tier, p.rem.action, AttemptOutcome.PrProposed)])
  }

  /** The result is recorded; a failure goes back once or escalates. */
  function SettleEnd(c: Case, p: Proposal, fingerprint: string, revisions: nat, from: State, kind: Kind): End
    requires c.rounds <= 2 && revisions <= 1 && (kind == Kind.Executed ==> from.rows != [])
    decreases 2 - c.rounds, 1, 0
  {
    var a, s := c.world(from.tick), WithAttempt(c, p, fingerprint, from, kind);
    var marked, id := MarkNewest(s, Holds(p, a)), s.rows[|s.rows| - 1].id;
    if Holds(p, a) then End(marked, kind, revisions)
    else if MayRetry(c.settings, p, a, c.rounds, c.left) && !FailedEarlier(marked.rows, fingerprint, id) then
      RoundEnd(c.(rounds := 2, left := c.left - 1), revisions, marked)
    else End(marked, Escalated, revisions)
  }

  /** Without a hook, the case ends as it is. */
  function HookEnd(c: Case, p: Proposal, fingerprint: string, revisions: nat, from: State, kind: Kind): End
    requires c.rounds <= 2 && revisions <= 1 && (kind == Kind.Executed ==> from.rows != [])
    decreases 2 - c.rounds, 1, 1
  {
    if c.settings.hooked then SettleEnd(c, p, fingerprint, revisions, from, kind) else End(from, kind, revisions)
  }

  /** Contents that delete a file, or none at all, are not opened. */
  predicate BadContents(contents: C.Contents) { contents == [] || exists k :: 0 <= k < |contents| && contents[k].1.None? }

  /** The target opens the pull request or refuses it. */
  function SubmitEnd(c: Case, p: Proposal, fingerprint: string, revisions: nat, contents: C.Contents, from: State): End
    requires c.rounds <= 2 && revisions <= 1
    decreases 2 - c.rounds, 2, 0
  {
    var accepted := c.world(from.tick).accepted;
    var shown := Log(from.(tick := from.tick + 1), Opened(p.diff, contents, accepted));
    if accepted then HookEnd(c, p, fingerprint, revisions, shown, Kind.PrProposed) else End(shown, Escalated, revisions)
  }

  function OpenEnd(c: Case, p: Proposal, fingerprint: string, revisions: nat, contents: C.Contents, from: State): End
    requires c.rounds <= 2 && revisions <= 1
    decreases 2 - c.rounds, 2, 1
  {
    if BadContents(contents) then End(from, Escalated, revisions)
    else if !c.settings.pullRequests then HookEnd(c, p, fingerprint, revisions, from, Kind.PrProposed)
    else SubmitEnd(c, p, fingerprint, revisions, contents, from)
  }

  function VerdictOf(a: Answer): Agents.Verdict { if a.review.Some? then a.review.value else Agents.Reject }

  /** A Tier 3 proposal: checked, reviewed, revised at most once in the whole case, and opened when the review approves.
      `gated` is the fingerprint the gate is asked about, `own` the outcome's. */
  function ReviewEnd(c: Case, p: Proposal, gated: string, own: string, revisions: nat, from: State): End
    requires c.rounds <= 2 && revisions <= 1
    decreases 2 - c.rounds, 3, 2 - 2 * revisions
  {
    var a, next := c.world(from.tick), from.(tick := from.tick + 1);
    var found := C.CheckOf(p.diff, p.policy, a.read, a.again);
    if found.None? then End(next, Raised, revisions)
    else
      var checked := Log(next, Step.Checked(p.diff, found.value));
      if found.value.violations != [] then End(checked, Escalated, revisions)
      else
        var reviewed := Log(checked, Reviewed(p.diff, VerdictOf(a)));
        if VerdictOf(a) == Agents.Approve then OpenEnd(c, p, own, revisions, found.value.contents, reviewed)
        else if VerdictOf(a) == Agents.Revise && revisions == 0 then ReviseEnd(c, gated, reviewed)
        else End(reviewed, Escalated, revisions)
  }

  /** The one revision: asked for, gated anew, and checked like the first proposal. */
  function ReviseEnd(c: Case, gated: string, from: State): End
    requires c.rounds <= 2
    decreases 2 - c.rounds, 3, 1
  {
    var b, asked := c.world(from.tick), Log(from.(tick := from.tick + 1), Revising);
    if b.spent || !Usable(b) || b.proposal.value.rem.tier != 3 then End(asked, Escalated, 1)
    else
      var p := b.proposal.value;
      var allowed := Gate(p, b, gated, from.rows, c.settings.ceiling).verdict == G.Allowed;
      var decided := Log(asked, Gated(p, allowed));
      if allowed then ReviewEnd(c, p, gated, b.fingerprints(c.executionId), 1, decided) else End(decided, Escalated, 1)
  }

  function PrEnd(c: Case, p: Proposal, gated: string, own: string, revisions: nat, from: State): End
    requires c.rounds <= 2 && revisions <= 1
    decreases 2 - c.rounds, 4, 0
  {
    if c.settings.reviewer then ReviewEnd(c, p, gated, own, revisions, from)
    else if c.settings.allowUnreviewed then HookEnd(c, p, own, revisions, from, Kind.PrProposed)
    else End(from, Escalated, revisions)
  }

  function Tier0End(c: Case, p: Proposal, a: Answer, gated: string, own: string, revisions: nat, from: State): End
    requires c.rounds <= 2 && revisions <= 1
    decreases 2 - c.rounds, 4, 0
  {
    var row := NumberedAttempt(from.rows, c.executionId, gated, 0, p.rem.action, if a.executeOk then AttemptOutcome.Executed else Failed);
    var ran := Log(Log(from, Ran(gated)), Tried(gated)).(rows := from.rows + [row]);
    if a.executeOk then HookEnd(c, p, own, revisions, ran, Kind.Executed) else End(ran, Escalated, revisions)
  }

  /** An allowed proposal. */
  function ActEnd(c: Case, p: Proposal, a: Answer, gated: string, own: string, revisions: nat, from: State): End
    requires c.rounds <= 2 && revisions <= 1
    decreases 2 - c.rounds, 5, 0
  {
    if p.rem.tier == 3 then PrEnd(c, p, gated, own, revisions, from)
    else if !a.dryRunOk then End(from, Escalated, revisions)
    else if p.rem.tier == 0 then Tier0End(c, p, a, gated, own, revisions, from)
    else End(from, if c.settings.approvals && !a.requested then Escalated else Kind.AwaitingApproval, revisions)
  }

  /** A proposal and the gate. */
  function GateEnd(c: Case, p: Proposal, a: Answer, gated: string, own: string, revisions: nat, from: State): End
    requires c.rounds <= 2 && revisions <= 1
    decreases 2 - c.rounds, 6, 0
  {
    var allowed := Gate(p, a, gated, from.rows, c.settings.ceiling).verdict == G.Allowed;
    var decided := Log(from, Gated(p, allowed));
    if allowed then ActEnd(c, p, a, gated, own, revisions, decided) else End(decided, Escalated, revisions)
  }

  /** A result recorded on the first row with the attempt's id: where it leads. */
  lemma SettleStep(c: Case, p: Proposal, fingerprint: string, revisions: nat, from: State, kind: Kind, id: AttemptId, row: Attempt)
    requires c.rounds <= 2 && revisions <= 1
    requires var s := WithAttempt(c, p, fingerprint, from, kind);
      && s.rows != [] && s.rows[|s.rows| - 1].id == id && row == MarkedRow(s.rows[IndexOf(s.rows, id)], Holds(p, c.world(from.tick)))
    ensures var a, s := c.world(from.tick), WithAttempt(c, p, fingerprint, from, kind);
      var rows := s.rows[IndexOf(s.rows, id) := row];
      var marked := State(from.tick + 1, from.log + [Marked(row.fingerprint, row.tier, Holds(p, a))], rows);
      SettleEnd(c, p, fingerprint, revisions, from, kind) ==
        if Holds(p, a) then End(marked, kind, revisions)
        else if MayRetry(c.settings, p, a, c.rounds, c.left) && !FailedEarlier(rows, fingerprint, id)
        then RoundEnd(c.(rounds := 2, left := c.left - 1), revisions, marked)
        else End(marked, Escalated, revisions)
  {
    hide Holds, MayRetry, FailedEarlier, RoundEnd, OfFingerprint;
  }

  /** One check and review: where they lead. */
  lemma ReviewStep(c: Case, p: Proposal, gated: string, own: string, revisions: nat, from: State)
    requires c.rounds <= 2 && revisions <= 1
    ensures var a, end := c.world(from.tick), ReviewEnd(c, p, gated, own, revisions, from);
      var found := C.CheckOf(p.diff, p.policy, a.read, a.again);
      if found.None? then end == End(State(from.tick + 1, from.log, from.rows), Raised, revisions)
      else
        var checked := from.log + [Step.Checked(p.diff, found.value)];
        if found.value.violations != [] then end == End(State(from.tick + 1, checked, from.rows), Escalated, revisions)
        else
          var s := State(from.tick + 1, checked + [Reviewed(p.diff, VerdictOf(a))], from.rows);
          end == if VerdictOf(a) == Agents.Approve then OpenEnd(c, p, own, revisions, found.value.contents, s)
                 else if VerdictOf(a) == Agents.Revise && revisions == 0 then ReviseEnd(c, gated, s)
                 else End(s, Escalated, revisions)
  {
    hide C.CheckOf, OpenEnd, ReviseEnd;
  }

  lemma ReviseStep(c: Case, gated: string, from: State)
    requires c.rounds <= 2
    ensures var b, end := c.world(from.tick), ReviseEnd(c, gated, from);
      var asked := from.log + [Revising];
      if b.spent || !Usable(b) || b.proposal.value.rem.tier != 3 then end == End(State(from.tick + 1, asked, from.rows), Escalated, 1)
      else
        var p := b.proposal.value;
        var allowed := Gate(p, b, gated, from.rows, c.settings.ceiling).verdict == G.Allowed;
        var s := State(from.tick + 1, asked + [Gated(p, allowed)], from.rows);
        end == if allowed then ReviewEnd(c, p, gated, b.fingerprints(c.executionId), 1, s) else End(s, Escalated, 1)
  {
    hide ReviewEnd, Gate, Usable;
  }

  /** A whole round, from its first look outside. */
  function RoundEnd(c: Case, revisions: nat, from: State): End
    requires c.rounds <= 2 && revisions <= 1
    decreases 2 - c.rounds, 7, 0
  {
    var a, next := c.world(from.tick), from.(tick := from.tick + 1);
    if !Proceeds(a, c.rounds) then End(next, Escalated, revisions)
    else GateEnd(c, a.proposal.value, a, FingerprintFor(a, c.executionId), a.fingerprints(c.executionId), revisions, next)
  }

  lemma RoundStep(c: Case, revisions: nat, from: State)
    requires c.rounds <= 2 && revisions <= 1
    ensures var a, next := c.world(from.tick), State(from.tick + 1, from.log, from.rows);
      RoundEnd(c, revisions, from) ==
        if !Proceeds(a, c.rounds) then End(next, Escalated, revisions)
        else GateEnd(c, a.proposal.value, a, FingerprintFor(a, c.executionId), a.fingerprints(c.executionId), revisions, next)
  {
    hide GateEnd;
  }
}
