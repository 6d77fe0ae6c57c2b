/** What the last steps of a case tell about how it ended. */
module CaseTells {
  import opened Attempts
  import opened CaseSteps
  import Agents
  import C = Tier3Check
  import G = SafetyGate

  function Last(log: seq<Step>): Step
    requires log != []
  {
    log[|log| - 1]
  }

  /** The gate spoke last: a refusal escalates, and after an allowance nothing more was logged. */
  predicate GateTells(settings: Settings, p: Proposal, allowed: bool, kind: Kind) {
    if !allowed || p.rem.tier == 0 then kind == Escalated
    else if p.rem.tier != 3 then kind == Escalated || kind == Kind.AwaitingApproval
    else if settings.reviewer then kind == Raised
    else if settings.allowUnreviewed then kind == Kind.PrProposed && !settings.hooked
    else kind == Escalated
  }

  /** The review spoke last: only an approval of contents that cannot be opened, or need not be, ends a case there. */
  predicate ReviewTells(settings: Settings, before: seq<Step>, verdict: Agents.Verdict, kind: Kind, revisions: nat) {
    if verdict != Agents.Approve then kind == Escalated && (verdict == Agents.Revise ==> revisions == 1)
    else
      && before != [] && Last(before).Checked?
      && var contents := Last(before).check.contents;
        if contents == [] || exists k :: 0 <= k < |contents| && contents[k].1.None? then kind == Escalated
        else kind == Kind.PrProposed && !settings.pullRequests && !settings.hooked
  }

  predicate Tells(settings: Settings, log: seq<Step>, kind: Kind, revisions: nat)
    requires log != []
  {
    var before := log[..|log| - 1];
    match Last(log)
    case Gated(p, allowed) => GateTells(settings, p, allowed, kind)
    case Ran(_) => false
    case Tried(_) => kind == Escalated || (kind == Kind.Executed && !settings.hooked)
    case Marked(_, _, verified) =>
      kind == if !verified then Escalated else if before != [] && Last(before).Tried? then Kind.Executed else Kind.PrProposed
    case Checked(_, check) => kind == Escalated && check.violations != []
    case Reviewed(_, verdict) => ReviewTells(settings, before, verdict, kind, revisions)
    case Revising => kind == Escalated
    case Opened(_, _, accepted) => if accepted then kind == Kind.PrProposed && !settings.hooked else kind == Escalated
  }

  /** The round got further than `from`, and its last steps tell how it ended. */
  ghost predicate GoesAndTells(settings: Settings, from: State, end: End) {
    && from.log <= end.state.log && from.tick <= end.state.tick
    && end.state.log != [] && Tells(settings, end.state.log, end.kind, end.revisions)
  }

  lemma RetryIsFirst(settings: Settings, p: Proposal, a: Answer, rounds: nat, left: int)
    requires MayRetry(settings, p, a, rounds, left)
    ensures rounds < 2
  {}

  lemma SettleTells(c: Case, p: Proposal, fingerprint: string, revisions: nat, from: State, kind: Kind)
    requires c.rounds <= 2 && revisions <= 1 && from.log != []
    requires kind == Kind.Executed || kind == Kind.PrProposed
    requires kind == Kind.Executed <==> Last(from.log).Tried?
    requires kind == Kind.Executed ==> from.rows != []
    ensures GoesAndTells(c.settings, from, SettleEnd(c, p, fingerprint, revisions, from, kind))
    decreases 2 - c.rounds, 1, 0
  {
    hide Holds, MayRetry, FailedEarlier, RoundEnd, OfFingerprint, IndexOf;
    var s := WithAttempt(c, p, fingerprint, from, kind);
    var id := s.rows[|s.rows| - 1].id;
    var row := MarkedRow(s.rows[IndexOf(s.rows, id)], Holds(p, c.world(from.tick)));
    SettleStep(c, p, fingerprint, revisions, from, kind, id, row);
    var marked := MarkNewest(s, Holds(p, c.world(from.tick)));
    assert marked.log[..|marked.log| - 1] == from.log;
    if !Holds(p, c.world(from.tick)) && MayRetry(c.settings, p, c.world(from.tick), c.rounds, c.left) {
      RetryIsFirst(c.settings, p, c.world(from.tick), c.rounds, c.left);
      RoundTells(c.(rounds := 2, left := c.left - 1), revisions, marked);
    }
  }

  lemma HookTells(c: Case, p: Proposal, fingerprint: string, revisions: nat, from: State, kind: Kind)
    requires c.rounds <= 2 && revisions <= 1 && from.log != []
    requires kind == Kind.Executed || kind == Kind.PrProposed
    requires kind == Kind.Executed <==> Last(from.log).Tried?
    requires kind == Kind.Executed ==> from.rows != []
    requires !c.settings.hooked ==> Tells(c.settings, from.log, kind, revisions)
    ensures GoesAndTells(c.settings, from, HookEnd(c, p, fingerprint, revisions, from, kind))
    decreases 2 - c.rounds, 1, 1
  {
    hide SettleEnd;
    if c.settings.hooked { SettleTells(c, p, fingerprint, revisions, from, kind); }
  }

  lemma SubmitTells(c: Case, p: Proposal, fingerprint: string, revisions: nat, contents: C.Contents, from: State)
    requires c.rounds <= 2 && revisions <= 1
    ensures GoesAndTells(c.settings, from, SubmitEnd(c, p, fingerprint, revisions, contents, from))
    decreases 2 - c.rounds, 2, 0
  {
    hide HookEnd;
    if c.world(from.tick).accepted {
      HookTells(c, p, fingerprint, revisions, State(from.tick + 1, from.log + [Opened(p.diff, contents, true)], from.rows), Kind.PrProposed);
    }
  }

  lemma OpenTells(c: Case, p: Proposal, fingerprint: string, revisions: nat, check: C.Check, from: State)
    requires c.rounds <= 2 && revisions <= 1
    requires |from.log| >= 2 && Last(from.log) == Reviewed(p.diff, Agents.Approve) && from.log[|from.log| - 2] == Step.Checked(p.diff, check)
    ensures GoesAndTells(c.settings, from, OpenEnd(c, p, fingerprint, revisions, check.contents, from))
    decreases 2 - c.rounds, 2, 1
  {
    hide HookEnd, SubmitEnd;
    assert Last(from.log[..|from.log| - 1]) == Step.Checked(p.diff, check);
    if !BadContents(check.contents) {
      if c.settings.pullRequests {
        SubmitTells(c, p, fingerprint, revisions, check.contents, from);
      } else {
        HookTells(c, p, fingerprint, revisions, from, Kind.PrProposed);
      }
    }
  }

  lemma FlowTells(c: Case, p: Proposal, gated: string, own: string, revisions: nat, from: State)
    requires c.rounds <= 2 && revisions <= 1
    requires from.log != [] && Last(from.log) == Gated(p, true) && p.rem.tier == 3 && c.settings.reviewer
    ensures GoesAndTells(c.settings, from, ReviewEnd(c, p, gated, own, revisions, from))
    decreases 2 - c.rounds, 3, 2 - 2 * revisions
  {
    hide ReviewEnd, OpenEnd, ReviseEnd, C.CheckOf;
    ReviewStep(c, p, gated, own, revisions, from);
    var a := c.world(from.tick);
    var found := C.CheckOf(p.diff, p.policy, a.read, a.again);
    if found.Some? && found.value.violations == [] {
      var s := State(from.tick + 1, from.log + [Step.Checked(p.diff, found.value)] + [Reviewed(p.diff, VerdictOf(a))], from.rows);
      if VerdictOf(a) == Agents.Approve {
        OpenTells(c, p, own, revisions, found.value, s);
      } else if VerdictOf(a) == Agents.Revise && revisions == 0 {
        ReviseTells(c, gated, s);
      }
    }
  }

  lemma ReviseTells(c: Case, gated: string, from: State)
    requires c.rounds <= 2 && c.settings.reviewer
    ensures GoesAndTells(c.settings, from, ReviseEnd(c, gated, from))
    decreases 2 - c.rounds, 3, 1
  {
    hide ReviewEnd, ReviseEnd, Gate;
    ReviseStep(c, gated, from);
    var b := c.world(from.tick);
    if !b.spent && Usable(b) && b.proposal.value.rem.tier == 3 {
      var p := b.proposal.value;
      var s := State(from.tick + 1, from.log + [Revising] + [Gated(p, true)], from.rows);
      if Gate(p, b, gated, from.rows, c.settings.ceiling).verdict == G.Allowed {
        FlowTells(c, p, gated, b.fingerprints(c.executionId), 1, s);
      }
    }
  }

  lemma ActTells(c: Case, p: Proposal, a: Answer, gated: string, own: string, revisions: nat, from: State)
    requires c.rounds <= 2 && revisions <= 1
    requires from.log != [] && Last(from.log) == Gated(p, true)
    ensures GoesAndTells(c.settings, from, ActEnd(c, p, a, gated, own, revisions, from))
    decreases 2 - c.rounds, 5, 0
  {
    hide ReviewEnd, HookEnd, OfFingerprint;
    if p.rem.tier == 3 {
      if c.settings.reviewer {
        FlowTells(c, p, gated, own, revisions, from);
      } else if c.settings.allowUnreviewed {
        HookTells(c, p, own, revisions, from, Kind.PrProposed);
      }
    } else if a.dryRunOk && p.rem.tier == 0 {
      var row := NumberedAttempt(from.rows, c.executionId, gated, 0, p.rem.action, if a.executeOk then AttemptOutcome.Executed else Failed);
      var ran := State(from.tick, from.log + [Ran(gated)] + [Tried(gated)], from.rows + [row]);
      if a.executeOk { HookTells(c, p, own, revisions, ran, Kind.Executed); }
    }
  }

  /** Every round, whatever the looks outside find: one that logged nothing escalated, and in any other the last steps tell
      how it ended. */
  lemma RoundTells(c: Case, revisions: nat, from: State)
    requires c.rounds <= 2 && revisions <= 1
    ensures var end := RoundEnd(c, revisions, from);
      && from.tick < end.state.tick
      && (if end.state.log == from.log then end.kind == Escalated else GoesAndTells(c.settings, from, end))
    decreases 2 - c.rounds, 7, 0
  {
    hide RoundEnd, ActEnd, Gate;
    RoundStep(c, revisions, from);
    var a := c.world(from.tick);
    if Proceeds(a, c.rounds) {
      var p, fingerprint := a.proposal.value, FingerprintFor(a, c.executionId);
      if Gate(p, a, fingerprint, from.rows, c.settings.ceiling).verdict == G.Allowed {
        ActTells(c, p, a, fingerprint, a.fingerprints(c.executionId), revisions, State(from.tick + 1, from.log + [Gated(p, true)], from.rows));
      }
    }
  }

  /** A round logs something exactly when its investigation proposed something, the facts to gate it were there, and a
      second round had allowance left, read the failed attempt and revised the hypothesis. */
  lemma LogsExactly(c: Case, revisions: nat, from: State)
    requires 1 <= c.rounds <= 2 && revisions <= 1
    ensures var a := c.world(from.tick);
      RoundEnd(c, revisions, from).state.log != from.log <==>
        && a.proposal.Some? && !a.abstained && a.analyzed && a.correlated && a.valid
        && (c.rounds == 2 ==> !a.spent && a.readAttempt && !a.sameHypothesis)
  {
    hide RoundEnd, ActEnd, Gate;
    RoundStep(c, revisions, from);
    var a := c.world(from.tick);
    if Proceeds(a, c.rounds) {
      var p, fingerprint := a.proposal.value, FingerprintFor(a, c.executionId);
      if Gate(p, a, fingerprint, from.rows, c.settings.ceiling).verdict == G.Allowed {
        ActTells(c, p, a, fingerprint, a.fingerprints(c.executionId), revisions, State(from.tick + 1, from.log + [Gated(p, true)], from.rows));
      }
    }
  }

  /** After its own look, the hook goes outside again exactly when what was done did not hold, no kill switch stopped its
      rollback, it was the first round with one more left, and no other attempt on the fingerprint had failed. */
  lemma GoesBackExactly(c: Case, p: Proposal, fingerprint: string, revisions: nat, from: State, kind: Kind)
    requires 1 <= c.rounds <= 2 && revisions <= 1 && (kind == Kind.Executed ==> from.rows != [])
    ensures var a, s := c.world(from.tick), WithAttempt(c, p, fingerprint, from, kind);
      var id := s.rows[|s.rows| - 1].id;
      var verified := a.targetVerified && (p.rem.tier == 3 || !a.recurred);
      from.tick + 1 < SettleEnd(c, p, fingerprint, revisions, from, kind).state.tick <==>
        && !verified && c.rounds == 1 && c.left >= 1
        && !(p.rem.tier != 3 && p.reversible && c.settings.rollback && a.kill.Blocks(p.rem.tier))
        && forall b | b in MarkNewest(s, verified).rows && b.fingerprint == fingerprint && b.id != id :: b.outcome != Failed
  {
    hide RoundEnd, OfFingerprint, IndexOf;
    var a, s := c.world(from.tick), WithAttempt(c, p, fingerprint, from, kind);
    var id := s.rows[|s.rows| - 1].id;
    SettleStep(c, p, fingerprint, revisions, from, kind, id, MarkedRow(s.rows[IndexOf(s.rows, id)], Holds(p, a)));
    if MayRetry(c.settings, p, a, c.rounds, c.left) { RoundTells(c.(rounds := 2, left := c.left - 1), revisions, MarkNewest(s, Holds(p, a))); }
  }
}
