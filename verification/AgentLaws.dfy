/** What an investigation or a review that ended tells about the model's answers. */
module AgentLaws {
  import opened Wrappers
  import opened Budget
  import opened Agents

  /** A reply that hands in the report, by its tool or as plain text. */
  predicate HandsIn(answer: Answer) {
    answer.Reply? && ((exists c :: c in answer.toolCalls && c.name == SubmitReport) || (answer.toolCalls == [] && answer.plain))
  }

  lemma HandsInIsFinal(answer: Answer)
    ensures HandsIn(answer) <==> Final(answer)
  {
    if answer.Reply? { SubmitsExactly(answer.toolCalls, SubmitReport); }
  }

  lemma SubmitsExactly(calls: seq<ToolCall>, name: ToolName)
    ensures Submits(calls, name) <==> exists c :: c in calls && c.name == name
  {
    if c :| c in calls && c.name == name { var k :| 0 <= k < |calls| && calls[k] == c; }
  }

  // ---- tool calls ------------------------------------------------------------------------------

  predicate Asked(calls: seq<ToolCall>, id: string) { id != "" && exists c :: c in calls && c.id == id }

  lemma AskedNext(calls: seq<ToolCall>, id: string)
    requires calls != []
    ensures Asked(calls, id) <==> (id != "" && id == calls[0].id) || Asked(calls[1..], id)
  {
    assert calls == [calls[0]] + calls[1..];
  }

  /** The calls of a reply: a tool result is an earlier one or one asked for here; while the allowance lasts every id is run,
      and it ends exactly when one more was asked for than it covers. */
  lemma {:induction false} ChargedExactly(limits: Limits, toolCalls: nat, results: seq<string>, calls: seq<ToolCall>)
    requires |results| > 0 ==> toolCalls <= limits.maxToolCalls
    ensures var (all, spent) := ChargeAll(limits, toolCalls, results, calls);
      && (forall id | id in all :: id in results || Asked(calls, id))
      && (spent <==> exists id :: Asked(calls, id) && id !in all)
      && (spent ==> toolCalls + |all| - |results| >= limits.maxToolCalls)
    decreases |calls|
  {
    if calls != [] {
      var (all, spent) := ChargeAll(limits, toolCalls, results, calls);
      var (first, stop) := Charge(limits, toolCalls, results, calls[0]);
      forall id: string ensures Asked(calls, id) <==> (id != "" && id == calls[0].id) || Asked(calls[1..], id) { AskedNext(calls, id); }
      if stop {
        assert Asked(calls, calls[0].id) && calls[0].id !in all;
      } else {
        ChargedExactly(limits, toolCalls + |first| - |results|, first, calls[1..]);
        if spent {
          var id :| Asked(calls[1..], id) && id !in all;
          assert Asked(calls, id);
        } else {
          forall id | Asked(calls, id) ensures id in all { if !Asked(calls[1..], id) { assert id in first && first <= all; } }
        }
      }
    }
  }

  // ---- investigations --------------------------------------------------------------------------

  predicate Silent(answer: Answer) { answer.Reply? && answer.toolCalls == [] }

  /** From one turn up to another, every answer was a reply that did not hand in the report, and at most one of them asked
      for nothing, none if the model was told so before. */
  ghost predicate Talked(answers: nat -> Answer, turn: nat, k: nat, nudged: bool) {
    && (forall j: nat | turn <= j < k :: answers(j).Reply? && !HandsIn(answers(j)))
    && (forall i: nat, j: nat | turn <= i < j < k :: !(Silent(answers(i)) && Silent(answers(j))))
    && (nudged ==> forall j: nat | turn <= j < k :: !Silent(answers(j)))
  }

  /** Turn `k` gave the reason; `before` replies were charged when `turn` began. */
  ghost predicate EndsAt(limits: Limits, answers: nat -> Answer, s: Submission, turn: nat, k: nat, nudged: bool, before: nat, inv: Investigation, end: Talk) {
    var charged := |end.calls| - before;
    && turn <= k && Talked(answers, turn, k, nudged) && (charged == k - turn || (charged == k - turn + 1 && answers(k).Reply?))
    && match inv.stop
       case Reported => HandsIn(answers(k)) && s.sound && charged == k - turn + 1
       case MalformedReport => HandsIn(answers(k)) && !s.sound && charged == k - turn + 1
       case ModelUnavailable => answers(k).Unavailable? && charged == k - turn
       case ToolCallsSpent => !HandsIn(answers(k)) && charged == k - turn + 1 && end.toolCalls >= limits.maxToolCalls
       case TokensSpent =>
         if charged == k - turn then answers(k).NoTokens? || Total(end.calls) >= limits.maxTokens
         else !HandsIn(answers(k)) && Total(end.calls) >= limits.maxTokens
       case NoReport =>
         !HandsIn(answers(k)) && charged == k - turn + 1 && Silent(answers(k)) && (nudged || exists j: nat :: turn <= j < k && Silent(answers(j)))
  }

  lemma TurnTells(limits: Limits, answers: nat -> Answer, s: Submission, turn: nat, t: Talk)
    requires |t.results| > 0 ==> t.toolCalls <= limits.maxToolCalls
    ensures match TurnOf(limits, answers(turn), s, t)
      case Ends(inv, at) => EndsAt(limits, answers, s, turn, turn, t.nudged, |t.calls|, inv, at)
      case GoesOn(at) => answers(turn).Reply? && !HandsIn(answers(turn)) && |at.calls| == |t.calls| + 1 && !(t.nudged && Silent(answers(turn)))
                         && at.nudged == (t.nudged || Silent(answers(turn))) && (|at.results| > 0 ==> at.toolCalls <= limits.maxToolCalls)
  {
    hide HandsIn, Total, ChargeAll;
    HandsInIsFinal(answers(turn));
    if answers(turn).Reply? { RunsWithin(limits, t.toolCalls, t.results, answers(turn).toolCalls); }
  }

  lemma {:induction false} RunsWithin(limits: Limits, toolCalls: nat, results: seq<string>, calls: seq<ToolCall>)
    requires |results| > 0 ==> toolCalls <= limits.maxToolCalls
    ensures var (all, spent) := ChargeAll(limits, toolCalls, results, calls);
      && (|all| > 0 ==> toolCalls + |all| - |results| <= limits.maxToolCalls)
      && (spent ==> toolCalls + |all| - |results| >= limits.maxToolCalls)
    decreases |calls|
  {
    if calls != [] {
      var (first, stop) := Charge(limits, toolCalls, results, calls[0]);
      if !stop { RunsWithin(limits, toolCalls + |first| - |results|, first, calls[1..]); }
    }
  }

  lemma EndsLater(limits: Limits, answers: nat -> Answer, s: Submission, turn: nat, k: nat, nudged: bool, before: nat, inv: Investigation, end: Talk)
    requires answers(turn).Reply? && !HandsIn(answers(turn)) && !(nudged && Silent(answers(turn)))
    requires EndsAt(limits, answers, s, turn + 1, k, nudged || Silent(answers(turn)), before + 1, inv, end)
    ensures EndsAt(limits, answers, s, turn, k, nudged, before, inv, end)
  {
    hide HandsIn, Total;
  }

  lemma NoTurn(limits: Limits, answers: nat -> Answer, s: Submission, turn: nat, t: Talk)
    ensures var result := Converse(limits, answers, s, turn, 0, t);
      result == (Abstained(t.results, NoReport, t.modelCalls), t) && Stops(limits, answers, s, turn, 0, t, result.0, result.1)
  {
    hide EndsAt, HandsIn;
  }

  lemma OneTurn(limits: Limits, answers: nat -> Answer, s: Submission, turn: nat, left: nat, t: Talk)
    requires left > 0
    ensures Converse(limits, answers, s, turn, left, t) == match TurnOf(limits, answers(turn), s, t)
      case Ends(inv, at) => (inv, at)
      case GoesOn(at) => Converse(limits, answers, s, turn + 1, left - 1, at)
  {
    hide TurnOf;
  }

  /** Some turn gave the reason, or the turns ran out. */
  ghost predicate Stops(limits: Limits, answers: nat -> Answer, s: Submission, turn: nat, left: nat, t: Talk, inv: Investigation, end: Talk) {
    || (inv.stop == NoReport && Talked(answers, turn, turn + left, t.nudged) && |end.calls| == |t.calls| + left)
    || exists k: nat :: k < turn + left && EndsAt(limits, answers, s, turn, k, t.nudged, |t.calls|, inv, end)
  }

  lemma StopsNow(limits: Limits, answers: nat -> Answer, s: Submission, turn: nat, left: nat, t: Talk, inv: Investigation, end: Talk, k: nat)
    requires k < turn + left && EndsAt(limits, answers, s, turn, k, t.nudged, |t.calls|, inv, end)
    ensures Stops(limits, answers, s, turn, left, t, inv, end)
  {
    hide EndsAt, Talked;
  }

  lemma StopsLater(limits: Limits, answers: nat -> Answer, s: Submission, turn: nat, left: nat, t: Talk, at: Talk, inv: Investigation, end: Talk)
    requires left > 0 && Stops(limits, answers, s, turn + 1, left - 1, at, inv, end)
    requires answers(turn).Reply? && !HandsIn(answers(turn)) && |at.calls| == |t.calls| + 1
    requires !(t.nudged && Silent(answers(turn))) && at.nudged == (t.nudged || Silent(answers(turn)))
    ensures Stops(limits, answers, s, turn, left, t, inv, end)
  {
    hide HandsIn, Total, EndsAt;
    var next := turn + 1;
    if k: nat :| k < turn + left && EndsAt(limits, answers, s, next, k, at.nudged, |at.calls|, inv, end) {
      EndsLater(limits, answers, s, turn, k, t.nudged, |t.calls|, inv, end);
      StopsNow(limits, answers, s, turn, left, t, inv, end, k);
    }
  }

  /** An investigation stops for the reason it gives, at the first answer that gives one: every reply before was charged and
      did not hand in the report, and it takes two that ask for nothing to give up on one. */
  lemma {:induction false} StopTells(limits: Limits, answers: nat -> Answer, s: Submission, turn: nat, left: nat, t: Talk)
    requires |t.results| > 0 ==> t.toolCalls <= limits.maxToolCalls
    ensures var result := Converse(limits, answers, s, turn, left, t); Stops(limits, answers, s, turn, left, t, result.0, result.1)
    decreases left
  {
    hide HandsIn, Total, TurnOf, EndsAt, Stops, Silent, Converse;
    if left == 0 {
      NoTurn(limits, answers, s, turn, t);
    } else {
      OneTurn(limits, answers, s, turn, left, t);
      TurnTells(limits, answers, s, turn, t);
      var step, result := TurnOf(limits, answers(turn), s, t), Converse(limits, answers, s, turn, left, t);
      if step.Ends? {
        StopsNow(limits, answers, s, turn, left, t, step.inv, step.at, turn);
      } else {
        StopTells(limits, answers, s, turn + 1, left - 1, step.at);
        StopsLater(limits, answers, s, turn, left, t, step.at, result.0, result.1);
      }
    }
  }

  // ---- what is reported ------------------------------------------------------------------------

  lemma {:induction false} KeptExactly(cited: seq<Option<string>>, ids: seq<string>, id: string)
    ensures id in Kept(cited, ids) <==> Some(id) in cited && id in ids
  {
    if cited != [] {
      KeptExactly(cited[..|cited| - 1], ids, id);
      assert cited == cited[..|cited| - 1] + [cited[|cited| - 1]];
    }
  }

  ghost predicate Reports(inv: Investigation, s: Submission) {
    && (inv.stop == Reported || inv.stop == MalformedReport ==> forall id :: id in inv.evidence <==> Some(id) in s.cited && id in inv.results)
    && (inv.stop == Reported ==> (inv.proposes <==> s.sound && !s.abstains && s.proposes && exists id :: Some(id) in s.cited && id in inv.results))
    && (inv.stop != Reported ==> !inv.proposes)
    && (inv.stop != Reported && inv.stop != MalformedReport ==> inv.evidence == inv.results)
  }

  lemma FinalReports(results: seq<string>, s: Submission, modelCalls: nat)
    ensures Reports(Finalize(results, s, modelCalls), s)
  {
    forall id: string ensures id in Kept(s.cited, results) <==> Some(id) in s.cited && id in results { KeptExactly(s.cited, results, id); }
    var kept := Kept(s.cited, results);
    if kept != [] { assert kept[0] in kept; }
  }

  /** A report keeps exactly the citations of tool results, and proposes exactly when it is sound, has one left, does not
      abstain and has something to propose; whatever ends otherwise cites every tool result and proposes nothing. */
  lemma {:induction false} ReportTells(limits: Limits, answers: nat -> Answer, s: Submission, turn: nat, left: nat, t: Talk)
    ensures Reports(Converse(limits, answers, s, turn, left, t).0, s)
    decreases left
  {
    hide Reports, Finalize, ChargeAll, Total, Final, Converse, TurnOf;
    if left == 0 {
      NoTurn(limits, answers, s, turn, t);
      AbstainedReports(s);
    } else {
      OneTurn(limits, answers, s, turn, left, t);
      TurnReports(limits, answers(turn), s, t);
      var step := TurnOf(limits, answers(turn), s, t);
      if step.GoesOn? { ReportTells(limits, answers, s, turn + 1, left - 1, step.at); }
    }
  }

  lemma TurnReports(limits: Limits, answer: Answer, s: Submission, t: Talk)
    ensures var step := TurnOf(limits, answer, s, t); step.Ends? ==> Reports(step.inv, s)
  {
    hide Reports, Finalize, ChargeAll, Total, Final, Abstained;
    AbstainedReports(s);
    forall results: seq<string>, n: nat ensures Reports(Finalize(results, s, n), s) { FinalReports(results, s, n); }
  }

  lemma AbstainedReports(s: Submission)
    ensures forall results, stop, n | stop != Reported && stop != MalformedReport :: Reports(Abstained(results, stop, n), s)
  {}

  // ---- reviews ---------------------------------------------------------------------------------

  predicate Decides(answer: Answer) { answer.Reply? && exists c :: c in answer.toolCalls && c.name == SubmitReview }

  lemma DecidesExactly(answer: Answer)
    ensures Decides(answer) <==> answer.Reply? && Submits(answer.toolCalls, SubmitReview)
  {
    if answer.Reply? { SubmitsExactly(answer.toolCalls, SubmitReview); }
  }

  ghost predicate Heard(answers: nat -> Answer, turn: nat, k: nat, nudged: bool) {
    && (forall j: nat | turn <= j < k :: answers(j).Reply? && !Decides(answers(j)))
    && (forall i: nat, j: nat | turn <= i < j < k :: !(Silent(answers(i)) && Silent(answers(j))))
    && (nudged ==> forall j: nat | turn <= j < k :: !Silent(answers(j)))
  }

  predicate Readable(calls: seq<ToolCall>, id: string) { id != "" && exists c :: c in calls && c.id == id && c.name == ReadRepoFile }

  lemma ReadableNext(calls: seq<ToolCall>, id: string)
    requires calls != []
    ensures Readable(calls, id) <==> (id != "" && id == calls[0].id && calls[0].name == ReadRepoFile) || Readable(calls[1..], id)
  {
    assert calls == [calls[0]] + calls[1..];
  }

  /** The review agent's calls: only its read-only tool gives results, none of an id used before; every result is charged to
      the review and to the case alike, and one of the two allowances is spent when the calls are broken off. */
  lemma {:induction false} ReviewedExactly(own: Limits, shared: Limits, t: Sitting, calls: seq<ToolCall>)
    ensures var (after, spent) := ChargeReviewAll(own, shared, t, calls);
      && t.results <= after.results && t.seen <= after.seen
      && after.own - t.own == after.shared - t.shared == |after.results| - |t.results|
      && (forall id | id in after.results[|t.results|..] :: Readable(calls, id) && id !in t.seen && id in after.seen)
      && (!spent ==> forall id | Readable(calls, id) :: id in after.seen)
      && (spent ==> after.own >= own.maxToolCalls || after.shared >= shared.maxToolCalls)
      && after.calls == t.calls && after.charged == t.charged && after.modelCalls == t.modelCalls && after.nudged == t.nudged
    decreases |calls|
  {
    if calls != [] {
      var (next, stop) := ChargeReview(own, shared, t, calls[0]);
      forall id: string
        ensures Readable(calls, id) <==> (id != "" && id == calls[0].id && calls[0].name == ReadRepoFile) || Readable(calls[1..], id)
      {
        ReadableNext(calls, id);
      }
      if !stop {
        ReviewedExactly(own, shared, next, calls[1..]);
        var (after, spent) := ChargeReviewAll(own, shared, next, calls[1..]);
        forall id | id in after.results[|t.results|..] ensures Readable(calls, id) && id !in t.seen && id in after.seen {
          if id !in after.results[|next.results|..] {
            assert after.results[..|next.results|] == next.results;
            assert after.results[|t.results|..] == next.results[|t.results|..] + after.results[|next.results|..];
          }
        }
      }
    }
  }

  /** Turn `k` decided; `before` replies were charged when `turn` began. */
  ghost predicate DecidedAt(own: Limits, shared: Limits, answers: nat -> Answer, submitted: Option<Verdict>, turn: nat, k: nat, nudged: bool, before: nat, review: Review, end: Sitting) {
    var charged := |end.calls| - before;
    && turn <= k && Heard(answers, turn, k, nudged) && (charged == k - turn || (charged == k - turn + 1 && answers(k).Reply?))
    && var spent := Total(end.calls) >= own.maxTokens || Total(end.charged) >= shared.maxTokens;
      if review.valid then Decides(answers(k)) && submitted == Some(review.verdict) && charged == k - turn + 1
      else
        && review.verdict == Reject
        && if charged == k - turn then spent || !answers(k).Reply?
           else if Decides(answers(k)) then submitted.None?
           else spent || (Silent(answers(k)) && (nudged || exists j: nat :: turn <= j < k && Silent(answers(j)))) || end.own >= own.maxToolCalls || end.shared >= shared.maxToolCalls
  }

  lemma HearingTells(own: Limits, shared: Limits, answers: nat -> Answer, submitted: Option<Verdict>, turn: nat, t: Sitting)
    ensures match HearingOf(own, shared, answers(turn), submitted, t)
      case Decided(review, at) => DecidedAt(own, shared, answers, submitted, turn, turn, t.nudged, |t.calls|, review, at)
      case Continues(at) => answers(turn).Reply? && !Decides(answers(turn)) && |at.calls| == |t.calls| + 1
                            && !(t.nudged && Silent(answers(turn))) && at.nudged == (t.nudged || Silent(answers(turn)))
  {
    hide Decides, Total, ChargeReviewAll, Submits;
    DecidesExactly(answers(turn));
    if answers(turn).Reply? {
      var tokens := answers(turn).tokens;
      ReviewedExactly(own, shared, t.(calls := t.calls + [tokens], charged := t.charged + [tokens], modelCalls := t.modelCalls + 1), answers(turn).toolCalls);
    }
  }

  lemma DecidedLater(own: Limits, shared: Limits, answers: nat -> Answer, submitted: Option<Verdict>, turn: nat, k: nat, nudged: bool, before: nat, review: Review, end: Sitting)
    requires answers(turn).Reply? && !Decides(answers(turn)) && !(nudged && Silent(answers(turn)))
    requires DecidedAt(own, shared, answers, submitted, turn + 1, k, nudged || Silent(answers(turn)), before + 1, review, end)
    ensures DecidedAt(own, shared, answers, submitted, turn, k, nudged, before, review, end)
  {
    hide Decides, Total;
  }

  lemma NoHearing(own: Limits, shared: Limits, answers: nat -> Answer, submitted: Option<Verdict>, turn: nat, t: Sitting)
    ensures var result := Deliberate(own, shared, answers, submitted, turn, 0, t);
      && Settles(own, shared, answers, submitted, turn, 0, t, result.0, result.1) && BeganBelow(own, shared, t, result.1)
  {
    hide DecidedAt, Decides, Total;
  }

  lemma OneHearing(own: Limits, shared: Limits, answers: nat -> Answer, submitted: Option<Verdict>, turn: nat, left: nat, t: Sitting)
    requires left > 0
    ensures Deliberate(own, shared, answers, submitted, turn, left, t) == match HearingOf(own, shared, answers(turn), submitted, t)
      case Decided(review, at) => (review, at)
      case Continues(at) => Deliberate(own, shared, answers, submitted, turn + 1, left - 1, at)
  {
    hide HearingOf;
  }

  /** Some turn decided, or the turns ran out. */
  ghost predicate Settles(own: Limits, shared: Limits, answers: nat -> Answer, submitted: Option<Verdict>, turn: nat, left: nat, t: Sitting, review: Review, end: Sitting) {
    || (!review.valid && review.verdict == Reject && Heard(answers, turn, turn + left, t.nudged) && |end.calls| == |t.calls| + left)
    || exists k: nat :: k < turn + left && DecidedAt(own, shared, answers, submitted, turn, k, t.nudged, |t.calls|, review, end)
  }

  lemma SettlesNow(own: Limits, shared: Limits, answers: nat -> Answer, submitted: Option<Verdict>, turn: nat, left: nat, t: Sitting, review: Review, end: Sitting, k: nat)
    requires k < turn + left && DecidedAt(own, shared, answers, submitted, turn, k, t.nudged, |t.calls|, review, end)
    ensures Settles(own, shared, answers, submitted, turn, left, t, review, end)
  {
    hide DecidedAt, Heard;
  }

  lemma SettlesLater(own: Limits, shared: Limits, answers: nat -> Answer, submitted: Option<Verdict>, turn: nat, left: nat, t: Sitting, at: Sitting, review: Review, end: Sitting)
    requires left > 0 && Settles(own, shared, answers, submitted, turn + 1, left - 1, at, review, end)
    requires answers(turn).Reply? && !Decides(answers(turn)) && |at.calls| == |t.calls| + 1
    requires !(t.nudged && Silent(answers(turn))) && at.nudged == (t.nudged || Silent(answers(turn)))
    ensures Settles(own, shared, answers, submitted, turn, left, t, review, end)
  {
    hide Decides, Total, DecidedAt;
    var next := turn + 1;
    if k: nat :| k < turn + left && DecidedAt(own, shared, answers, submitted, next, k, at.nudged, |at.calls|, review, end) {
      DecidedLater(own, shared, answers, submitted, turn, k, t.nudged, |t.calls|, review, end);
      SettlesNow(own, shared, answers, submitted, turn, left, t, review, end, k);
    }
  }

  /** A review passes on the submitted verdict exactly when the first reply that submits one came before the allowances
      ended, and rejects otherwise. */
  lemma {:induction false} VerdictTells(own: Limits, shared: Limits, answers: nat -> Answer, submitted: Option<Verdict>, turn: nat, left: nat, t: Sitting)
    ensures var result := Deliberate(own, shared, answers, submitted, turn, left, t);
      Settles(own, shared, answers, submitted, turn, left, t, result.0, result.1)
    decreases left
  {
    hide Decides, Total, HearingOf, DecidedAt, Settles, Silent, Deliberate;
    if left == 0 {
      NoHearing(own, shared, answers, submitted, turn, t);
    } else {
      OneHearing(own, shared, answers, submitted, turn, left, t);
      HearingTells(own, shared, answers, submitted, turn, t);
      var step, result := HearingOf(own, shared, answers(turn), submitted, t), Deliberate(own, shared, answers, submitted, turn, left, t);
      if step.Decided? {
        SettlesNow(own, shared, answers, submitted, turn, left, t, step.review, step.at, turn);
      } else {
        VerdictTells(own, shared, answers, submitted, turn + 1, left - 1, step.at);
        SettlesLater(own, shared, answers, submitted, turn, left, t, step.at, result.0, result.1);
      }
    }
  }

  /** Every model call of a review began below its own token cap and below the case's. */
  ghost predicate BeganBelow(own: Limits, shared: Limits, t: Sitting, end: Sitting) {
    && t.calls <= end.calls && t.charged <= end.charged && |end.calls| - |t.calls| == |end.charged| - |t.charged|
    && (forall m | |t.calls| <= m < |end.calls| :: Total(end.calls[..m]) < own.maxTokens)
    && (forall m | |t.charged| <= m < |end.charged| :: Total(end.charged[..m]) < shared.maxTokens)
  }

  lemma HearingBeginsBelow(own: Limits, shared: Limits, answer: Answer, submitted: Option<Verdict>, t: Sitting)
    ensures BeganBelow(own, shared, t, HearingOf(own, shared, answer, submitted, t).at)
  {
    hide Total, ChargeReviewAll, Submits;
    if answer.Reply? {
      var charged := t.(calls := t.calls + [answer.tokens], charged := t.charged + [answer.tokens], modelCalls := t.modelCalls + 1);
      ReviewedExactly(own, shared, charged, answer.toolCalls);
      assert charged.calls[..|t.calls|] == t.calls && charged.charged[..|t.charged|] == t.charged;
    }
    assert t.calls <= t.calls && t.charged <= t.charged;
  }

  lemma BelowTwice(own: Limits, shared: Limits, t: Sitting, mid: Sitting, end: Sitting)
    requires BeganBelow(own, shared, t, mid) && BeganBelow(own, shared, mid, end)
    ensures BeganBelow(own, shared, t, end)
  {
    hide Total;
    forall m | |t.calls| <= m < |mid.calls| ensures end.calls[..m] == mid.calls[..m] {}
    forall m | |t.charged| <= m < |mid.charged| ensures end.charged[..m] == mid.charged[..m] {}
  }

  lemma {:induction false} ReviewBeginsBelow(own: Limits, shared: Limits, answers: nat -> Answer, submitted: Option<Verdict>, turn: nat, left: nat, t: Sitting)
    ensures BeganBelow(own, shared, t, Deliberate(own, shared, answers, submitted, turn, left, t).1)
    decreases left
  {
    hide Total, HearingOf, Deliberate, BeganBelow;
    if left == 0 {
      NoHearing(own, shared, answers, submitted, turn, t);
    } else {
      OneHearing(own, shared, answers, submitted, turn, left, t);
      HearingBeginsBelow(own, shared, answers(turn), submitted, t);
      var step := HearingOf(own, shared, answers(turn), submitted, t);
      if step.Continues? {
        ReviewBeginsBelow(own, shared, answers, submitted, turn + 1, left - 1, step.at);
        BelowTwice(own, shared, t, step.at, Deliberate(own, shared, answers, submitted, turn, left, t).1);
      }
    }
  }
}
