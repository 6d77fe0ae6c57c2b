/** The investigator's loop and the review agent's: whatever the model says, they end, stay within the case's allowance,
    cite only what tools returned, and fail closed. */
module Agents {
  import opened Wrappers
  import opened Budget

  datatype ToolCall = ToolCall(id: string, name: ToolName, known: bool)

  datatype ToolName = SubmitReport | SubmitReview | ReadRepoFile | OtherTool(name: string)

  /** What one model call comes back with: no tokens left, an error, or a reply that used some tokens. */
  datatype Answer = NoTokens | Unavailable | Reply(tokens: nat, toolCalls: seq<ToolCall>, plain: bool)

  /** What the model submits in the end; `sound` when every field is as the contract wants it. */
  datatype Submission = Submission(cited: seq<Option<string>>, sound: bool, abstains: bool, proposes: bool)

  datatype Stop = TokensSpent | ToolCallsSpent | ModelUnavailable | NoReport | MalformedReport | Reported

  datatype Investigation = Investigation(results: seq<string>, evidence: seq<string>, proposes: bool, stop: Stop, modelCalls: nat)

  /** No id is empty or repeated. */
  ghost predicate ProperIds(ids: seq<string>) {
    forall i | 0 <= i < |ids| :: ids[i] != "" && forall j | 0 <= j < i :: ids[j] != ids[i]
  }

  /** The citations that name a tool result, in order. */
  function Kept(cited: seq<Option<string>>, ids: seq<string>): (r: seq<string>)
    ensures forall id | id in r :: id in ids
  {
    if cited == [] then []
    else
      var last := cited[|cited| - 1];
      Kept(cited[..|cited| - 1], ids) + (if last.Some? && last.value in ids then [last.value] else [])
  }

  function Submits(calls: seq<ToolCall>, name: ToolName): bool { exists k :: 0 <= k < |calls| && calls[k].name == name }

  /** What comes of a submitted report: only a sound one, with evidence left and no abstention, can propose. */
  function Finalize(results: seq<string>, s: Submission, modelCalls: nat): Investigation {
    var kept := Kept(s.cited, results);
    if !s.sound then Investigation(results, kept, false, MalformedReport, modelCalls)
    else if s.abstains || kept == [] then Investigation(results, kept, false, Reported, modelCalls)
    else Investigation(results, kept, s.proposes, Reported, modelCalls)
  }

  const EXTRA_TURNS := 4

  const REVIEW_EXTRA_TURNS := 3

  /** A report without a proposal that cites every tool result. */
  function Abstained(results: seq<string>, stop: Stop, modelCalls: nat): Investigation {
    Investigation(results, results, false, stop, modelCalls)
  }

  /** Where an investigation stands: the case's counts, and the loop's own variables. */
  datatype Talk = Talk(toolCalls: nat, calls: seq<nat>, results: seq<string>, modelCalls: nat, nudged: bool)

  /** One tool call of a reply after those before it: rejected, charged and run, or the end of the allowance. */
  function Charge(limits: Limits, toolCalls: nat, results: seq<string>, call: ToolCall): (seq<string>, bool) {
    if call.id == "" || call.id in results then (results, false)
    else if toolCalls >= limits.maxToolCalls then (results, true)
    else (results + [call.id], false)
  }

  /** The tool results after a reply's calls, and whether the allowance ran out on the way. */
  function ChargeAll(limits: Limits, toolCalls: nat, results: seq<string>, calls: seq<ToolCall>): (r: (seq<string>, bool))
    ensures results <= r.0
    decreases |calls|
  {
    if calls == [] then (results, false)
    else
      var (first, spent) := Charge(limits, toolCalls, results, calls[0]);
      if spent then (first, true) else ChargeAll(limits, toolCalls + |first| - |results|, first, calls[1..])
  }

  function Final(answer: Answer): bool {
    answer.Reply? && (Submits(answer.toolCalls, SubmitReport) || (answer.toolCalls == [] && answer.plain))
  }

  /** What one turn comes to: the end of the investigation, or where it stands afterwards. */
  datatype Progress = Ends(inv: Investigation, at: Talk) | GoesOn(at: Talk)

  function TurnOf(limits: Limits, answer: Answer, submission: Submission, t: Talk): Progress {
    if Total(t.calls) >= limits.maxTokens then Ends(Abstained(t.results, TokensSpent, t.modelCalls), t)
    else
      match answer
      case NoTokens => Ends(Abstained(t.results, TokensSpent, t.modelCalls), t)
      case Unavailable => Ends(Abstained(t.results, ModelUnavailable, t.modelCalls), t)
      case Reply(tokens, toolCalls, _) =>
        var t := t.(calls := t.calls + [tokens], modelCalls := t.modelCalls + 1);
        if Final(answer) then Ends(Finalize(t.results, submission, t.modelCalls), t)
        else if Total(t.calls) >= limits.maxTokens then Ends(Abstained(t.results, TokensSpent, t.modelCalls), t)
        else if toolCalls == [] then
          if t.nudged then Ends(Abstained(t.results, NoReport, t.modelCalls), t) else GoesOn(t.(nudged := true))
        else
          var (results, spent) := ChargeAll(limits, t.toolCalls, t.results, toolCalls);
          var t := t.(results := results, toolCalls := t.toolCalls + |results| - |t.results|);
          if spent then Ends(Abstained(t.results, ToolCallsSpent, t.modelCalls), t) else GoesOn(t)
  }

  /** The rest of an investigation from one turn on, with the case's counts at its end. */
  function Converse(limits: Limits, answers: nat -> Answer, submission: Submission, turn: nat, left: nat, t: Talk): (Investigation, Talk)
    decreases left
  {
    if left == 0 then (Abstained(t.results, NoReport, t.modelCalls), t)
    else
      match TurnOf(limits, answers(turn), submission, t)
      case Ends(inv, at) => (inv, at)
      case GoesOn(at) => Converse(limits, answers, submission, turn + 1, left - 1, at)
  }

  function Turns(maxToolCalls: int, extra: nat): nat { if maxToolCalls + extra < 0 then 0 else maxToolCalls + extra }

  /** The tool calls of one reply: repeated or empty ids are rejected, the others are charged and run until the
      allowance is spent. */
  method RunTools(budget: InvestigationBudget, calls: seq<ToolCall>, results: seq<string>) returns (all: seq<string>, spent: bool)
    requires ProperIds(results)
    modifies budget`toolCalls
    ensures (all, spent) == ChargeAll(budget.limits, old(budget.toolCalls), results, calls)
    ensures ProperIds(all) && results <= all
    ensures budget.toolCalls == old(budget.toolCalls) + |all| - |results|
    ensures |all| > |results| ==> budget.toolCalls <= budget.limits.maxToolCalls
  {
    all, spent := results, false;
    assert calls[0..] == calls;
    for k := 0 to |calls|
      invariant ProperIds(all) && results <= all
      invariant budget.toolCalls == old(budget.toolCalls) + |all| - |results|
      invariant |all| > |results| ==> budget.toolCalls <= budget.limits.maxToolCalls
      invariant ChargeAll(budget.limits, old(budget.toolCalls), results, calls) == ChargeAll(budget.limits, budget.toolCalls, all, calls[k..])
    {
      assert calls[k..][0] == calls[k] && calls[k..][1..] == calls[k + 1..];
      if calls[k].id == "" || calls[k].id in all { continue; }
      var ok := budget.ConsumeToolCall();
      if !ok { return all, true; }
      all := all + [calls[k].id];
    }
    return all, false;
  }

  /** What every investigation that ends here is. */
  ghost predicate Safe(inv: Investigation, s: Submission) {
    && ProperIds(inv.results) && (forall id | id in inv.evidence :: id in inv.results)
    && (inv.proposes ==> inv.stop == Reported && inv.evidence != [] && s.sound && !s.abstains && s.proposes)
  }

  /** One turn: a model call below the token cap, and what its reply asks for. */
  method TakeTurn(budget: InvestigationBudget, answer: Answer, submission: Submission, results: seq<string>, modelCalls: nat, nudged: bool)
    returns (inv: Option<Investigation>, all: seq<string>, again: bool, ghost began: Option<nat>)
    requires ProperIds(results)
    modifies budget`toolCalls, budget`calls
    ensures |old(budget.calls)| <= |budget.calls|
    ensures var now := Talk(budget.toolCalls, budget.calls, all, modelCalls + |budget.calls| - |old(budget.calls)|, again);
      match TurnOf(budget.limits, answer, submission, Talk(old(budget.toolCalls), old(budget.calls), results, modelCalls, nudged))
      case Ends(ended, at) => inv == Some(ended) && now == at.(nudged := again)
      case GoesOn(at) => inv.None? && now == at
    ensures inv.None? ==> |budget.calls| == |old(budget.calls)| + 1 && began.Some?
    ensures inv.Some? ==> Safe(inv.value, submission) && inv.value.results == all
    ensures inv.Some? ==> modelCalls <= inv.value.modelCalls <= modelCalls + (if began.Some? then 1 else 0)
    ensures began.Some? ==> began.value < budget.limits.maxTokens
    ensures ProperIds(all) && results <= all && budget.toolCalls == old(budget.toolCalls) + |all| - |results|
    ensures |all| > |results| ==> budget.toolCalls <= budget.limits.maxToolCalls
  {
    hide ChargeAll, Finalize, Final, Total;
    all, again, began := results, nudged, None;
    if budget.TokensExhausted() { return Some(Abstained(results, TokensSpent, modelCalls)), all, again, began; }
    began := Some(Total(budget.calls));
    if answer.NoTokens? { return Some(Abstained(results, TokensSpent, modelCalls)), all, again, began; }
    if answer.Unavailable? { return Some(Abstained(results, ModelUnavailable, modelCalls)), all, again, began; }
    budget.AddCall(answer.tokens);
    if Final(answer) {
      FinalizeIsSafe(results, submission, modelCalls + 1);
      return Some(Finalize(results, submission, modelCalls + 1)), all, again, began;
    }
    if budget.TokensExhausted() { return Some(Abstained(results, TokensSpent, modelCalls + 1)), all, again, began; }
    if answer.toolCalls == [] {
      if nudged { return Some(Abstained(results, NoReport, modelCalls + 1)), all, again, began; }
      return None, all, true, began;
    }
    var spent;
    all, spent := RunTools(budget, answer.toolCalls, results);
    return if spent then Some(Abstained(all, ToolCallsSpent, modelCalls + 1)) else None, all, again, began;
  }

  /** The investigation. `answers` is what the n-th model call would bring, `submission` what the report says. Model
      calls are listed with the tokens used when each began. */
  method Investigate(budget: InvestigationBudget, answers: nat -> Answer, submission: Submission)
    returns (inv: Investigation, ghost began: seq<nat>)
    modifies budget`toolCalls, budget`calls
    ensures var start, turns := Talk(old(budget.toolCalls), old(budget.calls), [], 0, false), budget.limits.maxToolCalls + 4;
      var (result, end) := Converse(budget.limits, answers, submission, 0, if turns < 0 then 0 else turns, start);
      inv == result && budget.toolCalls == end.toolCalls && budget.calls == end.calls
    ensures Safe(inv, submission)
    ensures budget.toolCalls == old(budget.toolCalls) + |inv.results|
    ensures |inv.results| > 0 ==> budget.toolCalls <= budget.limits.maxToolCalls
    ensures forall k | 0 <= k < |began| :: began[k] < budget.limits.maxTokens
    ensures inv.modelCalls <= |began| && (|began| == 0 || |began| <= budget.limits.maxToolCalls + 4)
  {
    hide TurnOf, Total;
    ghost var start := Talk(budget.toolCalls, budget.calls, [], 0, false);
    var results: seq<string>, modelCalls, nudged := [], 0, false;
    var turns := Turns(budget.limits.maxToolCalls, EXTRA_TURNS);
    began := [];
    for turn := 0 to turns
      invariant ProperIds(results) && |began| == modelCalls == turn
      invariant budget.toolCalls == start.toolCalls + |results|
      invariant |results| > 0 ==> budget.toolCalls <= budget.limits.maxToolCalls
      invariant forall k | 0 <= k < |began| :: began[k] < budget.limits.maxTokens
      invariant Converse(budget.limits, answers, submission, 0, turns, start)
        == Converse(budget.limits, answers, submission, turn, turns - turn, Talk(budget.toolCalls, budget.calls, results, modelCalls, nudged))
    {
      var ended;
      ghost var first;
      ended, results, nudged, first := TakeTurn(budget, answers(turn), submission, results, modelCalls, nudged);
      if first.Some? { began := began + [first.value]; }
      if ended.Some? { return ended.value, began; }
      modelCalls := modelCalls + 1;
    }
    return Abstained(results, NoReport, modelCalls), began;
  }

  lemma FinalizeIsSafe(results: seq<string>, s: Submission, modelCalls: nat)
    ensures var inv := Finalize(results, s, modelCalls);
      && inv.results == results && inv.modelCalls == modelCalls && (forall id | id in inv.evidence :: id in results)
      && (inv.proposes ==> inv.stop == Reported && inv.evidence != [] && s.sound && !s.abstains && s.proposes)
  {}

  // ---- the review agent ------------------------------------------------------------------------

  datatype Verdict = Approve | Revise | Reject

  datatype Review = Review(verdict: Verdict, valid: bool, results: seq<string>, modelCalls: nat)

  /** A review that did not come to a verdict rejects. */
  function Failed(results: seq<string>, modelCalls: nat): Review { Review(Reject, false, results, modelCalls) }

  /** Where a review stands; `own` and `calls` are the view's counts, `shared` and `charged` the case's. */
  datatype Sitting = Sitting(
    own: nat, calls: seq<nat>, shared: nat, charged: seq<nat>, seen: set<string>, results: seq<string>, modelCalls: nat, nudged: bool)

  /** One tool call of a reply: an id counts as seen even when its tool is refused. */
  function ChargeReview(own: Limits, shared: Limits, t: Sitting, call: ToolCall): (Sitting, bool) {
    if call.id == "" || call.id in t.seen then (t, false)
    else
      var t := t.(seen := t.seen + {call.id});
      if call.name != ReadRepoFile then (t, false)
      else if t.own >= own.maxToolCalls || t.shared >= shared.maxToolCalls then (t, true)
      else (t.(own := t.own + 1, shared := t.shared + 1, results := t.results + [call.id]), false)
  }

  function ChargeReviewAll(own: Limits, shared: Limits, t: Sitting, calls: seq<ToolCall>): (Sitting, bool)
    decreases |calls|
  {
    if calls == [] then (t, false)
    else
      var (next, spent) := ChargeReview(own, shared, t, calls[0]);
      if spent then (next, true) else ChargeReviewAll(own, shared, next, calls[1..])
  }

  function ReviewTokensSpent(own: Limits, shared: Limits, t: Sitting): bool {
    Total(t.calls) >= own.maxTokens || Total(t.charged) >= shared.maxTokens
  }

  datatype Hearing = Decided(review: Review, at: Sitting) | Continues(at: Sitting)

  function HearingOf(own: Limits, shared: Limits, answer: Answer, submitted: Option<Verdict>, t: Sitting): Hearing {
    if ReviewTokensSpent(own, shared, t) || !answer.Reply? then Decided(Failed(t.results, t.modelCalls), t)
    else
      var t := t.(calls := t.calls + [answer.tokens], charged := t.charged + [answer.tokens], modelCalls := t.modelCalls + 1);
      if Submits(answer.toolCalls, SubmitReview) then
        Decided(if submitted.None? then Failed(t.results, t.modelCalls) else Review(submitted.value, true, t.results, t.modelCalls), t)
      else if ReviewTokensSpent(own, shared, t) || (answer.toolCalls == [] && t.nudged) then Decided(Failed(t.results, t.modelCalls), t)
      else if answer.toolCalls == [] then Continues(t.(nudged := true))
      else
        var (t, spent) := ChargeReviewAll(own, shared, t, answer.toolCalls);
        if spent then Decided(Failed(t.results, t.modelCalls), t) else Continues(t)
  }

  /** The rest of a review from one turn on. */
  function Deliberate(own: Limits, shared: Limits, answers: nat -> Answer, submitted: Option<Verdict>, turn: nat, left: nat, t: Sitting): (Review, Sitting)
    decreases left
  {
    if left == 0 then (Failed(t.results, t.modelCalls), t)
    else
      match HearingOf(own, shared, answers(turn), submitted, t)
      case Decided(review, at) => (review, at)
      case Continues(at) => Deliberate(own, shared, answers, submitted, turn + 1, left - 1, at)
  }

  /** The loop's variables as one value. */
  ghost function Now(view: BudgetView, seen: set<string>, results: seq<string>, modelCalls: nat, nudged: bool): Sitting
    reads view.own, view.parent
  {
    Sitting(view.own.toolCalls, view.own.calls, view.parent.toolCalls, view.parent.calls, seen, results, modelCalls, nudged)
  }

  /** The tool calls of one reply to the review agent, which has one read-only tool. */
  method RunReviewTools(view: BudgetView, calls: seq<ToolCall>, seen: set<string>, results: seq<string>, ghost modelCalls: nat, ghost nudged: bool)
    returns (used: set<string>, all: seq<string>, spent: bool)
    requires view.Valid() && ProperIds(results) && (forall id | id in results :: id in seen)
    modifies view.own`toolCalls, view.parent`toolCalls
    ensures (Now(view, used, all, modelCalls, nudged), spent)
      == ChargeReviewAll(view.own.limits, view.parent.limits, old(Now(view, seen, results, modelCalls, nudged)), calls)
    ensures ProperIds(all) && results <= all && (forall id | id in all :: id in used)
    ensures view.own.toolCalls - old(view.own.toolCalls) == |all| - |results|
    ensures view.parent.toolCalls - old(view.parent.toolCalls) == |all| - |results|
    ensures |all| > |results| ==> view.own.toolCalls <= view.own.limits.maxToolCalls && view.parent.toolCalls <= view.parent.limits.maxToolCalls
  {
    used, all, spent := seen, results, false;
    assert calls[0..] == calls;
    for k := 0 to |calls|
      invariant ProperIds(all) && results <= all && (forall id | id in all :: id in used)
      invariant view.own.toolCalls - old(view.own.toolCalls) == |all| - |results|
      invariant view.parent.toolCalls - old(view.parent.toolCalls) == |all| - |results|
      invariant |all| > |results| ==> view.own.toolCalls <= view.own.limits.maxToolCalls && view.parent.toolCalls <= view.parent.limits.maxToolCalls
      invariant ChargeReviewAll(view.own.limits, view.parent.limits, old(Now(view, seen, results, modelCalls, nudged)), calls)
        == ChargeReviewAll(view.own.limits, view.parent.limits, Now(view, used, all, modelCalls, nudged), calls[k..])
    {
      assert calls[k..][0] == calls[k] && calls[k..][1..] == calls[k + 1..];
      var call := calls[k];
      if call.id == "" || call.id in used { continue; }
      used := used + {call.id};
      if call.name != ReadRepoFile { continue; }
      var ok := view.ConsumeToolCall();
      if !ok { return used, all, true; }
      all := all + [call.id];
    }
    return used, all, false;
  }

  /** One turn of the review. */
  method TakeReviewTurn(view: BudgetView, answer: Answer, submitted: Option<Verdict>, seen: set<string>, results: seq<string>, modelCalls: nat, nudged: bool)
    returns (review: Option<Review>, used: set<string>, all: seq<string>, again: bool, ghost began: Option<nat>)
    requires view.Valid() && ProperIds(results) && (forall id | id in results :: id in seen)
    modifies view.own`toolCalls, view.own`calls, view.parent`toolCalls, view.parent`calls
    ensures |old(view.own.calls)| <= |view.own.calls|
    ensures var now := Now(view, used, all, modelCalls + |view.own.calls| - |old(view.own.calls)|, again);
      match HearingOf(view.own.limits, view.parent.limits, answer, submitted, old(Now(view, seen, results, modelCalls, nudged)))
      case Decided(decided, at) => review == Some(decided) && now == at
      case Continues(at) => review.None? && now == at
    ensures review.None? ==> |view.own.calls| == |old(view.own.calls)| + 1 && began.Some?
    ensures review.Some? ==> review.value.results == all && modelCalls <= review.value.modelCalls <= modelCalls + (if began.Some? then 1 else 0)
    ensures review.Some? && review.value.verdict != Reject ==> review.value.valid && submitted == Some(review.value.verdict)
    ensures began.Some? ==> began.value < view.parent.limits.maxTokens
    ensures ProperIds(all) && results <= all && (forall id | id in all :: id in used)
    ensures view.own.toolCalls - old(view.own.toolCalls) == view.parent.toolCalls - old(view.parent.toolCalls) == |all| - |results|
    ensures |all| > |results| ==> view.own.toolCalls <= view.own.limits.maxToolCalls && view.parent.toolCalls <= view.parent.limits.maxToolCalls
  {
    hide Total, ChargeReviewAll;
    used, all, again, began := seen, results, nudged, None;
    if view.TokensExhausted() { return Some(Failed(results, modelCalls)), used, all, again, began; }
    began := Some(Total(view.parent.calls));
    if !answer.Reply? { return Some(Failed(results, modelCalls)), used, all, again, began; }
    view.AddCall(answer.tokens);
    if Submits(answer.toolCalls, SubmitReview) {
      review := Some(if submitted.None? then Failed(results, modelCalls + 1) else Review(submitted.value, true, results, modelCalls + 1));
      return review, used, all, again, began;
    }
    if view.TokensExhausted() { return Some(Failed(results, modelCalls + 1)), used, all, again, began; }
    if answer.toolCalls == [] {
      if nudged { return Some(Failed(results, modelCalls + 1)), used, all, again, began; }
      return None, used, all, true, began;
    }
    var spent;
    used, all, spent := RunReviewTools(view, answer.toolCalls, seen, results, modelCalls + 1, nudged);
    return if spent then Some(Failed(all, modelCalls + 1)) else None, used, all, again, began;
  }

  /** The review. `submitted` is the verdict the model gives when it gives one, `None` when it is not a verdict. */
  method ReviewDiff(view: BudgetView, answers: nat -> Answer, submitted: Option<Verdict>)
    returns (review: Review, ghost began: seq<nat>)
    requires view.Valid()
    modifies view.own`toolCalls, view.own`calls, view.parent`toolCalls, view.parent`calls
    ensures var turns := view.own.limits.maxToolCalls + 3;
      var (result, end) := Deliberate(view.own.limits, view.parent.limits, answers, submitted, 0,
        if turns < 0 then 0 else turns, old(Now(view, {}, [], 0, false)));
      && review == result
      && view.own.toolCalls == end.own && view.own.calls == end.calls && view.parent.toolCalls == end.shared && view.parent.calls == end.charged
    ensures ProperIds(review.results)
    ensures view.own.toolCalls - old(view.own.toolCalls) == view.parent.toolCalls - old(view.parent.toolCalls) == |review.results|
    ensures |review.results| > 0 ==> view.parent.toolCalls <= view.parent.limits.maxToolCalls && view.own.toolCalls <= view.own.limits.maxToolCalls
    ensures forall k | 0 <= k < |began| :: began[k] < view.parent.limits.maxTokens
    ensures review.modelCalls <= |began| && (|began| == 0 || |began| <= view.own.limits.maxToolCalls + 3)
    ensures review.verdict != Reject ==> review.valid && submitted == Some(review.verdict)
  {
    hide Total, HearingOf;
    ghost var own, shared, start := view.own.limits, view.parent.limits, Now(view, {}, [], 0, false);
    var results: seq<string>, seen: set<string>, modelCalls, nudged := [], {}, 0, false;
    var turns := Turns(view.own.limits.maxToolCalls, REVIEW_EXTRA_TURNS);
    began := [];
    for turn := 0 to turns
      invariant ProperIds(results) && (forall id | id in results :: id in seen) && |began| == modelCalls == turn
      invariant view.own.toolCalls - start.own == view.parent.toolCalls - start.shared == |results|
      invariant |results| > 0 ==> view.parent.toolCalls <= view.parent.limits.maxToolCalls && view.own.toolCalls <= view.own.limits.maxToolCalls
      invariant forall k | 0 <= k < |began| :: began[k] < view.parent.limits.maxTokens
      invariant Deliberate(own, shared, answers, submitted, 0, turns, start)
        == Deliberate(own, shared, answers, submitted, turn, turns - turn, Now(view, seen, results, modelCalls, nudged))
    {
      var decided;
      ghost var first;
      decided, seen, results, nudged, first := TakeReviewTurn(view, answers(turn), submitted, seen, results, modelCalls, nudged);
      if first.Some? { began := began + [first.value]; }
      if decided.Some? { return decided.value, began; }
      modelCalls := modelCalls + 1;
    }
    return Failed(results, modelCalls), began;
  }
}
