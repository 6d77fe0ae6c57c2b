/** One allowance for a whole case, drawn on by the investigator directly and by sub-agents through views. */
module Budget {
  datatype Limits = Limits(maxToolCalls: int, maxTokens: int, maxReinvestigations: int)

  function Total(calls: seq<nat>): nat {
    if calls == [] then 0 else Total(calls[..|calls| - 1]) + calls[|calls| - 1]
  }

  /** The case's allowance; `calls` are the tokens of each model call. */
  class InvestigationBudget {
    const limits: Limits
    var toolCalls: nat
    var reinvestigations: nat
    var calls: seq<nat>

    constructor (limits: Limits)
      ensures this.limits == limits && toolCalls == 0 && reinvestigations == 0 && calls == []
    {
      this.limits, toolCalls, reinvestigations, calls := limits, 0, 0, [];
    }

    predicate TokensExhausted()
      reads this
    {
      Total(calls) >= limits.maxTokens
    }

    /** One tool execution, refused once the allowance is spent: the count never passes the limit. */
    method ConsumeToolCall() returns (ok: bool)
      modifies this`toolCalls
      ensures ok == (old(toolCalls) < limits.maxToolCalls)
      ensures toolCalls == old(toolCalls) + if ok then 1 else 0
      ensures old(toolCalls) <= limits.maxToolCalls ==> toolCalls <= limits.maxToolCalls
      ensures forall s: Sharing | s.parent == old(toolCalls) ::
        Happen(limits.maxToolCalls, s, Direct) == s.(parent := toolCalls, direct := s.direct + if ok then 1 else 0)
    {
      if toolCalls >= limits.maxToolCalls { return false; }
      toolCalls := toolCalls + 1;
      return true;
    }

    method BeginReinvestigation() returns (ok: bool)
      modifies this`reinvestigations
      ensures ok == (old(reinvestigations) < limits.maxReinvestigations)
      ensures reinvestigations == old(reinvestigations) + if ok then 1 else 0
    {
      if reinvestigations >= limits.maxReinvestigations { return false; }
      reinvestigations := reinvestigations + 1;
      return true;
    }

    method AddCall(tokens: nat)
      modifies this`calls
      ensures calls == old(calls) + [tokens]
    {
      calls := calls + [tokens];
    }
  }

  /** A sub-agent's small allowance: every tool call and model call is charged to the case as well. */
  class BudgetView {
    const own: InvestigationBudget
    const parent: InvestigationBudget

    ghost predicate Valid() { own != parent }

    constructor (limits: Limits, parent: InvestigationBudget)
      ensures Valid() && fresh(own) && this.parent == parent && own.limits == limits
      ensures own.toolCalls == 0 && own.calls == []
    {
      own := new InvestigationBudget(limits);
      this.parent := parent;
    }

    predicate TokensExhausted()
      reads own, parent
    {
      own.TokensExhausted() || parent.TokensExhausted()
    }

    /** Allowed only when both allow it, and then counted in both; refused, neither changes. */
    method ConsumeToolCall() returns (ok: bool)
      requires Valid()
      modifies own`toolCalls, parent`toolCalls
      ensures ok == (old(own.toolCalls) < own.limits.maxToolCalls && old(parent.toolCalls) < parent.limits.maxToolCalls)
      ensures own.toolCalls == old(own.toolCalls) + if ok then 1 else 0
      ensures parent.toolCalls == old(parent.toolCalls) + if ok then 1 else 0
      ensures forall s: Sharing, v: nat | Stands(s, v, old(parent.toolCalls), View(own.limits.maxToolCalls, old(own.toolCalls), Idle)) ::
        Run(parent.limits.maxToolCalls, s, [Checks(v), Asks(v), Counts(v)])
          == s.(parent := parent.toolCalls, views := s.views[v := View(own.limits.maxToolCalls, own.toolCalls, Idle)])
    {
      forall s: Sharing, v: nat | Stands(s, v, parent.toolCalls, View(own.limits.maxToolCalls, own.toolCalls, Idle))
        ensures Run(parent.limits.maxToolCalls, s, [Checks(v), Asks(v), Counts(v)]) == Called(parent.limits.maxToolCalls, s, v)
      {
        CalledIsRun(parent.limits.maxToolCalls, s, v);
      }
      if own.toolCalls >= own.limits.maxToolCalls { return false; }
      var granted := parent.ConsumeToolCall();
      if !granted { return false; }
      own.toolCalls := own.toolCalls + 1;
      return true;
    }

    method AddCall(tokens: nat)
      requires Valid()
      modifies own`calls, parent`calls
      ensures own.calls == old(own.calls) + [tokens] && parent.calls == old(parent.calls) + [tokens]
    {
      own.AddCall(tokens);
      parent.AddCall(tokens);
    }
  }

  // ---- every agent of the case at once ---------------------------------------------------------

  /** Where one view's tool call is: its own lock is held from its check until its own count is raised. */
  datatype Phase = Idle | Checked | Granted

  /** The case's count, the calls the investigators made directly, and each view's limit, count and phase. */
  datatype Sharing = Sharing(parent: nat, direct: nat, views: seq<View>)

  datatype View = View(limit: int, count: nat, phase: Phase)

  /** What may happen next; every case touches one count. */
  datatype Event = Direct | Opens(limit: int) | Checks(view: nat) | Asks(view: nat) | Counts(view: nat)

  function Happen(limit: int, s: Sharing, e: Event): Sharing {
    match e
    case Direct => if s.parent < limit then s.(parent := s.parent + 1, direct := s.direct + 1) else s
    case Opens(own) => s.(views := s.views + [View(own, 0, Idle)])
    case Checks(v) =>
      if v < |s.views| && s.views[v].phase == Idle && s.views[v].count < s.views[v].limit then s.(views := s.views[v := s.views[v].(phase := Checked)])
      else s
    case Asks(v) =>
      if v >= |s.views| || s.views[v].phase != Checked then s
      else if s.parent < limit then s.(parent := s.parent + 1, views := s.views[v := s.views[v].(phase := Granted)])
      else s.(views := s.views[v := s.views[v].(phase := Idle)])
    case Counts(v) =>
      if v < |s.views| && s.views[v].phase == Granted then s.(views := s.views[v := s.views[v].(count := s.views[v].count + 1, phase := Idle)])
      else s
  }

  const START := Sharing(0, 0, [])

  function Run(limit: int, s: Sharing, events: seq<Event>): Sharing {
    if events == [] then s else Happen(limit, Run(limit, s, events[..|events| - 1]), events[|events| - 1])
  }

  function After(limit: int, events: seq<Event>): Sharing { Run(limit, START, events) }

  /** The case's count, and the view with this number, are these. */
  predicate Stands(s: Sharing, v: nat, parent: nat, view: View) { s.parent == parent && v < |s.views| && s.views[v] == view }

  /** A view's call when nobody comes in between. */
  function Called(limit: int, s: Sharing, v: nat): Sharing
    requires v < |s.views|
  {
    if s.views[v].count < s.views[v].limit && s.parent < limit then
      s.(parent := s.parent + 1, views := s.views[v := s.views[v].(count := s.views[v].count + 1)])
    else s
  }

  /** Its three steps, one after the other, are that call. */
  lemma CalledIsRun(limit: int, s: Sharing, v: nat)
    requires v < |s.views| && s.views[v].phase == Idle
    ensures Run(limit, s, [Checks(v), Asks(v), Counts(v)]) == Called(limit, s, v)
  {
    var events := [Checks(v), Asks(v), Counts(v)];
    assert events[..2] == [Checks(v), Asks(v)] && events[..2][..1] == [Checks(v)] && [Checks(v)][..0] == [];
    assert Run(limit, s, [Checks(v)]) == Happen(limit, s, Checks(v));
    assert Run(limit, s, [Checks(v), Asks(v)]) == Happen(limit, Happen(limit, s, Checks(v)), Asks(v));
  }

  /** Calls made through a view, one of them perhaps not counted in the view yet. */
  function Through(v: View): nat { v.count + if v.phase == Granted then 1 else 0 }

  function Sum(views: seq<View>): nat { if views == [] then 0 else Sum(views[..|views| - 1]) + Through(views[|views| - 1]) }

  lemma {:induction false} SumUpdate(views: seq<View>, i: nat, v: View)
    requires i < |views|
    ensures Sum(views[i := v]) + Through(views[i]) == Sum(views) + Through(v)
  {
    var n := |views| - 1;
    if i < n {
      SumUpdate(views[..n], i, v);
      assert views[i := v][..n] == views[..n][i := v];
    } else {
      assert views[i := v][..n] == views[..n];
    }
  }

  ghost predicate Shared(limit: int, s: Sharing) {
    && s.parent == s.direct + Sum(s.views) && (s.parent > 0 ==> s.parent <= limit)
    && forall i | 0 <= i < |s.views| ::
      && (s.views[i].count > 0 ==> s.views[i].count <= s.views[i].limit)
      && (s.views[i].phase != Idle ==> s.views[i].count < s.views[i].limit)
  }

  lemma ViewKeeps(limit: int, s: Sharing, i: nat, v: View, parent: nat)
    requires Shared(limit, s) && i < |s.views|
    requires parent == s.parent + Through(v) - Through(s.views[i]) && (parent > 0 ==> parent <= limit)
    requires (v.count > 0 ==> v.count <= v.limit) && (v.phase != Idle ==> v.count < v.limit)
    ensures Shared(limit, s.(parent := parent, views := s.views[i := v]))
  {
    SumUpdate(s.views, i, v);
  }

  lemma HappenKeeps(limit: int, s: Sharing, e: Event)
    requires Shared(limit, s)
    ensures Shared(limit, Happen(limit, s, e))
  {
    hide Sum;
    match e
    case Direct =>
    case Opens(own) => NewViewKeeps(limit, s, own);
    case Checks(v) =>
      if v < |s.views| && s.views[v].phase == Idle && s.views[v].count < s.views[v].limit {
        ViewKeeps(limit, s, v, s.views[v].(phase := Checked), s.parent);
      }
    case Asks(v) =>
      if v < |s.views| && s.views[v].phase == Checked {
        ViewKeeps(limit, s, v, s.views[v].(phase := Idle), s.parent);
        if s.parent < limit { ViewKeeps(limit, s, v, s.views[v].(phase := Granted), s.parent + 1); }
      }
    case Counts(v) =>
      if v < |s.views| && s.views[v].phase == Granted {
        ViewKeeps(limit, s, v, s.views[v].(count := s.views[v].count + 1, phase := Idle), s.parent);
      }
  }

  lemma NewViewKeeps(limit: int, s: Sharing, own: int)
    requires Shared(limit, s)
    ensures Shared(limit, Happen(limit, s, Opens(own)))
  {
    assert (s.views + [View(own, 0, Idle)])[..|s.views|] == s.views;
  }

  /** However the agents of a case interleave: the case's count is the direct calls plus every view's, never above the
      case's cap, and no view is above its own. */
  lemma {:induction false} OneBudget(limit: int, events: seq<Event>)
    ensures Shared(limit, After(limit, events))
  {
    if events != [] {
      OneBudget(limit, events[..|events| - 1]);
      HappenKeeps(limit, After(limit, events[..|events| - 1]), events[|events| - 1]);
    }
  }
}
