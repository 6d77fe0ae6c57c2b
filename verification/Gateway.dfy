/** The gateway object itself: one thread's path through `Spend`, with its retries. */
module Gateway {
  import opened Spend
  import opened Wrappers

  datatype RetryConfig = RetryConfig(maxRetries: nat, base: real, cap: real)

  /** What one request to the provider came back with. `retryable` is a 429 or 529 status. */
  datatype Answer = Response(cost: real) | Failure(retryable: bool, retryAfter: real, jitter: real)

  datatype Sent =
    | Delivered(attempt: nat, waited: real)   // the response to request number `attempt`, counted from 0
    | Raised(attempt: nat)                    // a failure that is not retried
    | Exhausted                               // every allowed request came back retryable

  function Pow2(n: nat): real { if n == 0 then 1.0 else 2.0 * Pow2(n - 1) }

  function Backoff(cfg: RetryConfig, attempt: nat): real {
    var grown := cfg.base * Pow2(attempt);
    if grown < cfg.cap then grown else cfg.cap
  }

  function Delay(cfg: RetryConfig, attempt: nat, a: Answer): real
    requires a.Failure?
  {
    Max(Backoff(cfg, attempt), a.retryAfter) + a.jitter
  }

  /** The wait starts at the base and doubles, up to the cap. */
  lemma {:induction false} BackoffDoubles(cfg: RetryConfig, attempt: nat)
    requires cfg.cap >= 0.0
    ensures Backoff(cfg, 0) == Least(cfg.base, cfg.cap)
    ensures Backoff(cfg, attempt + 1) == Least(2.0 * Backoff(cfg, attempt), cfg.cap)
  {
    assert cfg.base * Pow2(attempt + 1) == 2.0 * (cfg.base * Pow2(attempt));
    assert Pow2(0) == 1.0;
  }

  function Least(x: real, y: real): real { if x < y then x else y }

  /** It is never shorter than the provider asked for, and no longer than the longer of the two with its jitter. */
  lemma DelayIsLonger(cfg: RetryConfig, attempt: nat, a: Answer)
    requires a.Failure?
    ensures Delay(cfg, attempt, a) - a.jitter >= a.retryAfter && Delay(cfg, attempt, a) - a.jitter >= Backoff(cfg, attempt)
    ensures Delay(cfg, attempt, a) - a.jitter == a.retryAfter || Delay(cfg, attempt, a) - a.jitter == Backoff(cfg, attempt)
  {}

  ghost predicate AllRetryable(answers: nat -> Answer, n: nat) {
    forall i: nat | i < n :: answers(i).Failure? && answers(i).retryable
  }

  ghost function Waited(cfg: RetryConfig, answers: nat -> Answer, n: nat): real
    requires AllRetryable(answers, n)
  {
    if n == 0 then 0.0 else Waited(cfg, answers, n - 1) + Delay(cfg, n - 1, answers(n - 1))
  }

  /** Retries are bounded, only 429 and 529 are retried, and a caller is told how long it waited. */
  method SendWithRetries(cfg: RetryConfig, answers: nat -> Answer) returns (r: Sent)
    ensures r.Delivered? ==>
      && r.attempt <= cfg.maxRetries && answers(r.attempt).Response?
      && AllRetryable(answers, r.attempt) && r.waited == Waited(cfg, answers, r.attempt)
    ensures r.Raised? ==>
      && r.attempt <= cfg.maxRetries && AllRetryable(answers, r.attempt)
      && answers(r.attempt).Failure? && !answers(r.attempt).retryable
    ensures r.Exhausted? ==> AllRetryable(answers, cfg.maxRetries + 1)
  {
    var waited := 0.0;
    r := Exhausted;
    for attempt := 0 to cfg.maxRetries + 1
      invariant attempt <= cfg.maxRetries && r.Exhausted?
      invariant AllRetryable(answers, attempt)
      invariant waited == Waited(cfg, answers, attempt)
    {
      match answers(attempt)
      case Response(_) => return Delivered(attempt, waited);
      case Failure(retryable, _, _) =>
        if !retryable { return Raised(attempt); }
        if attempt == cfg.maxRetries { return Exhausted; }
        waited := waited + Delay(cfg, attempt, answers(attempt));
    }
  }

  /** What the caller is told for what the provider answered: the first answer that is not retried decides, a response by
      its cost; when all the allowed requests come back retryable, nothing was delivered. */
  ghost predicate Becomes(retries: RetryConfig, answers: nat -> Answer, reply: Reply) {
    && (forall n: nat | n <= retries.maxRetries && AllRetryable(answers, n) ::
          && (answers(n).Response? ==> reply == Replied(answers(n).cost))
          && (answers(n).Failure? && !answers(n).retryable ==> reply == CallFailed))
    && (AllRetryable(answers, retries.maxRetries + 1) ==> reply == CallFailed)
  }

  lemma SentBecomes(retries: RetryConfig, answers: nat -> Answer, sent: Sent, reply: Reply)
    requires sent.Delivered? ==>
      sent.attempt <= retries.maxRetries && answers(sent.attempt).Response? && AllRetryable(answers, sent.attempt)
    requires sent.Raised? ==>
      && sent.attempt <= retries.maxRetries && AllRetryable(answers, sent.attempt)
      && answers(sent.attempt).Failure? && !answers(sent.attempt).retryable
    requires sent.Exhausted? ==> AllRetryable(answers, retries.maxRetries + 1)
    requires reply == if sent.Delivered? then Replied(answers(sent.attempt).cost) else CallFailed
    ensures Becomes(retries, answers, reply)
  {
    forall n: nat | n <= retries.maxRetries && AllRetryable(answers, n)
      ensures answers(n).Response? ==> reply == Replied(answers(n).cost)
      ensures answers(n).Failure? && !answers(n).retryable ==> reply == CallFailed
    {
      if !sent.Exhausted? && n < sent.attempt { assert answers(n).Failure? && answers(n).retryable; }
    }
  }

  datatype Verdict = Granted | LifetimeExceeded(used: real) | DailyExceeded(used: real)

  datatype Reply = Replied(cost: real) | Refused(why: Verdict) | CallFailed

  class ModelGateway {
    const cfg: Config
    const retries: RetryConfig
    var reserved: real
    var ledger: seq<Row>
    ghost var calls: seq<Call>

    ghost function State(today: int): State
      reads this
    {
      Spend.State(reserved, None, ledger, calls, today)
    }

    constructor (cfg: Config, retries: RetryConfig, ledger: seq<Row>, ghost callers: nat)
      ensures this.cfg == cfg && this.retries == retries
      ensures reserved == 0.0 && this.ledger == ledger && |calls| == callers
      ensures forall t | 0 <= t < callers :: calls[t].Idle?
    {
      this.cfg, this.retries, this.ledger := cfg, retries, ledger;
      reserved := 0.0;
      calls := seq(callers, _ => Idle);
    }

    /** Checks both caps against what is spent and in flight plus this call's worst case, and takes the worst case. */
    method Reserve(worst: real, today: int, ghost t: nat) returns (v: Verdict)
      requires t < |calls| && calls[t].Idle? && 0.0 <= worst
      modifies this
      ensures |calls| == |old(calls)|
      ensures State(today) == Run(cfg, old(State(today)), Reserving(t, worst))
      ensures v.Granted? ==> reserved == old(reserved) + worst && calls == old(calls)[t := Reserved(worst)]
      ensures !v.Granted? ==> reserved == old(reserved) && calls == old(calls)[t := Done]
      ensures v.LifetimeExceeded? <==> Total(ledger) + old(reserved) + worst > cfg.lifetimeCap
      ensures v.DailyExceeded? <==> !v.LifetimeExceeded? && TotalOn(ledger, today) + old(reserved) + worst > cfg.dailyCap
      ensures v.LifetimeExceeded? ==> v.used == Total(ledger) + old(reserved)
      ensures v.DailyExceeded? ==> v.used == TotalOn(ledger, today) + old(reserved)
      ensures ledger == old(ledger)
    {
      ghost var s0 := State(today);
      UnrollReserve(cfg, s0, t, worst);
      var lifetime := Total(ledger) + reserved;
      if lifetime + worst > cfg.lifetimeCap {
        calls := calls[t := Done];
        return LifetimeExceeded(lifetime);
      }
      var daily := TotalOn(ledger, today) + reserved;
      if daily + worst > cfg.dailyCap {
        calls := calls[t := Done];
        return DailyExceeded(daily);
      }
      reserved := reserved + worst;
      calls := calls[t := Reserved(worst)];
      v := Granted;
    }

    /** Send, record, release; a failed call gives its reservation back without a ledger row. The clock may have
        passed midnight since the reservation (`today`) when the ledger row is dated (`later`). */
    method Finish(worst: real, ghost today: int, later: int, answers: nat -> Answer, ghost t: nat) returns (reply: Reply)
      requires t < |calls| && calls[t] == Reserved(worst) && today <= later
      requires forall n: nat :: answers(n).Response? ==> answers(n).cost >= 0.0
      modifies this
      ensures !reply.Refused? && Becomes(retries, answers, reply)
      ensures State(later) == Run(cfg, old(State(today)), Finishing(t, later - today, reply))
      ensures ledger == old(ledger) + match reply case Replied(cost) => [Row(later, cost, Max(0.0, cost - worst))] case _ => []
      ensures reserved == old(reserved) - worst
      ensures calls == old(calls)[t := Done]
    {
      hide Becomes, AllRetryable, Waited, Run, Finishing;
      ghost var s := State(today);
      var sent := SendWithRetries(retries, answers);
      if sent.Delivered? {
        var cost := answers(sent.attempt).cost;
        ledger := ledger + [Row(later, cost, Max(0.0, cost - worst))];
        reply := Replied(cost);
      } else {
        reply := CallFailed;
      }
      SentBecomes(retries, answers, sent, reply);
      reserved := reserved - worst;
      calls := calls[t := Done];
      FinishingResult(cfg, s, t, later - today, reply);
    }

    /** A whole call of one thread; whatever becomes of it, nothing stays reserved and only a reply is charged. */
    method CallApi(worst: real, today: int, later: int, answers: nat -> Answer, ghost t: nat) returns (reply: Reply)
      requires t < |calls| && calls[t].Idle? && 0.0 <= worst && today <= later
      requires forall n: nat :: answers(n).Response? ==> answers(n).cost >= 0.0
      modifies this
      ensures State(later) == Run(cfg, old(State(today)), Reserving(t, worst) + Finishing(t, later - today, reply))
      ensures ledger == old(ledger) + match reply case Replied(cost) => [Row(later, cost, Max(0.0, cost - worst))] case _ => []
      ensures reserved == old(reserved)
      ensures calls == old(calls)[t := Done]
      ensures var lifetime, daily := Total(old(ledger)) + old(reserved), TotalOn(old(ledger), today) + old(reserved);
        if lifetime + worst > cfg.lifetimeCap then reply == Refused(LifetimeExceeded(lifetime))
        else if daily + worst > cfg.dailyCap then reply == Refused(DailyExceeded(daily))
        else !reply.Refused? && Becomes(retries, answers, reply)
    {
      hide Becomes, AllRetryable, Run, Reserving, Finishing, Total, TotalOn;
      ghost var s0 := State(today);
      var v := Reserve(worst, today, t);
      ghost var s1 := State(today);
      if v.Granted? {
        reply := Finish(worst, today, later, answers, t);
      } else {
        reply := Refused(v);
        FinishingResult(cfg, s1, t, later - today, reply);
      }
      RunMore(cfg, s0, Reserving(t, worst), Finishing(t, later - today, reply));
    }
  }

  /** A thread's steps up to its reservation, and from there to the end of its call. */
  ghost function Reserving(t: nat, worst: real): seq<Event> {
    [Begin(t, worst), CheckLifetime(t), ReadDay(t), CheckDaily(t), Commit(t)]
  }

  ghost function Finishing(t: nat, days: nat, r: Reply): seq<Event> {
    match r
    case Replied(cost) => [Midnight(days), Stamp(t, cost), Record(t), Release(t)]
    case CallFailed => [Midnight(days), Fail(t), Release(t)]
    case Refused(_) => [Midnight(days)]
  }

  lemma FinishingResult(cfg: Config, s: State, t: nat, days: nat, r: Reply)
    requires t < |s.calls| && s.lock.None?
    requires if r.Refused? then s.calls[t].Done? else s.calls[t].Reserved?
    requires r.Replied? ==> r.cost >= 0.0
    ensures var day, c := s.today + days, s.calls[t];
      Run(cfg, s, Finishing(t, days, r)) == match r
        case Replied(cost) =>
          State(s.reserved - c.worst, None, s.rows + [Row(day, cost, Max(0.0, cost - c.worst))], s.calls[t := Done], day)
        case CallFailed => State(s.reserved - c.worst, None, s.rows, s.calls[t := Done], day)
        case Refused(_) => s.(today := day)
  {
    match r
    case Replied(cost) => RunFour(cfg, s, Midnight(days), Stamp(t, cost), Record(t), Release(t));
    case CallFailed => RunThree(cfg, s, Midnight(days), Fail(t), Release(t));
    case Refused(_) => RunOne(cfg, s, Midnight(days));
  }

  lemma {:induction false} RunMore(cfg: Config, s: State, a: seq<Event>, b: seq<Event>)
    ensures Run(cfg, s, a + b) == Run(cfg, Run(cfg, s, a), b)
  {
    if b == [] {
      assert a + b == a;
    } else {
      assert (a + b)[..|a + b| - 1] == a + b[..|b| - 1];
      RunMore(cfg, s, a, b[..|b| - 1]);
    }
  }

  lemma RunOne(cfg: Config, s: State, e: Event)
    ensures Run(cfg, s, [e]) == Step(cfg, s, e)
  {
    assert [e][..0] == [];
  }

  lemma RunThree(cfg: Config, s: State, e: Event, f: Event, g: Event)
    ensures Run(cfg, s, [e, f, g]) == Step(cfg, Step(cfg, Step(cfg, s, e), f), g)
  {
    assert [e, f, g][..2] == [e, f] && [e, f][..1] == [e];
    RunOne(cfg, s, e);
  }

  lemma RunFour(cfg: Config, s: State, e: Event, f: Event, g: Event, h: Event)
    ensures Run(cfg, s, [e, f, g, h]) == Step(cfg, Step(cfg, Step(cfg, Step(cfg, s, e), f), g), h)
  {
    assert [e, f, g, h][..3] == [e, f, g];
    RunThree(cfg, s, e, f, g);
  }

  lemma UnrollReserve(cfg: Config, s: State, t: nat, worst: real)
    ensures Run(cfg, s, Reserving(t, worst))
         == Step(cfg, Step(cfg, Step(cfg, Step(cfg, Step(cfg, s, Begin(t, worst)), CheckLifetime(t)), ReadDay(t)), CheckDaily(t)), Commit(t))
  {
    assert Reserving(t, worst)[..4] == [Begin(t, worst), CheckLifetime(t), ReadDay(t), CheckDaily(t)];
    RunFour(cfg, s, Begin(t, worst), CheckLifetime(t), ReadDay(t), CheckDaily(t));
  }

  // ---- prices ---------------------------------------------------------------------------------

  /** US dollars per million tokens; a model may charge a dearer tier for long prompts. */
  datatype Price = Price(input: real, output: real, cacheRead: real, cacheWrite: real)

  datatype PriceEntry = PriceEntry(base: Price, longAbove: Option<nat>, longTier: Price)

  datatype Usage = Usage(input: nat, output: nat, cacheRead: nat, cacheCreation: nat)

  function ForPrompt(e: PriceEntry, promptTokens: nat): Price {
    if e.longAbove.Some? && promptTokens > e.longAbove.value then e.longTier else e.base
  }

  function EstimateCost(e: PriceEntry, u: Usage): real {
    var p := ForPrompt(e, u.input + u.cacheRead + u.cacheCreation);
    (u.input as real * p.input + u.cacheRead as real * (p.input * p.cacheRead)
      + u.cacheCreation as real * (p.input * p.cacheWrite) + u.output as real * p.output) / 1000000.0
  }

  ghost predicate Sensible(p: Price) { p.input >= 0.0 && p.output >= 0.0 && p.cacheRead >= 0.0 && p.cacheWrite >= 0.0 }

  ghost predicate SensibleEntry(e: PriceEntry) {
    Sensible(e.base) && Sensible(e.longTier) && e.base.input <= e.longTier.input && e.base.output <= e.longTier.output
  }

  ghost function Weighted(p: Price, u: Usage): real {
    u.input as real + u.cacheRead as real * p.cacheRead + u.cacheCreation as real * p.cacheWrite
  }

  lemma CostByWeight(e: PriceEntry, u: Usage)
    ensures var p := ForPrompt(e, u.input + u.cacheRead + u.cacheCreation);
      EstimateCost(e, u) == (p.input * Weighted(p, u) + p.output * u.output as real) / 1000000.0
  {
    var p := ForPrompt(e, u.input + u.cacheRead + u.cacheCreation);
    Regroup(p.input, u.input as real, u.cacheRead as real, p.cacheRead, u.cacheCreation as real, p.cacheWrite);
  }

  lemma WeightNonNegative(p: Price, u: Usage)
    requires Sensible(p)
    ensures Weighted(p, u) >= 0.0
  {
    Scale(p.cacheRead, p.cacheRead, 0.0, u.cacheRead as real);
    Scale(p.cacheWrite, p.cacheWrite, 0.0, u.cacheCreation as real);
  }

  /** What a call reserves is never negative. */
  lemma ReservationNonNegative(e: PriceEntry, u: Usage)
    requires SensibleEntry(e)
    ensures EstimateCost(e, u) >= 0.0
  {
    var p := ForPrompt(e, u.input + u.cacheRead + u.cacheCreation);
    CostByWeight(e, u);
    WeightNonNegative(p, u);
    Scale(p.input, p.input, 0.0, Weighted(p, u));
    Scale(p.output, p.output, 0.0, u.output as real);
  }

  /** A call costs no more than it reserved unless its prompt exceeds the estimate, counted plain (which decides the price
      tier) or weighted by what the cache does to the price, or its answer is longer than asked for. */
  lemma ReservationCovers(e: PriceEntry, estimated: nat, maxTokens: nat, u: Usage)
    requires SensibleEntry(e)
    requires u.output <= maxTokens && u.input + u.cacheRead + u.cacheCreation <= estimated
    requires Weighted(ForPrompt(e, u.input + u.cacheRead + u.cacheCreation), u) <= estimated as real
    ensures EstimateCost(e, u) <= EstimateCost(e, Usage(estimated, maxTokens, 0, 0))
  {
    var p, q := ForPrompt(e, u.input + u.cacheRead + u.cacheCreation), ForPrompt(e, estimated);
    CostByWeight(e, u);
    CostByWeight(e, Usage(estimated, maxTokens, 0, 0));
    assert Weighted(q, Usage(estimated, maxTokens, 0, 0)) == estimated as real;
    WeightNonNegative(p, u);
    Scale(p.input, q.input, Weighted(p, u), estimated as real);
    Scale(p.output, q.output, u.output as real, maxTokens as real);
  }

  /** A prompt longer than the threshold is charged at the dearer tier as a whole, any other at the base price. */
  lemma OneTier(e: PriceEntry, u: Usage)
    ensures var tier := if e.longAbove.Some? && u.input + u.cacheRead + u.cacheCreation > e.longAbove.value then e.longTier else e.base;
      EstimateCost(e, u) == EstimateCost(PriceEntry(tier, None, tier), u)
  {}

  function Both(u: Usage, v: Usage): Usage {
    Usage(u.input + v.input, u.output + v.output, u.cacheRead + v.cacheRead, u.cacheCreation + v.cacheCreation)
  }

  /** Within one tier, usage is charged by the token: a million of each kind costs its price, the cached kinds a share of
      the input's, and costs add up. */
  lemma ChargedByTheToken(p: Price, u: Usage, v: Usage)
    ensures var e := PriceEntry(p, None, p);
      && EstimateCost(e, Usage(1000000, 0, 0, 0)) == p.input && EstimateCost(e, Usage(0, 1000000, 0, 0)) == p.output
      && EstimateCost(e, Usage(0, 0, 1000000, 0)) == p.input * p.cacheRead && EstimateCost(e, Usage(0, 0, 0, 1000000)) == p.input * p.cacheWrite
      && EstimateCost(e, Both(u, v)) == EstimateCost(e, u) + EstimateCost(e, v)
  {
    var e := PriceEntry(p, None, p);
    Twice(u.input as real, v.input as real, p.input);
    Twice(u.output as real, v.output as real, p.output);
    Twice(u.cacheRead as real, v.cacheRead as real, p.input * p.cacheRead);
    Twice(u.cacheCreation as real, v.cacheCreation as real, p.input * p.cacheWrite);
  }

  lemma Twice(a: real, b: real, price: real)
    ensures (a + b) * price == a * price + b * price
  {}

  lemma Regroup(price: real, a: real, b: real, bw: real, c: real, cw: real)
    ensures a * price + b * (price * bw) + c * (price * cw) == price * (a + b * bw + c * cw)
  {
    assert b * (price * bw) == price * (b * bw);
    assert c * (price * cw) == price * (c * cw);
  }

  lemma Scale(p: real, q: real, x: real, y: real)
    requires 0.0 <= p <= q && 0.0 <= x <= y
    ensures 0.0 <= p * x <= q * y
  {
    assert q * y - p * x == q * (y - x) + (q - p) * x;
  }
}
