/** The spend caps of the model gateway: many threads reserve, call, record and release against one ledger. Every
    access to shared state is a step of its own, so the bounds hold for every interleaving of the threads. */
module Spend {
  import opened Wrappers

  datatype Config = Config(lifetimeCap: real, dailyCap: real)

  /** A ledger row. `over` is how far the cost went past the reservation made for it; 0 for rows found at start. */
  datatype Row = Row(day: int, cost: real, over: real)

  /** Where one call is. The first five hold or are about to hold the gateway's lock. */
  datatype Call =
    | Idle
    | Locked(worst: real)                              // inside the lock, nothing read yet
    | LifetimeOk(worst: real)                          // the lifetime cap was checked
    | DayRead(worst: real, day: int)                   // the clock was read for the daily cap
    | DailyOk(worst: real, day: int)                   // the daily cap was checked
    | Reserved(worst: real)                            // lock released; the network call is under way
    | Stamped(worst: real, day: int, cost: real)       // the clock was read for the ledger row
    | Releasing(worst: real)                           // recorded or failed; the reservation is still counted
    | Done

  datatype State = State(reserved: real, lock: Option<nat>, rows: seq<Row>, calls: seq<Call>, today: int)

  datatype Event =
    | Begin(t: nat, worst: real)
    | CheckLifetime(t: nat)
    | ReadDay(t: nat)
    | CheckDaily(t: nat)
    | Commit(t: nat)
    | Fail(t: nat)                // limiter, network, retries, parsing or ledger raised, the ledger also inside the lock
    | Stamp(t: nat, cost: real)
    | Record(t: nat)
    | Release(t: nat)
    | Midnight(days: nat)         // the clock moves on, never back

  function Max(x: real, y: real): real { if x < y then y else x }

  function Total(rows: seq<Row>): real {
    if rows == [] then 0.0 else Total(rows[..|rows| - 1]) + rows[|rows| - 1].cost
  }

  function TotalOn(rows: seq<Row>, day: int): real {
    if rows == [] then 0.0
    else TotalOn(rows[..|rows| - 1], day) + (if rows[|rows| - 1].day == day then rows[|rows| - 1].cost else 0.0)
  }

  ghost function Overs(rows: seq<Row>): real {
    if rows == [] then 0.0 else Overs(rows[..|rows| - 1]) + rows[|rows| - 1].over
  }

  ghost function OversOn(rows: seq<Row>, day: int): real {
    if rows == [] then 0.0
    else OversOn(rows[..|rows| - 1], day) + (if rows[|rows| - 1].day == day then rows[|rows| - 1].over else 0.0)
  }

  /** One step of one thread. An event that the state does not allow changes nothing. */
  function Step(cfg: Config, s: State, e: Event): State {
    match e
    case Begin(t, worst) =>
      if t < |s.calls| && s.calls[t].Idle? && s.lock.None? && 0.0 <= worst then
        s.(lock := Some(t), calls := s.calls[t := Locked(worst)])
      else s
    case CheckLifetime(t) =>
      if t < |s.calls| && s.calls[t].Locked? then
        var worst := s.calls[t].worst;
        if Total(s.rows) + s.reserved + worst > cfg.lifetimeCap then s.(lock := None, calls := s.calls[t := Done])
        else s.(calls := s.calls[t := LifetimeOk(worst)])
      else s
    case ReadDay(t) =>
      if t < |s.calls| && s.calls[t].LifetimeOk? then s.(calls := s.calls[t := DayRead(s.calls[t].worst, s.today)])
      else s
    case CheckDaily(t) =>
      if t < |s.calls| && s.calls[t].DayRead? then
        var (worst, day) := (s.calls[t].worst, s.calls[t].day);
        if TotalOn(s.rows, day) + s.reserved + worst > cfg.dailyCap then s.(lock := None, calls := s.calls[t := Done])
        else s.(calls := s.calls[t := DailyOk(worst, day)])
      else s
    case Commit(t) =>
      if t < |s.calls| && s.calls[t].DailyOk? then
        var worst := s.calls[t].worst;
        s.(reserved := s.reserved + worst, lock := None, calls := s.calls[t := Reserved(worst)])
      else s
    case Fail(t) =>
      if t < |s.calls| && (s.calls[t].Reserved? || s.calls[t].Stamped?) then
        s.(calls := s.calls[t := Releasing(s.calls[t].worst)])
      else if t < |s.calls| && Holds(s.calls[t]) then s.(lock := None, calls := s.calls[t := Done])
      else s
    case Stamp(t, cost) =>
      if t < |s.calls| && s.calls[t].Reserved? && 0.0 <= cost then
        s.(calls := s.calls[t := Stamped(s.calls[t].worst, s.today, cost)])
      else s
    case Record(t) =>
      if t < |s.calls| && s.calls[t].Stamped? then
        var c := s.calls[t];
        s.(rows := s.rows + [Row(c.day, c.cost, Max(0.0, c.cost - c.worst))], calls := s.calls[t := Releasing(c.worst)])
      else s
    case Release(t) =>
      if t < |s.calls| && s.calls[t].Releasing? && s.lock.None? then
        s.(reserved := s.reserved - s.calls[t].worst, calls := s.calls[t := Done])
      else s
    case Midnight(days) => s.(today := s.today + days)
  }

  function Run(cfg: Config, s: State, events: seq<Event>): State {
    if events == [] then s else Step(cfg, Run(cfg, s, events[..|events| - 1]), events[|events| - 1])
  }

  // ---- what the calls hold --------------------------------------------------------------------

  /** Three ways to add up the calls: what the gateway counts as reserved, what may still reach the ledger, and what
      may still reach the ledger under one given day. */
  datatype Measure = Held | Unrecorded | MayLand(day: int, today: int)

  ghost function Weight(m: Measure, c: Call): real {
    match c
    case Reserved(worst) => if m.MayLand? && m.day < m.today then 0.0 else worst
    case Stamped(worst, day, _) => if m.MayLand? && m.day != day then 0.0 else worst
    case Releasing(worst) => if m.Held? then worst else 0.0
    case _ => 0.0
  }

  ghost function Sum(m: Measure, calls: seq<Call>): real {
    if calls == [] then 0.0 else Sum(m, calls[..|calls| - 1]) + Weight(m, calls[|calls| - 1])
  }

  lemma {:induction false} SumUpdate(m: Measure, calls: seq<Call>, t: nat, c: Call)
    requires t < |calls|
    ensures Sum(m, calls[t := c]) == Sum(m, calls) - Weight(m, calls[t]) + Weight(m, c)
  {
    var n := |calls| - 1;
    if t == n {
      assert calls[t := c][..n] == calls[..n];
    } else {
      assert calls[t := c][..n] == calls[..n][t := c];
      SumUpdate(m, calls[..n], t, c);
    }
  }

  ghost predicate NonNegative(calls: seq<Call>) {
    forall t | 0 <= t < |calls| && !calls[t].Idle? && !calls[t].Done? :: calls[t].worst >= 0.0
  }

  lemma {:induction false} SumLess(m: Measure, n: Measure, calls: seq<Call>)
    requires NonNegative(calls)
    requires n.Held? || (m.MayLand? && n.MayLand? && m.day == n.day && n.today <= m.today)
    ensures Sum(m, calls) <= Sum(n, calls)
  {
    if calls != [] { SumLess(m, n, calls[..|calls| - 1]); }
  }

  lemma {:induction false} SumZero(m: Measure, calls: seq<Call>)
    requires forall t | 0 <= t < |calls| :: calls[t].Idle? || calls[t].Done?
    ensures Sum(m, calls) == 0.0
  {
    if calls != [] { SumZero(m, calls[..|calls| - 1]); }
  }

  lemma {:induction false} RowsNonNegative(rows: seq<Row>, day: int)
    requires forall r | r in rows :: r.cost >= 0.0 && r.over >= 0.0
    ensures Total(rows) >= 0.0 && Overs(rows) >= 0.0 && TotalOn(rows, day) >= 0.0 && OversOn(rows, day) >= 0.0
    ensures (forall r | r in rows :: r.day != day) ==> TotalOn(rows, day) == 0.0
  {
    if rows != [] { RowsNonNegative(rows[..|rows| - 1], day); }
  }

  // ---- the invariant --------------------------------------------------------------------------

  predicate Holds(c: Call) { c.Locked? || c.LifetimeOk? || c.DayRead? || c.DailyOk? }

  ghost predicate Shape(s: State) {
    && NonNegative(s.calls)
    && (forall r | r in s.rows :: r.cost >= 0.0 && r.over >= 0.0 && r.day <= s.today)
    && (forall t | 0 <= t < |s.calls| && (s.calls[t].Stamped? || s.calls[t].DayRead? || s.calls[t].DailyOk?) ::
          s.calls[t].day <= s.today)
    && (forall t | 0 <= t < |s.calls| && s.calls[t].Stamped? :: s.calls[t].cost >= 0.0)
    && (forall t | 0 <= t < |s.calls| :: Holds(s.calls[t]) <==> s.lock == Some(t))
    && s.reserved == Sum(Held, s.calls)
  }

  /** Spend that is or may still become, less what no reservation could foresee. */
  ghost function Exposure(s: State): real { Total(s.rows) + Sum(Unrecorded, s.calls) - Overs(s.rows) }

  ghost function ExposureOn(s: State, day: int): real {
    TotalOn(s.rows, day) + Sum(MayLand(day, s.today), s.calls) - OversOn(s.rows, day)
  }

  ghost predicate Bounded(cfg: Config, start: State, s: State) {
    && Exposure(s) <= Max(cfg.lifetimeCap, Total(start.rows))
    && forall day :: ExposureOn(s, day) <= Max(cfg.dailyCap, TotalOn(start.rows, day))
  }

  /** What a thread inside the lock already knows. Records made by others meanwhile cannot spoil it. */
  ghost predicate Knows(cfg: Config, s: State, c: Call) {
    match c
    case LifetimeOk(worst) => Exposure(s) + worst <= cfg.lifetimeCap
    case DayRead(worst, d) =>
      && Exposure(s) + worst <= cfg.lifetimeCap
      && forall day | d < day :: ExposureOn(s, day) <= s.reserved
    case DailyOk(worst, d) =>
      && Exposure(s) + worst <= cfg.lifetimeCap
      && forall day | d <= day :: ExposureOn(s, day) + worst <= cfg.dailyCap
    case _ => true
  }

  ghost predicate Invariant(cfg: Config, start: State, s: State) {
    && Shape(s)
    && Bounded(cfg, start, s)
    && forall t | 0 <= t < |s.calls| :: Knows(cfg, s, s.calls[t])
  }

  /** A gateway that has just been built over a ledger with any history; no row is dated in the future. */
  ghost predicate Initial(s: State) {
    && s.reserved == 0.0 && s.lock == None
    && (forall t | 0 <= t < |s.calls| :: s.calls[t].Idle?)
    && (forall r | r in s.rows :: r.cost >= 0.0 && r.over == 0.0 && r.day <= s.today)
  }

  lemma {:induction false} NoOvers(rows: seq<Row>, day: int)
    requires forall r | r in rows :: r.over == 0.0
    ensures Overs(rows) == 0.0 && OversOn(rows, day) == 0.0
  {
    if rows != [] { NoOvers(rows[..|rows| - 1], day); }
  }

  lemma InvariantAtStart(cfg: Config, s: State)
    requires Initial(s)
    ensures Invariant(cfg, s, s)
  {
    SumZero(Held, s.calls);
    SumZero(Unrecorded, s.calls);
    NoOvers(s.rows, 0);
    forall day ensures ExposureOn(s, day) <= Max(cfg.dailyCap, TotalOn(s.rows, day)) {
      SumZero(MayLand(day, s.today), s.calls);
      NoOvers(s.rows, day);
    }
  }

  // ---- every step keeps the invariant ---------------------------------------------------------

  /** The steps after which no exposure is larger: everything except the reservation itself. */
  ghost predicate NoMoreExposed(s: State, s': State) {
    && Exposure(s') <= Exposure(s)
    && forall day :: ExposureOn(s', day) <= ExposureOn(s, day)
  }

  lemma CallChangeExposes(s: State, t: nat, c: Call)
    requires t < |s.calls|
    requires forall m: Measure | !m.Held? :: Weight(m, c) <= Weight(m, s.calls[t]) || (m.MayLand? && m.today != s.today)
    ensures NoMoreExposed(s, s.(calls := s.calls[t := c]))
  {
    var s' := s.(calls := s.calls[t := c]);
    SumUpdate(Unrecorded, s.calls, t, c);
    forall day ensures ExposureOn(s', day) <= ExposureOn(s, day) {
      SumUpdate(MayLand(day, s.today), s.calls, t, c);
    }
  }

  lemma RecordExposes(cfg: Config, s: State, t: nat)
    requires t < |s.calls| && s.calls[t].Stamped?
    ensures NoMoreExposed(s, Step(cfg, s, Record(t)))
  {
    var s' := Step(cfg, s, Record(t));
    var c := Releasing(s.calls[t].worst);
    assert s'.rows[..|s.rows|] == s.rows;
    SumUpdate(Unrecorded, s.calls, t, c);
    forall day ensures ExposureOn(s', day) <= ExposureOn(s, day) {
      SumUpdate(MayLand(day, s.today), s.calls, t, c);
    }
  }

  lemma MidnightExposes(s: State, days: nat)
    requires NonNegative(s.calls)
    ensures NoMoreExposed(s, s.(today := s.today + days))
  {
    forall day ensures ExposureOn(s.(today := s.today + days), day) <= ExposureOn(s, day) {
      SumLess(MayLand(day, s.today + days), MayLand(day, s.today), s.calls);
    }
  }

  lemma StillBounded(cfg: Config, start: State, s: State, s': State)
    requires Bounded(cfg, start, s) && NoMoreExposed(s, s')
    ensures Bounded(cfg, start, s')
  {
    forall day ensures ExposureOn(s', day) <= Max(cfg.dailyCap, TotalOn(start.rows, day)) {
      assert ExposureOn(s', day) <= ExposureOn(s, day);
    }
  }

  lemma StillKnows(cfg: Config, s: State, s': State, c: Call)
    requires Knows(cfg, s, c) && NoMoreExposed(s, s') && s'.reserved == s.reserved
    ensures Knows(cfg, s', c)
  {
    if c.DayRead? {
      forall day | c.day < day ensures ExposureOn(s', day) <= s'.reserved { assert ExposureOn(s', day) <= ExposureOn(s, day); }
    }
    if c.DailyOk? {
      forall day | c.day <= day ensures ExposureOn(s', day) + c.worst <= cfg.dailyCap {
        assert ExposureOn(s', day) <= ExposureOn(s, day);
      }
    }
  }

  /** Nothing a thread does outside the two caps' checks needs more than: no exposure grew, the lock is respected. */
  lemma QuietStep(cfg: Config, start: State, s: State, s': State, t: nat)
    requires Invariant(cfg, start, s) && Shape(s') && NoMoreExposed(s, s')
    requires t < |s.calls| && |s'.calls| == |s.calls|
    requires forall u | 0 <= u < |s.calls| && u != t :: s'.calls[u] == s.calls[u]
    requires s'.reserved == s.reserved || s.lock == None
    requires Knows(cfg, s', s'.calls[t])
    ensures Invariant(cfg, start, s')
  {
    StillBounded(cfg, start, s, s');
    forall u | 0 <= u < |s'.calls| ensures Knows(cfg, s', s'.calls[u]) {
      if u != t && Holds(s.calls[u]) { StillKnows(cfg, s, s', s.calls[u]); }
    }
  }

  lemma ShapeAfterCall(s: State, s': State, t: nat, c: Call)
    requires Shape(s) && t < |s.calls|
    requires s'.calls == s.calls[t := c] && s'.today == s.today
    requires s'.rows == s.rows || (|s'.rows| == |s.rows| + 1 && s'.rows[..|s.rows|] == s.rows
      && var r := s'.rows[|s.rows|]; r.cost >= 0.0 && r.over >= 0.0 && r.day <= s.today)
    requires !c.Idle? && !c.Done? ==> c.worst >= 0.0
    requires c.Stamped? || c.DayRead? || c.DailyOk? ==> c.day <= s.today
    requires c.Stamped? ==> c.cost >= 0.0
    requires if Holds(c) then s'.lock == Some(t) && (s.lock == None || s.lock == Some(t))
             else s'.lock == (if Holds(s.calls[t]) then None else s.lock)
    requires s'.reserved == s.reserved - Weight(Held, s.calls[t]) + Weight(Held, c)
    ensures Shape(s')
  {
    SumUpdate(Held, s.calls, t, c);
    forall r | r in s'.rows ensures r.cost >= 0.0 && r.over >= 0.0 && r.day <= s'.today {
      if s'.rows != s.rows { assert s'.rows == s'.rows[..|s.rows|] + [s'.rows[|s.rows|]]; }
    }
  }

  lemma KnowsLifetime(cfg: Config, s: State, t: nat)
    requires Shape(s) && t < |s.calls| && s.calls[t].Locked?
    requires Total(s.rows) + s.reserved + s.calls[t].worst <= cfg.lifetimeCap
    ensures Exposure(s) + s.calls[t].worst <= cfg.lifetimeCap
  {
    SumLess(Unrecorded, Held, s.calls);
    RowsNonNegative(s.rows, 0);
  }

  lemma KnowsDay(s: State, day: int)
    requires Shape(s)
    ensures ExposureOn(s, day) <= TotalOn(s.rows, day) + s.reserved
    ensures s.today < day ==> ExposureOn(s, day) <= s.reserved
    ensures TotalOn(s.rows, day) >= 0.0
  {
    SumLess(MayLand(day, s.today), Held, s.calls);
    RowsNonNegative(s.rows, day);
  }

  lemma CommitKeeps(cfg: Config, start: State, s: State, t: nat)
    requires Invariant(cfg, start, s) && t < |s.calls| && s.calls[t].DailyOk?
    ensures Invariant(cfg, start, Step(cfg, s, Commit(t)))
  {
    var s' := Step(cfg, s, Commit(t));
    var c := Reserved(s.calls[t].worst);
    ShapeAfterCall(s, s', t, c);
    assert Knows(cfg, s, s.calls[t]);
    SumUpdate(Unrecorded, s.calls, t, c);
    forall day ensures ExposureOn(s', day) <= Max(cfg.dailyCap, TotalOn(start.rows, day)) {
      SumUpdate(MayLand(day, s.today), s.calls, t, c);
      assert ExposureOn(s, day) <= Max(cfg.dailyCap, TotalOn(start.rows, day));
    }
  }

  lemma CheckKeeps(cfg: Config, start: State, s: State, e: Event)
    requires Invariant(cfg, start, s) && (e.CheckLifetime? || e.ReadDay? || e.CheckDaily?) && e.t < |s.calls|
    ensures Invariant(cfg, start, Step(cfg, s, e))
  {
    var s', t := Step(cfg, s, e), e.t;
    if s' != s {
      ShapeAfterCall(s, s', t, s'.calls[t]);
      CallChangeExposes(s, t, s'.calls[t]);
      assert NoMoreExposed(s, s');
      assert Knows(cfg, s, s.calls[t]);
      if e.CheckLifetime? && s'.calls[t].LifetimeOk? { KnowsLifetime(cfg, s, t); }
      if s'.calls[t].DayRead? {
        forall day | s.today < day ensures ExposureOn(s', day) <= s'.reserved { KnowsDay(s, day); }
      }
      if s'.calls[t].DailyOk? {
        var c := s.calls[t];
        forall day | c.day <= day ensures ExposureOn(s', day) + c.worst <= cfg.dailyCap {
          KnowsDay(s, day);
          KnowsDay(s, c.day);
        }
      }
      QuietStep(cfg, start, s, s', t);
    }
  }

  lemma StepKeeps(cfg: Config, start: State, s: State, e: Event)
    requires Invariant(cfg, start, s)
    ensures Invariant(cfg, start, Step(cfg, s, e))
  {
    var s' := Step(cfg, s, e);
    if e.Midnight? {
      MidnightExposes(s, e.days);
      StillBounded(cfg, start, s, s');
      forall t | 0 <= t < |s.calls| ensures Knows(cfg, s', s'.calls[t]) { StillKnows(cfg, s, s', s.calls[t]); }
    } else if s' != s {
      var t := e.t;
      if e.Commit? {
        CommitKeeps(cfg, start, s, t);
      } else if e.CheckLifetime? || e.ReadDay? || e.CheckDaily? {
        CheckKeeps(cfg, start, s, e);
      } else {
        if e.Record? { assert s'.rows[..|s.rows|] == s.rows; }
        ShapeAfterCall(s, s', t, s'.calls[t]);
        if e.Record? { RecordExposes(cfg, s, t); } else { CallChangeExposes(s, t, s'.calls[t]); }
        assert NoMoreExposed(s, s');
        QuietStep(cfg, start, s, s', t);
      }
    }
  }

  lemma {:induction false} RunKeeps(cfg: Config, s: State, events: seq<Event>)
    requires Initial(s)
    ensures Invariant(cfg, s, Run(cfg, s, events))
  {
    if events == [] {
      InvariantAtStart(cfg, s);
    } else {
      RunKeeps(cfg, s, events[..|events| - 1]);
      StepKeeps(cfg, s, Run(cfg, s, events[..|events| - 1]), events[|events| - 1]);
    }
  }

  // ---- the promises ---------------------------------------------------------------------------

  /** In every interleaving, recorded spend plus every reservation not yet recorded stays within the lifetime cap (or
      the ledger's own history, if that was already past it) plus what calls cost beyond their reservations. */
  lemma LifetimeSpendBound(cfg: Config, s: State, events: seq<Event>)
    requires Initial(s)
    ensures var r := Run(cfg, s, events);
      Total(r.rows) + Sum(Unrecorded, r.calls) <= Max(cfg.lifetimeCap, Total(s.rows)) + Overs(r.rows)
  {
    RunKeeps(cfg, s, events);
  }

  /** On every day, whatever calls were reserved the day before and recorded after midnight. */
  lemma DailySpendBound(cfg: Config, s: State, events: seq<Event>, day: int)
    requires Initial(s)
    ensures var r := Run(cfg, s, events);
      TotalOn(r.rows, day) <= Max(cfg.dailyCap, TotalOn(s.rows, day)) + OversOn(r.rows, day)
  {
    RunKeeps(cfg, s, events);
    var r := Run(cfg, s, events);
    assert ExposureOn(r, day) <= Max(cfg.dailyCap, TotalOn(s.rows, day));
    SumNonNegative(MayLand(day, r.today), r.calls);
  }

  lemma {:induction false} SumNonNegative(m: Measure, calls: seq<Call>)
    requires NonNegative(calls)
    ensures Sum(m, calls) >= 0.0
  {
    if calls != [] { SumNonNegative(m, calls[..|calls| - 1]); }
  }

  /** The one number the threads share is exactly the live reservations, and nothing when no call is live. */
  lemma ReservedIsLive(cfg: Config, s: State, events: seq<Event>)
    requires Initial(s)
    ensures var r := Run(cfg, s, events);
      && r.reserved == Sum(Held, r.calls) >= 0.0
      && ((forall t | 0 <= t < |r.calls| :: r.calls[t].Idle? || r.calls[t].Done?) ==> r.reserved == 0.0)
  {
    RunKeeps(cfg, s, events);
    var r := Run(cfg, s, events);
    SumNonNegative(Held, r.calls);
    if forall t | 0 <= t < |r.calls| :: r.calls[t].Idle? || r.calls[t].Done? { SumZero(Held, r.calls); }
  }
}
