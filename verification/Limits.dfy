/** The reserve-then-wait token bucket of the gateway's rate limits, and the bound it puts on any run. */
module Limits {

  /** The fields of a bucket. `level` goes below zero when tokens are taken ahead of the refill. */
  datatype Bucket = Bucket(capacity: real, rate: real, level: real, last: real)

  /** One critical section of the bucket's lock. Amounts may have any sign: nothing checks them. */
  datatype Op = Acquire(now: real, amount: real) | Refund(amount: real)

  function Min(x: real, y: real): real { if x <= y then x else y }

  /** A request larger than the bucket is charged as a full bucket. */
  function AfterAcquire(b: Bucket, now: real, amount: real): Bucket {
    b.(level := Min(b.capacity, b.level + (now - b.last) * b.rate) - Min(amount, b.capacity), last := now)
  }

  function AfterRefund(b: Bucket, amount: real): Bucket {
    b.(level := Min(b.capacity, b.level + amount))
  }

  /** Seconds the caller sleeps after an acquire that left the bucket in state `b`. */
  function Wait(b: Bucket): real
    requires b.rate > 0.0
  {
    Sleep(b.rate, b.level)
  }

  function Sleep(rate: real, level: real): real
    requires rate > 0.0
  {
    if level < 0.0 then -level / rate else 0.0
  }

  function After(b: Bucket, op: Op): Bucket {
    match op
    case Acquire(now, amount) => AfterAcquire(b, now, amount)
    case Refund(amount) => AfterRefund(b, amount)
  }

  /** A run: the states the bucket goes through, one more than the operations, on a clock that never goes back. */
  ghost predicate IsRun(ops: seq<Op>, states: seq<Bucket>) {
    && |states| == |ops| + 1
    && forall k {:trigger ops[k]} | 0 <= k < |ops| ::
         && states[k + 1] == After(states[k], ops[k])
         && (ops[k].Acquire? ==> states[k].last <= ops[k].now)
  }

  /** When the acquire that left state `s` lets its caller go on: its arrival, which is now `s.last`, plus its wait. */
  ghost function Grant(rate: real, s: Bucket): real
    requires rate > 0.0
  {
    s.last + Sleep(rate, s.level)
  }

  /** Tokens charged by the acquires among operations `i` to `j`, both included. */
  ghost function Charged(capacity: real, ops: seq<Op>, i: nat, j: nat): real
    requires i <= j < |ops|
    decreases j
  {
    (if ops[j].Acquire? then Min(ops[j].amount, capacity) else 0.0)
    + (if i == j then 0.0 else Charged(capacity, ops, i, j - 1))
  }

  /** Tokens given back by the refunds among operations `i` to `j`, both included. */
  ghost function Refunded(ops: seq<Op>, i: nat, j: nat): real
    requires i <= j < |ops|
    decreases j
  {
    (if ops[j].Refund? then ops[j].amount else 0.0) + (if i == j then 0.0 else Refunded(ops, i, j - 1))
  }

  lemma {:induction false} KeepsShape(ops: seq<Op>, states: seq<Bucket>, k: nat)
    requires IsRun(ops, states) && k < |states|
    ensures states[k].capacity == states[0].capacity && states[k].rate == states[0].rate
  {
    if k > 0 {
      KeepsShape(ops, states, k - 1);
      assert states[k] == After(states[k - 1], ops[k - 1]);
    }
  }

  /** Tokens owed to the refill, measured from time zero. Refilling cannot lower it; only refunds can. */
  ghost function Debt(rate: real, s: Bucket): real { rate * s.last - s.level }

  lemma DebtStep(s: Bucket, op: Op)
    requires op.Acquire? ==> s.last <= op.now
    ensures op.Acquire? ==> Debt(s.rate, After(s, op)) >= Debt(s.rate, s) + Min(op.amount, s.capacity)
    ensures op.Refund? ==> Debt(s.rate, After(s, op)) >= Debt(s.rate, s) - op.amount
  {
    if op.Acquire? { Distribute(s.rate, op.now, s.last); }
  }

  lemma {:induction false} DebtGrows(ops: seq<Op>, states: seq<Bucket>, i: nat, j: nat)
    requires IsRun(ops, states) && i < j < |ops|
    ensures var b := states[0];
      Debt(b.rate, states[j + 1]) - Debt(b.rate, states[i + 1])
        >= Charged(b.capacity, ops, i + 1, j) - Refunded(ops, i + 1, j)
    decreases j
  {
    KeepsShape(ops, states, j);
    DebtStep(states[j], ops[j]);
    if i + 1 < j { DebtGrows(ops, states, i, j - 1); }
  }

  lemma {:induction false} SplitFirst(capacity: real, ops: seq<Op>, i: nat, j: nat)
    requires i < j < |ops|
    ensures Charged(capacity, ops, i, j) == Charged(capacity, ops, i, i) + Charged(capacity, ops, i + 1, j)
    ensures Refunded(ops, i, j) == Refunded(ops, i, i) + Refunded(ops, i + 1, j)
    decreases j
  {
    if i + 1 < j { SplitFirst(capacity, ops, i, j - 1); }
  }

  /** How the debt left behind by an acquire compares with the grant time it announces. */
  lemma GrantBracketsDebt(rate: real, s: Bucket, room: real, charge: real)
    requires rate > 0.0 && s.level <= room - charge && charge <= room
    ensures charge + rate * Grant(rate, s) <= room + Debt(rate, s)
    ensures Debt(rate, s) <= rate * Grant(rate, s)
  {
    var w := Sleep(rate, s.level);
    Distribute(rate, s.last + w, s.last);
    assert rate * w == if s.level < 0.0 then -s.level else 0.0;
  }

  lemma LevelAfterAcquire(ops: seq<Op>, states: seq<Bucket>, i: nat)
    requires IsRun(ops, states) && i < |ops| && ops[i].Acquire?
    ensures states[i + 1].level <= states[0].capacity - Min(ops[i].amount, states[0].capacity)
    ensures states[i + 1].last == ops[i].now
  {
    KeepsShape(ops, states, i);
  }

  ghost predicate WithinRate(capacity: real, rate: real, first: real, last: real, charged: real, refunded: real) {
    charged <= capacity + rate * (last - first) + refunded
  }

  /** The rate bound: the acquires of any stretch of any run take at most one bucket more than the refill between
      their first and last grant, plus what was refunded in between. */
  lemma RateBound(ops: seq<Op>, states: seq<Bucket>, i: nat, j: nat)
    requires IsRun(ops, states) && states[0].rate > 0.0
    requires i <= j < |ops| && ops[i].Acquire? && ops[j].Acquire?
    ensures var b := states[0];
      WithinRate(b.capacity, b.rate, Grant(b.rate, states[i + 1]), Grant(b.rate, states[j + 1]),
                 Charged(b.capacity, ops, i, j), Refunded(ops, i, j))
  {
    var capacity, rate, si, sj := states[0].capacity, states[0].rate, states[i + 1], states[j + 1];
    LevelAfterAcquire(ops, states, i);
    LevelAfterAcquire(ops, states, j);
    GrantBracketsDebt(rate, si, capacity, Min(ops[i].amount, capacity));
    GrantBracketsDebt(rate, sj, capacity, Min(ops[j].amount, capacity));
    if i < j {
      DebtGrows(ops, states, i, j);
      SplitFirst(capacity, ops, i, j);
    }
    Combine(capacity, rate, si, sj, Charged(capacity, ops, i, i), Charged(capacity, ops, i, j), Refunded(ops, i, j));
  }

  lemma Combine(room: real, rate: real, si: Bucket, sj: Bucket, first: real, charged: real, refunded: real)
    requires rate > 0.0
    requires first + rate * Grant(rate, si) <= room + Debt(rate, si)
    requires Debt(rate, sj) <= rate * Grant(rate, sj)
    requires Debt(rate, sj) - Debt(rate, si) >= charged - first - refunded
    ensures WithinRate(room, rate, Grant(rate, si), Grant(rate, sj), charged, refunded)
  {
    Distribute(rate, Grant(rate, sj), Grant(rate, si));
  }

  lemma Distribute(r: real, x: real, y: real)
    ensures r * (x - y) == r * x - r * y
  {}

  /** The bound cannot be lowered: from a full bucket, two back-to-back acquires meet it exactly. */
  lemma RateBoundIsTight(capacity: real, rate: real, start: real, x: real)
    requires rate > 0.0 && 0.0 <= x <= capacity
    ensures var ops := [Acquire(start, capacity), Acquire(start, x)];
      exists states: seq<Bucket> ::
        && IsRun(ops, states) && states[0] == Bucket(capacity, rate, capacity, start)
        && Charged(capacity, ops, 0, 1) == capacity + rate * (Grant(rate, states[2]) - Grant(rate, states[1]))
  {
    var ops := [Acquire(start, capacity), Acquire(start, x)];
    var full, drained, short := Bucket(capacity, rate, capacity, start), Bucket(capacity, rate, 0.0, start),
                                Bucket(capacity, rate, -x, start);
    var states := [full, drained, short];
    assert (start - start) * rate == 0.0;
    assert IsRun(ops, states);
    assert Charged(capacity, ops, 0, 0) == capacity;
    assert rate * (x / rate) == x;
    assert Grant(rate, short) - Grant(rate, drained) == x / rate;
  }

  /** The sleep is exactly long enough: left alone, the bucket is back at zero at the grant and not a moment before. */
  lemma WaitIsExact(b: Bucket, t: real)
    requires b.rate > 0.0 && b.level < 0.0 && 0.0 <= b.capacity && b.last <= t
    ensures AfterAcquire(b, t, 0.0).level >= 0.0 <==> t >= b.last + Wait(b)
  {
    var w, d := Wait(b), t - b.last;
    assert b.rate * w == -b.level;
    assert d * b.rate == b.rate * d;
    Distribute(b.rate, d, w);
    Distribute(b.rate, w, d);
    if d >= w { Product(b.rate, d - w); } else { Product(b.rate, w - d); }
  }

  /** Giving back at once what was taken leaves the bucket as if nothing had been taken. */
  lemma RefundUndoesAcquire(b: Bucket, now: real, amount: real)
    requires 0.0 <= amount <= b.capacity
    ensures After(After(b, Acquire(now, amount)), Refund(amount)) == After(b, Acquire(now, 0.0))
  {}

  /** A refund raises the level by its amount, up to the capacity, so that the next caller waits exactly as much less as
      the amount takes to refill, or not at all. */
  lemma RefundShortensWait(b: Bucket, amount: real)
    requires b.rate > 0.0 && amount > 0.0 && 0.0 <= b.capacity && b.level <= b.capacity
    ensures var after := After(b, Refund(amount));
      && b.level <= after.level <= b.capacity
      && (b.level + amount <= b.capacity ==> after.level == b.level + amount)
      && (b.level + amount > b.capacity ==> after.level == b.capacity)
      && Wait(after) == if b.level + amount < 0.0 then Wait(b) - amount / b.rate else 0.0
  {
    if b.level + amount < 0.0 { assert -(b.level + amount) / b.rate == -b.level / b.rate - amount / b.rate; }
  }

  /** A request larger than the bucket takes what the bucket holds at most: from a full bucket, nobody waits for it. */
  lemma LargeRequestDrains(b: Bucket, amount: real)
    requires b.rate > 0.0 && b.level == b.capacity && amount >= b.capacity
    ensures var after := After(b, Acquire(b.last, amount)); after.level == 0.0 && Wait(after) == 0.0
  {
    assert (b.last - b.last) * b.rate == 0.0;
  }

  lemma Product(r: real, x: real)
    requires r > 0.0 && x >= 0.0
    ensures r * x >= 0.0 && (x > 0.0 ==> r * x > 0.0)
  {
  }

  class TokenBucket {
    const capacity: real
    const rate: real
    var level: real
    var last: real

    ghost function State(): Bucket
      reads this
    {
      Bucket(capacity, rate, level, last)
    }

    constructor (capacity: real, refillPerSecond: real, now: real)
      ensures State() == Bucket(capacity, refillPerSecond, capacity, now)
    {
      this.capacity := capacity;
      this.rate := refillPerSecond;
      this.level := capacity;
      this.last := now;
    }

    /** Takes the tokens at once and returns the seconds to sleep off any deficit. */
    method Take(now: real, amount: real) returns (wait: real)
      requires rate > 0.0
      modifies this
      ensures State() == After(old(State()), Acquire(now, amount))
      ensures wait == Wait(State())
    {
      var charge := Min(amount, capacity);
      level := Min(capacity, level + (now - last) * rate);
      last := now;
      level := level - charge;
      wait := if level < 0.0 then -level / rate else 0.0;
    }

    method GiveBack(amount: real)
      modifies this
      ensures State() == After(old(State()), Refund(amount))
    {
      level := Min(capacity, level + amount);
    }
  }

  /** Requests-per-minute and tokens-per-minute buckets, taken one after the other. */
  class RateLimiter {
    const requests: TokenBucket
    const tokens: TokenBucket

    ghost predicate Valid() {
      requests != tokens && requests.rate > 0.0 && tokens.rate > 0.0
    }

    constructor (requestsPerMinute: real, tokensPerMinute: real, now: real)
      requires requestsPerMinute > 0.0 && tokensPerMinute > 0.0
      ensures Valid() && fresh(requests) && fresh(tokens)
      ensures requests.State() == Bucket(requestsPerMinute, requestsPerMinute / 60.0, requestsPerMinute, now)
      ensures tokens.State() == Bucket(tokensPerMinute, tokensPerMinute / 60.0, tokensPerMinute, now)
    {
      var r := new TokenBucket(requestsPerMinute, requestsPerMinute / 60.0, now);
      var t := new TokenBucket(tokensPerMinute, tokensPerMinute / 60.0, now);
      requests, tokens := r, t;
    }

    /** `now` is the clock at the request bucket and `later` at the token bucket, after the first sleep. */
    method Acquire(now: real, later: real, estimatedTokens: real) returns (wait: real)
      requires Valid()
      modifies requests, tokens
      ensures requests.State() == After(old(requests.State()), Op.Acquire(now, 1.0))
      ensures tokens.State() == After(old(tokens.State()), Op.Acquire(later, estimatedTokens))
      ensures wait == Wait(requests.State()) + Wait(tokens.State())
    {
      var first := requests.Take(now, 1.0);
      var second := tokens.Take(later, estimatedTokens);
      wait := first + second;
    }

    method RefundTokens(amount: real)
      requires Valid()
      modifies tokens
      ensures tokens.State() == if amount > 0.0 then After(old(tokens.State()), Refund(amount)) else old(tokens.State())
    {
      if amount > 0.0 { tokens.GiveBack(amount); }
    }
  }
}
