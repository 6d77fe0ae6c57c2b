/** The gate's rate limiter: a queue of times pruned from the front, and the full history it stands for. */
module SlidingWindow {
  /** How many of the times are later than `t`. */
  function CountAfter(times: seq<real>, t: real): nat {
    if times == [] then 0 else CountAfter(times[..|times| - 1], t) + (if times[|times| - 1] > t then 1 else 0)
  }

  ghost predicate Ascending(q: seq<real>) { forall i, j | 0 <= i < j < |q| :: q[i] <= q[j] }

  ghost predicate NotAfter(times: seq<real>, t: real) { forall k | 0 <= k < |times| :: times[k] <= t }

  function Prune(q: seq<real>, cutoff: real): seq<real> {
    if q != [] && q[0] <= cutoff then Prune(q[1..], cutoff) else q
  }

  function Insert(q: seq<real>, t: real): seq<real> {
    if q == [] || q[|q| - 1] <= t then q + [t] else Insert(q[..|q| - 1], t) + [q[|q| - 1]]
  }

  /** Both lists in one ascending queue. */
  function Merge(q: seq<real>, times: seq<real>): seq<real> {
    if times == [] then q else Insert(Merge(q, times[..|times| - 1]), times[|times| - 1])
  }

  // ---- counting --------------------------------------------------------------------------------

  lemma {:induction false} CountTwo(a: seq<real>, b: seq<real>, t: real)
    ensures CountAfter(a + b, t) == CountAfter(a, t) + CountAfter(b, t)
  {
    if b == [] {
      assert a + b == a;
    } else {
      CountTwo(a, b[..|b| - 1], t);
      assert (a + b)[..|a + b| - 1] == a + b[..|b| - 1];
    }
  }

  lemma CountOne(x: real, t: real)
    ensures CountAfter([x], t) == if x > t then 1 else 0
  {
    assert [x][..0] == [];
  }

  lemma {:induction false} CountAll(q: seq<real>, t: real)
    ensures CountAfter(q, t) <= |q|
    ensures (forall k | 0 <= k < |q| :: q[k] > t) ==> CountAfter(q, t) == |q|
  {
    if q != [] { CountAll(q[..|q| - 1], t); }
  }

  /** Pruning drops a prefix of stale times and nothing a later cutoff counts. */
  lemma {:induction false} PruneCounts(q: seq<real>, cutoff: real, t: real)
    requires cutoff <= t
    ensures CountAfter(Prune(q, cutoff), t) == CountAfter(q, t)
    ensures Prune(q, cutoff) != [] ==> Prune(q, cutoff)[0] > cutoff
  {
    if q != [] && q[0] <= cutoff {
      PruneCounts(q[1..], cutoff, t);
      assert q == [q[0]] + q[1..];
      CountTwo([q[0]], q[1..], t);
      CountOne(q[0], t);
    }
  }

  lemma {:induction false} PruneAscends(q: seq<real>, cutoff: real, now: real)
    requires Ascending(q) && NotAfter(q, now)
    ensures Ascending(Prune(q, cutoff)) && NotAfter(Prune(q, cutoff), now)
  {
    if q != [] && q[0] <= cutoff { PruneAscends(q[1..], cutoff, now); }
  }

  lemma PruneAscending(q: seq<real>, cutoff: real)
    requires Ascending(q)
    ensures |Prune(q, cutoff)| == CountAfter(q, cutoff)
  {
    PruneCounts(q, cutoff, cutoff);
    if q != [] { PruneAscends(q, cutoff, q[|q| - 1]); }
    CountAll(Prune(q, cutoff), cutoff);
  }

  lemma {:induction false} InsertCounts(q: seq<real>, x: real, t: real)
    ensures CountAfter(Insert(q, x), t) == CountAfter(q, t) + (if x > t then 1 else 0)
  {
    if q == [] || q[|q| - 1] <= x {
      CountTwo(q, [x], t);
      CountOne(x, t);
    } else {
      var n := |q| - 1;
      InsertCounts(q[..n], x, t);
      CountTwo(Insert(q[..n], x), [q[n]], t);
      CountOne(q[n], t);
    }
  }

  lemma {:induction false} InsertAscends(q: seq<real>, x: real, now: real)
    requires Ascending(q) && NotAfter(q, now) && x <= now
    ensures Ascending(Insert(q, x)) && NotAfter(Insert(q, x), now)
  {
    if q != [] && q[|q| - 1] > x {
      var n := |q| - 1;
      assert NotAfter(q[..n], q[n]);
      InsertAscends(q[..n], x, q[n]);
    }
  }

  lemma {:induction false} MergeCounts(q: seq<real>, times: seq<real>, t: real)
    ensures CountAfter(Merge(q, times), t) == CountAfter(q, t) + CountAfter(times, t)
  {
    if times != [] {
      var n := |times| - 1;
      MergeCounts(q, times[..n], t);
      InsertCounts(Merge(q, times[..n]), times[n], t);
    }
  }

  lemma {:induction false} MergeAscends(q: seq<real>, times: seq<real>, now: real)
    requires Ascending(q) && NotAfter(q, now) && NotAfter(times, now)
    ensures Ascending(Merge(q, times)) && NotAfter(Merge(q, times), now)
  {
    if times != [] {
      var n := |times| - 1;
      MergeAscends(q, times[..n], now);
      InsertAscends(Merge(q, times[..n]), times[n], now);
    }
  }

  // ---- one fingerprint over a run --------------------------------------------------------------

  /** A look, an allowed attempt (the clock is read for pruning and again for the time recorded), or times from
      elsewhere. */
  datatype Use = Look(now: real) | Attempt(pruned: real, at: real) | Seed(now: real, times: seq<real>)

  function Began(use: Use): real { if use.Attempt? then use.pruned else use.now }

  function Ended(use: Use): real { if use.Attempt? then use.at else use.now }

  function Queue(q: seq<real>, use: Use, window: real): seq<real> {
    match use
    case Look(now) => Prune(q, now - window)
    case Attempt(pruned, at) => Prune(q, pruned - window) + [at]
    case Seed(_, times) => Merge(q, times)
  }

  function QueueAfter(uses: seq<Use>, window: real): seq<real> {
    if uses == [] then [] else Queue(QueueAfter(uses[..|uses| - 1], window), uses[|uses| - 1], window)
  }

  function Adds(use: Use): seq<real> {
    match use
    case Look(_) => []
    case Attempt(_, at) => [at]
    case Seed(_, times) => times
  }

  /** Every attempt ever recorded or seeded. */
  function History(uses: seq<Use>): seq<real> {
    if uses == [] then [] else History(uses[..|uses| - 1]) + Adds(uses[|uses| - 1])
  }

  /** The clock does not run backwards and no seed is later than its own reading. */
  ghost predicate OnClock(uses: seq<Use>, start: real, end: real) {
    if uses == [] then start <= end
    else
      var last := uses[|uses| - 1];
      && OnClock(uses[..|uses| - 1], start, Began(last)) && Began(last) <= Ended(last) <= end
      && (last.Seed? ==> NotAfter(last.times, last.now))
  }

  lemma UseCounts(q: seq<real>, use: Use, window: real, t: real)
    requires Began(use) - window <= t
    ensures CountAfter(Queue(q, use, window), t) == CountAfter(q, t) + CountAfter(Adds(use), t)
  {
    match use
    case Look(now) => PruneCounts(q, now - window, t);
    case Attempt(pruned, at) =>
      PruneCounts(q, pruned - window, t);
      CountTwo(Prune(q, pruned - window), [at], t);
    case Seed(_, times) => MergeCounts(q, times, t);
  }

  lemma UseAscends(q: seq<real>, use: Use, window: real)
    requires Ascending(q) && NotAfter(q, Began(use)) && Began(use) <= Ended(use)
    requires use.Seed? ==> NotAfter(use.times, use.now)
    ensures Ascending(Queue(q, use, window)) && NotAfter(Queue(q, use, window), Ended(use))
  {
    match use
    case Look(now) => PruneAscends(q, now - window, now);
    case Attempt(pruned, at) => PruneAscends(q, pruned - window, pruned);
    case Seed(now, times) => MergeAscends(q, times, now);
  }

  lemma {:induction false} QueueStandsForHistory(uses: seq<Use>, window: real, start: real, now: real, t: real)
    requires OnClock(uses, start, now) && now - window <= t
    ensures var q := QueueAfter(uses, window);
      Ascending(q) && NotAfter(q, now) && CountAfter(q, t) == CountAfter(History(uses), t)
  {
    if uses != [] {
      var front, last := uses[..|uses| - 1], uses[|uses| - 1];
      var q := QueueAfter(front, window);
      QueueStandsForHistory(front, window, start, Began(last), t);
      UseCounts(q, last, window, t);
      UseAscends(q, last, window);
      CountTwo(History(front), Adds(last), t);
    }
  }

  /** Whatever came before, the pruned queue is full exactly when the full history has that many attempts in the
      window. */
  lemma ExhaustedIsHistory(uses: seq<Use>, window: real, start: real, now: real, limit: nat)
    requires OnClock(uses, start, now)
    ensures |Prune(QueueAfter(uses, window), now - window)| >= limit <==> CountAfter(History(uses), now - window) >= limit
  {
    QueueStandsForHistory(uses, window, start, now, now - window);
    PruneAscending(QueueAfter(uses, window), now - window);
  }

  // ---- which seeds may be trusted --------------------------------------------------------------

  lemma {:induction false} InsertKeepsOrder(q: seq<real>, x: real)
    requires Ascending(q)
    ensures Ascending(Insert(q, x))
  {
    var bound := if q == [] || q[|q| - 1] <= x then x else q[|q| - 1];
    InsertAscends(q, x, bound);
  }

  /** A merged queue is in order whatever was merged. */
  lemma {:induction false} MergeKeepsOrder(q: seq<real>, times: seq<real>)
    requires Ascending(q)
    ensures Ascending(Merge(q, times))
  {
    if times != [] {
      MergeKeepsOrder(q, times[..|times| - 1]);
      InsertKeepsOrder(Merge(q, times[..|times| - 1]), times[|times| - 1]);
    }
  }

  lemma QueueOfOne(now: real, times: seq<real>, window: real)
    ensures QueueAfter([Seed(now, times)], window) == Merge([], times) && History([Seed(now, times)]) == times
  {
    var uses := [Seed(now, times)];
    assert uses[..0] == [] && QueueAfter(uses[..0], window) == [] && History(uses[..0]) == [];
    assert [] + times == times;
  }

  /** The queue is as long as the history is in the window. */
  predicate Counts(uses: seq<Use>, window: real, now: real) {
    |Prune(QueueAfter(uses, window), now - window)| == CountAfter(History(uses), now - window)
  }

  /** A fresh queue with these seeds counts right at every later look, after whatever uses. */
  ghost predicate Trusted(now: real, times: seq<real>, window: real) {
    forall more, end | OnClock(more, now, end) :: Counts([Seed(now, times)] + more, window, end)
  }

  lemma {:induction false} SeededClock(seed: Use, more: seq<Use>, end: real)
    requires seed.Seed? && NotAfter(seed.times, seed.now) && OnClock(more, seed.now, end)
    ensures OnClock([seed] + more, seed.now, end)
  {
    var uses := [seed] + more;
    if more == [] {
      assert uses == [seed] && uses[..0] == [];
    } else {
      var front, last := more[..|more| - 1], more[|more| - 1];
      SeededClock(seed, front, Began(last));
      assert uses[..|uses| - 1] == [seed] + front && uses[|uses| - 1] == last;
    }
  }

  lemma CountsOnClock(uses: seq<Use>, window: real, start: real, now: real)
    requires OnClock(uses, start, now)
    ensures Counts(uses, window, now)
  {
    hide QueueAfter, History, Prune, CountAfter, OnClock, NotAfter, Ascending;
    QueueStandsForHistory(uses, window, start, now, now - window);
    PruneAscending(QueueAfter(uses, window), now - window);
  }

  /** The part of an ascending queue that is left by pruning stays in front of whatever is put behind it. */
  lemma {:induction false} PruneStops(q: seq<real>, x: real, cutoff: real)
    requires Prune(q, cutoff) != []
    ensures Prune(q + [x], cutoff) == Prune(q, cutoff) + [x]
  {
    if q[0] <= cutoff {
      assert (q + [x])[1..] == q[1..] + [x];
      PruneStops(q[1..], x, cutoff);
    }
  }

  lemma SomeAfter(times: seq<real>, t: real)
    ensures NotAfter(times, t) <==> CountAfter(times, t) == 0
  {
    if times != [] {
      SomeAfter(times[..|times| - 1], t);
      assert forall k | 0 <= k < |times| - 1 :: times[..|times| - 1][k] == times[k];
    }
  }

  lemma {:induction false} PruneTwice(q: seq<real>, earlier: real, cutoff: real)
    requires earlier <= cutoff
    ensures Prune(Prune(q, earlier), cutoff) == Prune(q, cutoff)
  {
    if q != [] && q[0] <= earlier { PruneTwice(q[1..], earlier, cutoff); }
  }

  lemma SeedThenAttempt(now: real, times: seq<real>, window: real)
    ensures var uses := [Seed(now, times)] + [Attempt(now, now)];
      QueueAfter(uses, window) == Prune(Merge([], times), now - window) + [now] && History(uses) == times + [now]
  {
    hide Merge, Prune;
    var uses := [Seed(now, times)] + [Attempt(now, now)];
    QueueOfOne(now, times, window);
    assert uses[..|uses| - 1] == [Seed(now, times)] && uses[|uses| - 1] == Attempt(now, now);
  }

  /** An attempt right after the seed and a look a window later: the attempt is stale but stands behind the future one. */
  lemma StaleBehindFuture(now: real, times: seq<real>, window: real)
    requires window >= 0.0 && !NotAfter(times, now)
    ensures !Counts([Seed(now, times)] + [Attempt(now, now)], window, now + window)
  {
    hide Merge, Prune, CountAfter, QueueAfter, History, NotAfter, Ascending;
    var q := Merge([], times);
    SeedThenAttempt(now, times, window);
    SomeAfter(times, now);
    assert Ascending(q) && CountAfter(q, now) == CountAfter(times, now) by { MergedCounts(times, now); }
    PruneAscending(q, now);
    PruneTwice(q, now - window, now);
    PruneStops(Prune(q, now - window), now, now);
    CountTwo(times, [now], now);
    CountOne(now, now);
    assert now + window - window == now;
  }

  lemma MergedCounts(times: seq<real>, t: real)
    ensures Ascending(Merge([], times)) && CountAfter(Merge([], times), t) == CountAfter(times, t)
  {
    MergeKeepsOrder([], times);
    MergeCounts([], times, t);
  }

  /** Seeds can be trusted for every later use exactly when none is later than the reading they come with. */
  lemma TrustedExactly(now: real, times: seq<real>, window: real)
    requires window >= 0.0
    ensures Trusted(now, times, window) <==> NotAfter(times, now)
  {
    hide Counts;
    if NotAfter(times, now) {
      forall more, end | OnClock(more, now, end) ensures Counts([Seed(now, times)] + more, window, end) {
        SeededClock(Seed(now, times), more, end);
        CountsOnClock([Seed(now, times)] + more, window, now, end);
      }
    } else {
      var more := [Attempt(now, now)];
      assert more[..0] == [] && OnClock(more, now, now + window);
      StaleBehindFuture(now, times, window);
    }
  }

  // ---- attempts keep their distance ------------------------------------------------------------

  /** An attempt is let through by the look right before it, which found the window not full. There are no seeds. */
  ghost predicate LetThrough(uses: seq<Use>, n: nat, window: real, limit: nat)
    requires n < |uses|
  {
    && !uses[n].Seed?
    && (uses[n].Attempt? ==>
          n > 0 && uses[n - 1].Look? && |Prune(QueueAfter(uses[..n - 1], window), uses[n - 1].now - window)| < limit)
  }

  ghost predicate Gated(uses: seq<Use>, window: real, limit: nat) {
    forall n: nat | n < |uses| :: LetThrough(uses, n, window, limit)
  }

  lemma GatedBefore(uses: seq<Use>, window: real, limit: nat)
    requires uses != [] && Gated(uses, window, limit)
    ensures Gated(uses[..|uses| - 1], window, limit)
  {
    var front := uses[..|uses| - 1];
    forall n: nat | n < |front| ensures LetThrough(front, n, window, limit) {
      assert LetThrough(uses, n, window, limit);
      if n > 0 { assert front[..n - 1] == uses[..n - 1]; }
    }
  }

  lemma {:induction false} HistoryAscends(uses: seq<Use>, start: real, now: real)
    requires OnClock(uses, start, now) && forall use | use in uses :: !use.Seed?
    ensures Ascending(History(uses)) && NotAfter(History(uses), now)
  {
    if uses != [] {
      var last := uses[|uses| - 1];
      HistoryAscends(uses[..|uses| - 1], start, Began(last));
    }
  }

  /** Of an ascending list, fewer than `limit` are later than t only if the limit-th from the end is not. */
  lemma {:induction false} FewAreLate(h: seq<real>, t: real, limit: nat)
    requires Ascending(h) && CountAfter(h, t) < limit <= |h|
    ensures h[|h| - limit] <= t
  {
    if h[|h| - limit] > t {
      var a, b := h[..|h| - limit], h[|h| - limit..];
      assert h == a + b;
      CountTwo(a, b, t);
      CountAll(b, t);
      assert false;
    }
  }

  /** One attempt, after the look that let it through. */
  lemma NextKeepsDistance(before: seq<Use>, look: real, at: real, window: real, limit: nat, start: real)
    requires OnClock(before, start, look) && look <= at && forall use | use in before :: !use.Seed?
    requires |Prune(QueueAfter(before, window), look - window)| < limit <= |History(before)|
    ensures at - History(before)[|History(before)| - limit] >= window
  {
    HistoryAscends(before, start, look);
    ExhaustedIsHistory(before, window, start, look, limit);
    FewAreLate(History(before), look - window, limit);
  }

  lemma NoSeeds(uses: seq<Use>, window: real, limit: nat)
    requires Gated(uses, window, limit)
    ensures forall use | use in uses :: !use.Seed?
  {
    forall use | use in uses ensures !use.Seed? {
      var n: nat :| n < |uses| && uses[n] == use;
      assert LetThrough(uses, n, window, limit);
    }
  }

  lemma AfterLook(before: seq<Use>, look: Use)
    requires look.Look?
    ensures History(before + [look]) == History(before)
    ensures forall start, end :: OnClock(before + [look], start, end) ==> OnClock(before, start, look.now) && look.now <= end
  {
    assert (before + [look])[..|before|] == before;
    assert History(before) + [] == History(before);
  }

  /** Without seeding, an attempt and the one `limit` before it are at least a window apart: never more than `limit`
      allowed attempts in any window. */
  lemma {:induction false} AttemptsKeepDistance(uses: seq<Use>, window: real, limit: nat, start: real, end: real, k: nat)
    requires OnClock(uses, start, end) && Gated(uses, window, limit) && limit > 0
    requires k + limit < |History(uses)|
    ensures History(uses)[k + limit] - History(uses)[k] >= window
  {
    hide Queue, Prune, QueueAfter, CountAfter;
    var front, last := uses[..|uses| - 1], uses[|uses| - 1];
    GatedBefore(uses, window, limit);
    if k + limit < |History(front)| {
      AttemptsKeepDistance(front, window, limit, start, Began(last), k);
    } else {
      assert LetThrough(uses, |uses| - 1, window, limit);
      var before, look := uses[..|uses| - 2], uses[|uses| - 2];
      assert front == before + [look] && front[..|front| - 1] == before;
      AfterLook(before, look);
      GatedBefore(front, window, limit);
      NoSeeds(before, window, limit);
      NextKeepsDistance(before, look.now, last.at, window, limit, start);
    }
  }
}
