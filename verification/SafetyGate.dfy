/** The safety gate: which proposals go ahead, and the attempts it lets through. */
module SafetyGate {
  import opened Wrappers
  import opened SlidingWindow
  import A = Audit

  datatype GateName = Auto | SingleApproval | DualApproval | PullRequest | OtherGate(name: string)

  datatype Verdict = Allowed | Downgraded | Refused

  datatype Holder = NoHolder | Dead | Running | UnknownHolder

  /** `incoming` is the verdict the proposal already carries; `None` is a word the gate does not know. */
  datatype Remediation = Remediation(tier: int, action: string, gate: GateName, incoming: Option<Verdict>)

  datatype Facts = Facts(
    fingerprint: string, signatureMatch: bool, flakePrecedent: bool, knownTransient: bool, affected: int,
    shared: seq<string>, total: Option<int>, proposed: Option<int>, priorTier0Failed: bool, holder: Holder,
    deathProof: bool, dryRunOk: bool)

  datatype KillSwitch = KillSwitch(enabled: bool, tiers: map<int, bool>) {
    predicate Blocks(tier: int) { !enabled || tier !in tiers || !tiers[tier] }
  }

  datatype Reason =
    | UnknownTier | KillSwitchOff | WrongGate | SetUnknown | EmptySet | WholeSet | OverCeiling | SeveralShared | RateLimited
    | SecondFailure | NoSignature | NoPrecedent | HolderRunning | DeathUnproven | NoDryRun | Proceeds | NeverUpgraded

  datatype Decision = Decision(verdict: Verdict, reason: Reason, remediation: Remediation)

  function TierGate(tier: int): Option<GateName> {
    if tier == 0 then Some(Auto) else if tier == 1 then Some(SingleApproval)
    else if tier == 2 then Some(DualApproval) else if tier == 3 then Some(PullRequest) else None
  }

  // ---- the rules -------------------------------------------------------------------------------

  function Tier0(f: Facts): (Verdict, Reason) {
    if f.priorTier0Failed then (Refused, SecondFailure)
    else if !f.signatureMatch then (Downgraded, NoSignature)
    else if !(f.flakePrecedent || f.knownTransient) then (Downgraded, NoPrecedent)
    else (Allowed, Proceeds)
  }

  function Tier2(f: Facts): (Verdict, Reason) {
    if f.holder == Running then (Refused, HolderRunning)
    else if f.holder != Dead || !f.deathProof then (Downgraded, DeathUnproven)
    else if !f.dryRunOk then (Downgraded, NoDryRun)
    else (Allowed, Proceeds)
  }

  /** Everything before the rate limit; `None` goes on. */
  function BeforeLimit(p: Remediation, f: Facts, kill: KillSwitch, ceiling: int): Option<(Verdict, Reason)> {
    if TierGate(p.tier).None? then Some((Refused, UnknownTier))
    else if kill.Blocks(p.tier) then Some((Refused, KillSwitchOff))
    else if Some(p.gate) != TierGate(p.tier) then Some((Downgraded, WrongGate))
    else if p.tier != 3 && (f.proposed.None? || f.total.None?) then Some((Downgraded, SetUnknown))
    else if f.proposed.Some? && f.proposed.value <= 0 then Some((Refused, EmptySet))
    else if f.proposed.Some? && f.total.Some? && f.proposed.value >= f.total.value then Some((Refused, WholeSet))
    else if f.affected > ceiling then Some((Downgraded, OverCeiling))
    else if |set r | r in f.shared| > 1 then Some((Downgraded, SeveralShared))
    else None
  }

  function Evaluate(p: Remediation, f: Facts, kill: KillSwitch, ceiling: int, full: bool): (Verdict, Reason) {
    var early := BeforeLimit(p, f, kill, ceiling);
    if early.Some? then early.value
    else if full then (Refused, RateLimited)
    else if p.tier == 0 then Tier0(f)
    else if p.tier == 2 then Tier2(f)
    else (Allowed, Proceeds)
  }

  function Rank(v: Verdict): nat { if v == Allowed then 0 else if v == Downgraded then 1 else 2 }

  function RankOf(incoming: Option<Verdict>): nat { if incoming.Some? then Rank(incoming.value) else 2 }

  /** A verdict may only be replaced by a stronger one; an unknown one counts as refused. */
  function Combine(p: Remediation, found: (Verdict, Reason)): Decision {
    var (verdict, reason) := found;
    if RankOf(p.incoming) > Rank(verdict) then
      var kept := if p.incoming.Some? then p.incoming.value else Refused;
      Decision(kept, NeverUpgraded, p.(incoming := Some(kept)))
    else Decision(verdict, reason, p.(incoming := Some(verdict)))
  }

  // ---- what a verdict means --------------------------------------------------------------------

  /** The gate allows exactly this: an enabled tier with its own gate, a known, non-empty, partial set of resources
      within the ceiling and at most one of them shared, room in the window, and the tier's own proof. Tier 3 may
      leave the set unknown. */
  predicate Acceptable(p: Remediation, f: Facts, kill: KillSwitch, ceiling: int, full: bool) {
    && 0 <= p.tier <= 3 && kill.enabled && p.tier in kill.tiers && kill.tiers[p.tier]
    && (p.tier == 0 ==> p.gate == Auto) && (p.tier == 1 ==> p.gate == SingleApproval)
    && (p.tier == 2 ==> p.gate == DualApproval) && (p.tier == 3 ==> p.gate == PullRequest)
    && (p.tier < 3 ==> f.proposed.Some? && f.total.Some?)
    && (f.proposed.Some? ==> 0 < f.proposed.value && (f.total.Some? ==> f.proposed.value < f.total.value))
    && f.affected <= ceiling && (forall a, b | a in f.shared && b in f.shared :: a == b) && !full
    && (p.tier == 0 ==> !f.priorTier0Failed && f.signatureMatch && (f.flakePrecedent || f.knownTransient))
    && (p.tier == 2 ==> f.holder == Dead && f.deathProof && f.dryRunOk)
  }

  lemma AtMostOne(shared: seq<string>)
    ensures |set r | r in shared| > 1 <==> exists a, b :: a in shared && b in shared && a != b
  {
    var all := set r | r in shared;
    if a, b :| a in shared && b in shared && a != b {
      assert {a, b} <= all;
      SubsetSize({a, b}, all);
    } else if all != {} {
      var a :| a in all;
      assert all == {a};
    }
  }

  lemma SubsetSize<T>(small: set<T>, large: set<T>)
    requires small <= large
    ensures |small| <= |large|
  {
    assert large == small + (large - small);
  }

  lemma AllowedExactly(p: Remediation, f: Facts, kill: KillSwitch, ceiling: int, full: bool)
    ensures Combine(p, Evaluate(p, f, kill, ceiling, full)).verdict == Allowed
      <==> p.incoming == Some(Allowed) && Acceptable(p, f, kill, ceiling, full)
  {
    AtMostOne(f.shared);
  }

  /** The gate refuses outright what it does not know or what is switched off and, where the set is known and the gate the
      tier's own, an empty or a whole set; and, once nothing asks for a downgrade, a full window, a second Tier 0 attempt
      after a failed one and a lock whose holder runs. What it neither allows nor refuses, it downgrades. */
  lemma RefusedExactly(p: Remediation, f: Facts, kill: KillSwitch, ceiling: int, full: bool)
    ensures var known := 0 <= p.tier <= 3 && kill.enabled && p.tier in kill.tiers && kill.tiers[p.tier];
      var ownGate := p.gate == (if p.tier == 0 then Auto else if p.tier == 1 then SingleApproval else if p.tier == 2 then DualApproval else PullRequest);
      var setKnown := p.tier < 3 ==> f.proposed.Some? && f.total.Some?;
      var partial := f.proposed.Some? ==> 0 < f.proposed.value && (f.total.Some? ==> f.proposed.value < f.total.value);
      var narrow := f.affected <= ceiling && forall a, b | a in f.shared && b in f.shared :: a == b;
      Evaluate(p, f, kill, ceiling, full).0 == Refused <==>
        || !known
        || (ownGate && setKnown && !partial)
        || (ownGate && setKnown && narrow && (full || (p.tier == 0 && f.priorTier0Failed) || (p.tier == 2 && f.holder == Running)))
  {
    AtMostOne(f.shared);
  }

  /** The gate only ever says no: never weaker than what the proposal carried or than its own finding, and it leaves the
      tier, action and gate alone. */
  lemma OnlyDowngrades(p: Remediation, found: (Verdict, Reason))
    ensures var d := Combine(p, found);
      && Rank(d.verdict) >= RankOf(p.incoming) && Rank(d.verdict) >= Rank(found.0)
      && (Rank(d.verdict) == RankOf(p.incoming) || Rank(d.verdict) == Rank(found.0))
      && d.remediation == p.(incoming := Some(d.verdict))
  {}

  // ---- the limiter -----------------------------------------------------------------------------

  function At<T>(m: map<string, seq<T>>, key: string): seq<T> { if key in m then m[key] else [] }

  /** Each queue is what its fingerprint's uses make it. */
  ghost predicate StandsFor(attempts: map<string, seq<real>>, uses: map<string, seq<Use>>, window: real) {
    forall fingerprint :: At(attempts, fingerprint) == QueueAfter(At(uses, fingerprint), window)
  }

  lemma OneMore(attempts: map<string, seq<real>>, uses: map<string, seq<Use>>, window: real, key: string, use: Use)
    requires StandsFor(attempts, uses, window)
    ensures StandsFor(attempts[key := Queue(At(attempts, key), use, window)], uses[key := At(uses, key) + [use]], window)
  {
    var after, used := attempts[key := Queue(At(attempts, key), use, window)], uses[key := At(uses, key) + [use]];
    forall fingerprint ensures At(after, fingerprint) == QueueAfter(At(used, fingerprint), window) {
      assert At(attempts, fingerprint) == QueueAfter(At(uses, fingerprint), window);
      if fingerprint == key { assert (At(uses, key) + [use])[..|At(uses, key)|] == At(uses, key); }
    }
  }

  class RateLimiter {
    const limit: nat
    const window: real
    var attempts: map<string, seq<real>>
    ghost var uses: map<string, seq<Use>> // everything ever asked of it

    ghost predicate Valid()
      reads this
    {
      StandsFor(attempts, uses, window)
    }

    constructor (limit: nat, window: real)
      ensures Valid() && this.limit == limit && this.window == window && uses == map[]
    {
      this.limit, this.window, attempts, uses := limit, window, map[], map[];
    }

    method PruneQueue(fingerprint: string, now: real)
      modifies this`attempts
      ensures attempts == old(attempts)[fingerprint := Prune(At(old(attempts), fingerprint), now - window)]
    {
      var q, cutoff := At(attempts, fingerprint), now - window;
      ghost var whole := q;
      while q != [] && q[0] <= cutoff
        invariant Prune(whole, cutoff) == Prune(q, cutoff)
        decreases |q|
      {
        q := q[1..];
      }
      attempts := attempts[fingerprint := q];
    }

    /** Full exactly when the whole history has `limit` attempts in the window, on a clock that does not run
        backwards. */
    method Exhausted(fingerprint: string, now: real) returns (full: bool)
      requires Valid()
      modifies this
      ensures Valid() && uses == old(uses)[fingerprint := At(old(uses), fingerprint) + [Look(now)]]
      ensures full <==> |Prune(QueueAfter(At(old(uses), fingerprint), window), now - window)| >= limit
      ensures forall start | OnClock(At(old(uses), fingerprint), start, now) ::
        full <==> CountAfter(History(At(old(uses), fingerprint)), now - window) >= limit
    {
      hide OnClock, CountAfter, Prune, QueueAfter, History;
      ghost var before := At(uses, fingerprint);
      OneMore(attempts, uses, window, fingerprint, Look(now));
      PruneQueue(fingerprint, now);
      uses := uses[fingerprint := before + [Look(now)]];
      forall start | OnClock(before, start, now)
        ensures |Prune(QueueAfter(before, window), now - window)| >= limit <==> CountAfter(History(before), now - window) >= limit
      {
        ExhaustedIsHistory(before, window, start, now, limit);
      }
      return |attempts[fingerprint]| >= limit;
    }

    method Record(fingerprint: string, pruned: real, at: real)
      requires Valid()
      modifies this
      ensures Valid() && uses == old(uses)[fingerprint := At(old(uses), fingerprint) + [Attempt(pruned, at)]]
    {
      ghost var before := At(uses, fingerprint);
      OneMore(attempts, uses, window, fingerprint, Attempt(pruned, at));
      ghost var start := attempts;
      PruneQueue(fingerprint, pruned);
      attempts := attempts[fingerprint := attempts[fingerprint] + [at]];
      assert attempts == start[fingerprint := Queue(At(start, fingerprint), Attempt(pruned, at), window)];
      uses := uses[fingerprint := before + [Attempt(pruned, at)]];
    }

    method Preload(fingerprint: string, ghost now: real, times: seq<real>)
      requires Valid()
      modifies this
      ensures Valid() && uses == old(uses)[fingerprint := At(old(uses), fingerprint) + [Seed(now, times)]]
    {
      ghost var before := At(uses, fingerprint);
      OneMore(attempts, uses, window, fingerprint, Seed(now, times));
      attempts := attempts[fingerprint := Merge(At(attempts, fingerprint), times)];
      uses := uses[fingerprint := before + [Seed(now, times)]];
    }
  }

  // ---- the gate --------------------------------------------------------------------------------

  lemma GatedNext(uses: seq<Use>, window: real, limit: nat, look: real, attempt: Option<(real, real)>)
    requires Gated(uses, window, limit)
    requires attempt.Some? ==> |Prune(QueueAfter(uses, window), look - window)| < limit
    ensures Gated(uses + [Look(look)] + (if attempt.Some? then [Attempt(attempt.value.0, attempt.value.1)] else []), window, limit)
  {
    var all := uses + [Look(look)] + (if attempt.Some? then [Attempt(attempt.value.0, attempt.value.1)] else []);
    forall n: nat | n < |all| ensures LetThrough(all, n, window, limit) {
      if n < |uses| {
        assert LetThrough(uses, n, window, limit);
        if n > 0 { assert all[..n - 1] == uses[..n - 1]; }
      } else if n == |uses| + 1 {
        assert all[..n - 1] == uses;
      }
    }
  }

  lemma AllowedHadRoom(p: Remediation, f: Facts, kill: KillSwitch, ceiling: int, full: bool)
    ensures Combine(p, Evaluate(p, f, kill, ceiling, full)).verdict == Allowed ==> BeforeLimit(p, f, kill, ceiling).None? && !full
  {}

  lemma EarlyIgnoresWindow(p: Remediation, f: Facts, kill: KillSwitch, ceiling: int)
    ensures BeforeLimit(p, f, kill, ceiling).Some? ==> Evaluate(p, f, kill, ceiling, true) == Evaluate(p, f, kill, ceiling, false)
  {}

  /** Looking adds nothing to the history, an attempt its time. */
  lemma HistoryGrows(uses: seq<Use>, looked: real, pruned: real, at: real)
    ensures History(uses + [Look(looked)]) == History(uses)
    ensures History(uses + [Look(looked)] + [Attempt(pruned, at)]) == History(uses) + [at]
  {
    assert (uses + [Look(looked)])[..|uses|] == uses;
    var more := uses + [Look(looked)];
    assert (more + [Attempt(pruned, at)])[..|more|] == more;
  }

  class SafetyGate {
    const limiter: RateLimiter
    const ceiling: int

    constructor (limiter: RateLimiter, ceiling: int)
      ensures this.limiter == limiter && this.ceiling == ceiling
    {
      this.limiter, this.ceiling := limiter, ceiling;
    }

    /** The switch is read afresh; the window is looked at only when nothing earlier decides, and an attempt is recorded
        only when the decision is to allow. */
    method Decide(p: Remediation, f: Facts, kill: KillSwitch, looked: real, pruned: real, at: real)
      returns (d: Decision)
      requires limiter.Valid()
      modifies limiter
      ensures limiter.Valid()
      ensures var full := |Prune(QueueAfter(At(old(limiter.uses), f.fingerprint), limiter.window), looked - limiter.window)| >= limiter.limit;
        && d == Combine(p, Evaluate(p, f, kill, ceiling, full))
        && (d.verdict == Allowed <==> p.incoming == Some(Allowed) && Acceptable(p, f, kill, ceiling, full))
      ensures forall other | other != f.fingerprint :: At(limiter.uses, other) == At(old(limiter.uses), other)
      ensures var before := At(old(limiter.uses), f.fingerprint);
        At(limiter.uses, f.fingerprint) ==
          if BeforeLimit(p, f, kill, ceiling).Some? then before
          else if d.verdict == Allowed then before + [Look(looked)] + [Attempt(pruned, at)]
          else before + [Look(looked)]
      ensures var uses := old(limiter.uses);
        History(At(limiter.uses, f.fingerprint)) == History(At(uses, f.fingerprint)) + if d.verdict == Allowed then [at] else []
      ensures Gated(At(old(limiter.uses), f.fingerprint), limiter.window, limiter.limit) ==>
        Gated(At(limiter.uses, f.fingerprint), limiter.window, limiter.limit)
    {
      hide Combine, Evaluate, BeforeLimit, Prune, QueueAfter, Gated, Acceptable, History;
      ghost var before := At(limiter.uses, f.fingerprint);
      AllowedExactly(p, f, kill, ceiling, |Prune(QueueAfter(before, limiter.window), looked - limiter.window)| >= limiter.limit);
      var early, full := BeforeLimit(p, f, kill, ceiling), false;
      if early.None? { full := limiter.Exhausted(f.fingerprint, looked); }
      AllowedHadRoom(p, f, kill, ceiling, full);
      EarlyIgnoresWindow(p, f, kill, ceiling);
      d := Combine(p, Evaluate(p, f, kill, ceiling, full));
      if d.verdict == Allowed { limiter.Record(f.fingerprint, pruned, at); }
      HistoryGrows(before, looked, pruned, at);
      if early.None? && Gated(before, limiter.window, limiter.limit) {
        GatedNext(before, limiter.window, limiter.limit, looked, if d.verdict == Allowed then Some((pruned, at)) else None);
        assert before + [Look(looked)] + [] == before + [Look(looked)];
      }
    }
  }

  const LIMIT := 2
  const WINDOW := 3600.0

  /** However the gate was used, without seeding: any three attempts it allowed on a fingerprint span at least an
      hour. */
  lemma ThreeSpanAnHour(uses: seq<Use>, start: real, end: real, i: nat, j: nat, k: nat)
    requires OnClock(uses, start, end) && Gated(uses, WINDOW, LIMIT)
    requires i < j < k < |History(uses)|
    ensures History(uses)[k] - History(uses)[i] >= 3600.0
  {
    NoSeeds(uses, WINDOW, LIMIT);
    HistoryAscends(uses, start, end);
    AttemptsKeepDistance(uses, WINDOW, LIMIT, start, end, i);
  }

  // ---- seeding from the audit log --------------------------------------------------------------

  predicate IsAttempt(e: A.Entry, fingerprint: string, own: Option<nat>) {
    && e.note.kind == A.GateDecision && e.note.stage == A.NoStage && e.note.fingerprint == fingerprint
    && e.note.ok == Some(true) && Some(e.seqNo) != own
  }

  /** The times of every earlier allowed attempt in the log, `own` being the request's own decision. */
  function LoggedAttempts(log: seq<A.Entry>, fingerprint: string, own: Option<nat>): seq<real> {
    if log == [] then []
    else
      var last := log[|log| - 1];
      LoggedAttempts(log[..|log| - 1], fingerprint, own) + (if IsAttempt(last, fingerprint, own) then [last.at] else [])
  }

  /** Counted, once each and in order, are the decisions that allowed something on the fingerprint, except rechecks, which
      carry a stage, and the request's own. */
  lemma {:induction false} LoggedExactly(log: seq<A.Entry>, fingerprint: string, own: Option<nat>, last: A.Entry)
    ensures LoggedAttempts(log + [last], fingerprint, own) == LoggedAttempts(log, fingerprint, own)
      + if last.note.kind == A.GateDecision && last.note.stage == A.NoStage && last.note.fingerprint == fingerprint
           && last.note.ok == Some(true) && own != Some(last.seqNo) then [last.at] else []
  {
    assert (log + [last])[..|log|] == log;
  }

  /** The times a fresh limiter is seeded with: those still inside the window. */
  function SeedTimes(log: seq<A.Entry>, fingerprint: string, own: Option<nat>, now: real): seq<real> {
    if log == [] then []
    else
      var last := log[|log| - 1];
      SeedTimes(log[..|log| - 1], fingerprint, own, now)
      + (if IsAttempt(last, fingerprint, own) && last.at > now - WINDOW then [last.at] else [])
  }

  lemma AddOne(times: seq<real>, at: real, added: bool, t: real)
    ensures CountAfter(times + (if added then [at] else []), t) == CountAfter(times, t) + (if added && at > t then 1 else 0)
  {
    CountTwo(times, if added then [at] else [], t);
    CountOne(at, t);
  }

  function Later(a: real, b: real): real { if a <= b then b else a }

  lemma {:induction false} SeedsCount(log: seq<A.Entry>, fingerprint: string, own: Option<nat>, now: real, t: real)
    ensures CountAfter(SeedTimes(log, fingerprint, own, now), t)
      == CountAfter(LoggedAttempts(log, fingerprint, own), Later(t, now - WINDOW))
  {
    hide CountAfter, IsAttempt;
    if log == [] {
      CountNone(t, Later(t, now - WINDOW));
    } else {
      var front, last := log[..|log| - 1], log[|log| - 1];
      SeedsCount(front, fingerprint, own, now, t);
      var attempt := IsAttempt(last, fingerprint, own);
      AddOne(SeedTimes(front, fingerprint, own, now), last.at, attempt && last.at > now - WINDOW, t);
      AddOne(LoggedAttempts(front, fingerprint, own), last.at, attempt, Later(t, now - WINDOW));
    }
  }

  lemma CountNone(s: real, t: real)
    ensures CountAfter([], s) == CountAfter([], t)
  {}

  /** A fresh limiter seeded from the log counts what the log itself shows in the window, whatever the log's times: the
      window of the later of the two readings, when the clock went back between seeding and looking. */
  lemma SeededGateCountsTheLog(log: seq<A.Entry>, fingerprint: string, own: Option<nat>, now: real, looked: real)
    ensures var uses := [Seed(now, SeedTimes(log, fingerprint, own, now))];
      |Prune(QueueAfter(uses, WINDOW), looked - WINDOW)| == CountAfter(LoggedAttempts(log, fingerprint, own), Later(now, looked) - WINDOW)
  {
    hide QueueAfter, Prune, CountAfter, Merge, SeedTimes, LoggedAttempts, Ascending;
    var times := SeedTimes(log, fingerprint, own, now);
    assert Later(looked - WINDOW, now - WINDOW) == Later(now, looked) - WINDOW;
    SeedsCount(log, fingerprint, own, now, looked - WINDOW);
    QueueOfOne(now, times, WINDOW);
    MergedCounts(times, looked - WINDOW);
    PruneAscending(Merge([], times), looked - WINDOW);
  }
}
