/** The in-process rate limiter: one token bucket per subject, with idle eviction. Time is in ms. */
module TokenBucket {
  import opened Wrappers

  type Subject = string

  datatype Config = Config(capacity: real, refillPerMs: real, idleEvictMs: real) {
    /** What the constructor insists on; the idle window is a length of time. */
    predicate Valid() { capacity > 0.0 && refillPerMs >= 0.0 && idleEvictMs >= 0.0 }
  }

  datatype Bucket = Bucket(tokens: real, lastRefillMs: real)

  datatype State = State(buckets: map<Subject, Bucket>, lastGcAt: real)

  /** `None` as the retry time is `Infinity`. */
  datatype Reply = Reply(ok: bool, retryAfterMs: Option<int>, remaining: real)

  function Min(x: real, y: real): real { if x <= y then x else y }

  function Ceil(x: real): int { -(-x).Floor }

  const Slack: real := 0.000001

  // ---------------------------------------------------------------- The operations as functions

  predicate Evicts(cfg: Config, b: Bucket, now: real) {
    now - b.lastRefillMs > cfg.idleEvictMs && b.tokens >= cfg.capacity - Slack
  }

  function Collect(cfg: Config, s: State, now: real): State {
    if now - s.lastGcAt < cfg.idleEvictMs then s
    else State(map k | k in s.buckets && !Evicts(cfg, s.buckets[k], now) :: s.buckets[k], now)
  }

  function Refill(cfg: Config, s: State, subject: Subject, now: real): Bucket {
    if subject !in s.buckets then Bucket(cfg.capacity, now)
    else
      var b := s.buckets[subject];
      var elapsed := now - b.lastRefillMs;
      if elapsed > 0.0 && cfg.refillPerMs > 0.0 then
        Bucket(Min(cfg.capacity, b.tokens + Gain(cfg, elapsed)), now)
      else Bucket(b.tokens, now)
  }

  function TryReply(cfg: Config, s: State, subject: Subject, cost: real, now: real): Reply {
    if cost <= 0.0 then Reply(true, Some(0), cfg.capacity)
    else
      var b := Refill(cfg, Collect(cfg, s, now), subject, now);
      if b.tokens >= cost then Reply(true, Some(0), (b.tokens - cost).Floor as real)
      else
        Reply(false,
              if cfg.refillPerMs > 0.0 then Some(Ceil((cost - b.tokens) / cfg.refillPerMs)) else None,
              b.tokens.Floor as real)
  }

  function TryState(cfg: Config, s: State, subject: Subject, cost: real, now: real): State {
    if cost <= 0.0 then s
    else
      var c := Collect(cfg, s, now);
      var b := Refill(cfg, c, subject, now);
      c.(buckets := c.buckets[subject := if b.tokens >= cost then b.(tokens := b.tokens - cost) else b])
  }

  // ---------------------------------------------------------------- The level a subject sees

  /** Bucket contents are between empty and full and were refilled in the past. */
  ghost predicate Sane(cfg: Config, s: State, now: real) {
    forall k :: k in s.buckets ==> 0.0 <= s.buckets[k].tokens <= cfg.capacity && s.buckets[k].lastRefillMs <= now
  }

  /** What flows in during `dt` ms. */
  function Gain(cfg: Config, dt: real): real { dt * cfg.refillPerMs }

  lemma GainAdds(cfg: Config, a: real, b: real)
    ensures Gain(cfg, a + b) == Gain(cfg, a) + Gain(cfg, b)
  {
  }

  lemma GainGrows(cfg: Config, a: real, b: real)
    requires cfg.Valid() && a <= b
    ensures Gain(cfg, a) <= Gain(cfg, b)
  {
    Times(a, b, cfg.refillPerMs);
  }

  lemma GainOfNothing(cfg: Config)
    ensures Gain(cfg, 0.0) == 0.0
  {
  }

  /** The tokens a request of this subject would find at time `t`. */
  function Level(cfg: Config, s: State, subject: Subject, t: real): real {
    if subject in s.buckets
    then Min(cfg.capacity, s.buckets[subject].tokens + Gain(cfg, t - s.buckets[subject].lastRefillMs))
    else cfg.capacity
  }

  /** An idle window long enough to refill what eviction forgives. */
  predicate Patient(cfg: Config) {
    Gain(cfg, cfg.idleEvictMs) >= Min(Slack, cfg.capacity)
  }

  lemma Times(a: real, b: real, c: real)
    requires a <= b && c >= 0.0
    ensures a * c <= b * c
  {
    assert (b - a) * c >= 0.0;
  }

  /** What an evicted bucket would have held anyway. */
  lemma EvictedIsFull(cfg: Config, b: Bucket, now: real, t: real)
    requires cfg.Valid() && Patient(cfg) && 0.0 <= b.tokens && Evicts(cfg, b, now) && now <= t
    ensures b.tokens + Gain(cfg, t - b.lastRefillMs) >= cfg.capacity
  {
    GainGrows(cfg, cfg.idleEvictMs, t - b.lastRefillMs);
  }

  /** Eviction is unobservable: it changes no level, now or later. */
  lemma CollectKeepsLevel(cfg: Config, s: State, subject: Subject, now: real, t: real)
    requires cfg.Valid() && Patient(cfg) && Sane(cfg, s, now) && now <= t
    ensures Level(cfg, Collect(cfg, s, now), subject, t) == Level(cfg, s, subject, t)
  {
    if subject in s.buckets && Evicts(cfg, s.buckets[subject], now) {
      EvictedIsFull(cfg, s.buckets[subject], now, t);
    }
  }

  lemma RefillIsLevel(cfg: Config, s: State, subject: Subject, now: real)
    requires cfg.Valid() && Sane(cfg, s, now)
    ensures Refill(cfg, s, subject, now) == Bucket(Level(cfg, s, subject, now), now)
    ensures 0.0 <= Level(cfg, s, subject, now) <= cfg.capacity
  {
    if subject in s.buckets {
      GainOfNothing(cfg);
      GainGrows(cfg, 0.0, now - s.buckets[subject].lastRefillMs);
    }
  }

  /** A request finds the level, is granted exactly when the level covers it, and leaves the rest. */
  lemma TryMeetsLevel(cfg: Config, s: State, subject: Subject, cost: real, now: real)
    requires cfg.Valid() && Patient(cfg) && Sane(cfg, s, now) && cost > 0.0
    ensures var level := Level(cfg, s, subject, now);
      var reply, after := TryReply(cfg, s, subject, cost, now), TryState(cfg, s, subject, cost, now);
      && 0.0 <= level <= cfg.capacity
      && (reply.ok <==> cost <= level)
      && (reply.ok ==> reply.retryAfterMs == Some(0))
      && (!reply.ok && cfg.refillPerMs > 0.0 ==> reply.retryAfterMs == Some(Ceil((cost - level) / cfg.refillPerMs)))
      && reply.remaining == (if reply.ok then level - cost else level).Floor as real
      && subject in after.buckets
      && after.buckets[subject] == Bucket(if reply.ok then level - cost else level, now)
      && Sane(cfg, after, now)
  {
    CollectKeepsLevel(cfg, s, subject, now, now);
    RefillIsLevel(cfg, Collect(cfg, s, now), subject, now);
  }

  /** Whatever the clock does, a refill takes nothing away and fills no more than the capacity. */
  lemma RefillOnlyAdds(cfg: Config, s: State, subject: Subject, now: real)
    requires cfg.Valid() && (subject in s.buckets ==> 0.0 <= s.buckets[subject].tokens <= cfg.capacity)
    ensures Refill(cfg, s, subject, now).lastRefillMs == now
    ensures if subject in s.buckets then s.buckets[subject].tokens <= Refill(cfg, s, subject, now).tokens <= cfg.capacity
            else Refill(cfg, s, subject, now).tokens == cfg.capacity
    ensures subject in s.buckets && now <= s.buckets[subject].lastRefillMs ==>
              Refill(cfg, s, subject, now).tokens == s.buckets[subject].tokens
  {
    if subject in s.buckets && now > s.buckets[subject].lastRefillMs {
      GainOfNothing(cfg);
      GainGrows(cfg, 0.0, now - s.buckets[subject].lastRefillMs);
    }
  }

  /** A request that costs nothing is granted at once and leaves no trace. */
  lemma FreeIsGranted(cfg: Config, s: State, subject: Subject, cost: real, now: real)
    requires cost <= 0.0
    ensures TryReply(cfg, s, subject, cost, now) == Reply(true, Some(0), cfg.capacity)
    ensures TryState(cfg, s, subject, cost, now) == s
  {
  }

  /**
   * The collector runs at most once per idle window. Between its runs a request touches only its own
   * bucket; when it runs, it also forgets exactly the buckets that are idle and full to within the slack.
   */
  lemma CollectsSeldom(cfg: Config, s: State, subject: Subject, cost: real, now: real, other: Subject)
    requires cfg.Valid() && cost > 0.0 && other != subject
    ensures var after := TryState(cfg, s, subject, cost, now);
      if now - s.lastGcAt < cfg.idleEvictMs then
        && after.lastGcAt == s.lastGcAt
        && (other in after.buckets <==> other in s.buckets)
        && (other in s.buckets ==> after.buckets[other] == s.buckets[other])
      else
        && after.lastGcAt == now
        && (other in after.buckets <==>
              other in s.buckets && !(now - s.buckets[other].lastRefillMs > cfg.idleEvictMs &&
                                      s.buckets[other].tokens >= cfg.capacity - Slack))
        && (other in after.buckets ==> after.buckets[other] == s.buckets[other])
  {
  }

  /** A request never moves the level of another subject. */
  lemma TryKeepsOthers(cfg: Config, s: State, subject: Subject, cost: real, now: real, other: Subject, t: real)
    requires cfg.Valid() && Patient(cfg) && Sane(cfg, s, now) && now <= t && other != subject
    ensures Level(cfg, TryState(cfg, s, subject, cost, now), other, t) == Level(cfg, s, other, t)
  {
    CollectKeepsLevel(cfg, s, other, now, t);
  }

  /** A bucket touched at `now` shows its tokens at `now`. */
  lemma LevelOfTouched(cfg: Config, s: State, subject: Subject, now: real)
    requires subject in s.buckets && s.buckets[subject].lastRefillMs == now && s.buckets[subject].tokens <= cfg.capacity
    ensures Level(cfg, s, subject, now) == s.buckets[subject].tokens
  {
    GainOfNothing(cfg);
    assert now - now == 0.0;
  }

  // ---------------------------------------------------------------- Runs

  datatype Request = Request(subject: Subject, cost: real, now: real)

  predicate Nondecreasing(reqs: seq<Request>, from: real) {
    forall i :: 0 <= i < |reqs| ==> from <= reqs[i].now && forall j :: i < j < |reqs| ==> reqs[i].now <= reqs[j].now
  }

  function Run(cfg: Config, s: State, reqs: seq<Request>): State
    decreases |reqs|
  {
    if reqs == [] then s
    else Run(cfg, TryState(cfg, s, reqs[0].subject, reqs[0].cost, reqs[0].now), reqs[1..])
  }

  /** The tokens granted to `subject` by these requests, made from state `s`. */
  function Granted(cfg: Config, s: State, reqs: seq<Request>, subject: Subject): real
    decreases |reqs|
  {
    if reqs == [] then 0.0
    else
      var r := reqs[0];
      (if r.subject == subject && r.cost > 0.0 && TryReply(cfg, s, r.subject, r.cost, r.now).ok then r.cost else 0.0) +
      Granted(cfg, TryState(cfg, s, r.subject, r.cost, r.now), reqs[1..], subject)
  }

  function EndOf(reqs: seq<Request>, from: real): real { if reqs == [] then from else reqs[|reqs| - 1].now }

  /** One request pays for what it grants out of the level at its time. */
  lemma StepPays(cfg: Config, s: State, r: Request, subject: Subject)
    requires cfg.Valid() && Patient(cfg) && Sane(cfg, s, r.now)
    ensures var after := TryState(cfg, s, r.subject, r.cost, r.now);
      var granted :=
        if r.subject == subject && r.cost > 0.0 && TryReply(cfg, s, r.subject, r.cost, r.now).ok then r.cost else 0.0;
      Sane(cfg, after, r.now) && granted + Level(cfg, after, subject, r.now) == Level(cfg, s, subject, r.now)
  {
    if r.cost > 0.0 {
      TryMeetsLevel(cfg, s, r.subject, r.cost, r.now);
      if r.subject == subject {
        LevelOfTouched(cfg, TryState(cfg, s, r.subject, r.cost, r.now), subject, r.now);
      } else {
        TryKeepsOthers(cfg, s, r.subject, r.cost, r.now, subject, r.now);
      }
    }
  }

  lemma LevelGrows(cfg: Config, s: State, subject: Subject, from: real, t: real)
    requires cfg.Valid() && Sane(cfg, s, from) && from <= t
    ensures Level(cfg, s, subject, t) <= Level(cfg, s, subject, from) + Gain(cfg, t - from)
    ensures Level(cfg, s, subject, from) <= cfg.capacity
  {
    GainOfNothing(cfg);
    GainGrows(cfg, 0.0, t - from);
    if subject in s.buckets {
      var last := s.buckets[subject].lastRefillMs;
      GainAdds(cfg, from - last, t - from);
      assert from - last + (t - from) == t - last;
    }
  }

  lemma {:induction false} RunPays(cfg: Config, s: State, reqs: seq<Request>, subject: Subject, from: real)
    requires cfg.Valid() && Patient(cfg) && Sane(cfg, s, from) && Nondecreasing(reqs, from)
    ensures Granted(cfg, s, reqs, subject) + Level(cfg, Run(cfg, s, reqs), subject, EndOf(reqs, from)) <=
            Level(cfg, s, subject, from) + Gain(cfg, EndOf(reqs, from) - from)
    ensures Sane(cfg, Run(cfg, s, reqs), EndOf(reqs, from))
    decreases |reqs|
  {
    if reqs != [] {
      var r, end := reqs[0], EndOf(reqs, from);
      LevelGrows(cfg, s, subject, from, r.now);
      StepPays(cfg, s, r, subject);
      RunPays(cfg, TryState(cfg, s, r.subject, r.cost, r.now), reqs[1..], subject, r.now);
      var after := TryState(cfg, s, r.subject, r.cost, r.now);
      assert EndOf(reqs[1..], r.now) == end && Run(cfg, s, reqs) == Run(cfg, after, reqs[1..]);
      GainAdds(cfg, r.now - from, end - r.now);
      assert r.now - from + (end - r.now) == end - from;
      Chain(
        Granted(cfg, s, reqs, subject) - Granted(cfg, after, reqs[1..], subject),
        Granted(cfg, after, reqs[1..], subject),
        Level(cfg, s, subject, from), Level(cfg, s, subject, r.now), Level(cfg, after, subject, r.now),
        Level(cfg, Run(cfg, s, reqs), subject, end),
        Gain(cfg, r.now - from), Gain(cfg, end - r.now), Gain(cfg, end - from));
    }
  }

  /** The sums of `RunPays`, without the products in them. */
  lemma Chain(first: real, rest: real, atFrom: real, before: real, after: real, atEnd: real, x: real, y: real, z: real)
    requires before <= atFrom + x && first + after == before && rest + atEnd <= after + y && z == x + y
    ensures first + rest + atEnd <= atFrom + z
  {
  }

  const Start: State := State(map[], 0.0)

  lemma SaneLater(cfg: Config, s: State, now: real, t: real)
    requires Sane(cfg, s, now) && now <= t
    ensures Sane(cfg, s, t)
  {
  }

  /** In every window of every run: no more than the capacity plus what flows in during the window. */
  ghost predicate Bounded(cfg: Config) {
    forall before: seq<Request>, window: seq<Request>, subject: Subject ::
      window != [] && Nondecreasing(before + window, 0.0) ==>
        Granted(cfg, Run(cfg, Start, before), window, subject) <=
        cfg.capacity + Gain(cfg, EndOf(window, 0.0) - window[0].now)
  }

  lemma WindowBound(cfg: Config, before: seq<Request>, window: seq<Request>, subject: Subject)
    requires cfg.Valid() && Patient(cfg) && window != [] && Nondecreasing(before + window, 0.0)
    ensures Granted(cfg, Run(cfg, Start, before), window, subject) <=
            cfg.capacity + Gain(cfg, EndOf(window, 0.0) - window[0].now)
  {
    var reqs, t := before + window, window[0].now;
    forall i | 0 <= i < |before| ensures before[i] == reqs[i] {
    }
    forall i | 0 <= i < |window| ensures window[i] == reqs[|before| + i] {
    }
    RunPays(cfg, Start, before, subject, 0.0);
    var s := Run(cfg, Start, before);
    assert EndOf(before, 0.0) <= t;
    SaneLater(cfg, s, EndOf(before, 0.0), t);
    RunPays(cfg, s, window, subject, t);
    RefillIsLevel(cfg, s, subject, t);
    RefillIsLevel(cfg, Run(cfg, s, window), subject, EndOf(window, t));
    assert EndOf(window, t) == EndOf(window, 0.0);
    Chain(0.0, Granted(cfg, s, window, subject), cfg.capacity, Level(cfg, s, subject, t), Level(cfg, s, subject, t),
          Level(cfg, Run(cfg, s, window), subject, EndOf(window, t)),
          0.0, Gain(cfg, EndOf(window, t) - t), Gain(cfg, EndOf(window, 0.0) - t));
  }

  /** Spend the slack, wait to be evicted, then spend a whole bucket. */
  function Overdraw(cfg: Config, delta: real): seq<Request> {
    [Request("s", Min(Slack, cfg.capacity), cfg.idleEvictMs),
     Request("s", cfg.capacity, cfg.idleEvictMs + cfg.idleEvictMs + delta)]
  }

  lemma OverdrawGrants(cfg: Config, delta: real)
    requires cfg.Valid() && delta > 0.0
    ensures Granted(cfg, Start, Overdraw(cfg, delta), "s") == Min(Slack, cfg.capacity) + cfg.capacity
  {
    var c, reqs := Min(Slack, cfg.capacity), Overdraw(cfg, delta);
    assert Collect(cfg, Start, cfg.idleEvictMs).buckets == map[];
    var s1 := TryState(cfg, Start, "s", c, cfg.idleEvictMs);
    assert s1 == State(map["s" := Bucket(cfg.capacity - c, cfg.idleEvictMs)], cfg.idleEvictMs);
    assert Evicts(cfg, s1.buckets["s"], reqs[1].now);
    assert Collect(cfg, s1, reqs[1].now).buckets == map[];
    assert TryReply(cfg, s1, "s", cfg.capacity, reqs[1].now).ok;
    assert Granted(cfg, s1, [reqs[1]], "s") == cfg.capacity by {
      assert [reqs[1]][1..] == [];
    }
    assert reqs[1..] == [reqs[1]] && [reqs[1]][1..] == [];
  }

  /** The bound holds for every run exactly when the idle window refills what an eviction forgives. */
  lemma BoundedIffPatient(cfg: Config)
    requires cfg.Valid()
    ensures Bounded(cfg) <==> Patient(cfg)
  {
    if Patient(cfg) {
      forall before: seq<Request>, window: seq<Request>, subject: Subject
        | window != [] && Nondecreasing(before + window, 0.0)
        ensures Granted(cfg, Run(cfg, Start, before), window, subject) <=
                cfg.capacity + Gain(cfg, EndOf(window, 0.0) - window[0].now)
      {
        WindowBound(cfg, before, window, subject);
      }
    } else {
      OverdrawBreaksBound(cfg);
    }
  }

  lemma OverdrawBreaksBound(cfg: Config)
    requires cfg.Valid() && !Patient(cfg)
    ensures !Bounded(cfg)
  {
    var idle, rate, slack := cfg.idleEvictMs, cfg.refillPerMs, Min(Slack, cfg.capacity);
    var delta := ShortEnough(slack - Gain(cfg, idle), rate);
    var window := Overdraw(cfg, delta);
    OverdrawGrants(cfg, delta);
    GainAdds(cfg, idle, delta);
    assert EndOf(window, 0.0) - window[0].now == idle + delta;
    assert [] + window == window && Run(cfg, Start, []) == Start;
    assert Nondecreasing([] + window, 0.0);
    assert Granted(cfg, Run(cfg, Start, []), window, "s") >
           cfg.capacity + Gain(cfg, EndOf(window, 0.0) - window[0].now);
  }

  lemma ShortEnough(gap: real, rate: real) returns (delta: real)
    requires gap > 0.0 && rate >= 0.0
    ensures delta > 0.0 && delta * rate < gap
  {
    if rate == 0.0 {
      delta := 1.0;
    } else {
      delta := gap / (2.0 * rate);
      assert delta * rate == gap / 2.0;
    }
  }

  // ---------------------------------------------------------------- Retry-After

  lemma CeilBounds(x: real)
    ensures (Ceil(x) - 1) as real < x <= Ceil(x) as real
  {
  }

  /** The bucket, refilled, does not cover the cost: the request is denied. */
  predicate Short(cfg: Config, s: State, subject: Subject, cost: real, now: real) {
    Refill(cfg, Collect(cfg, s, now), subject, now).tokens < cost
  }

  /**
   * A denial within capacity names the least whole number of ms after which the same request is
   * granted, if nothing else is consumed meanwhile.
   */
  lemma RetryIsExact(cfg: Config, s: State, subject: Subject, cost: real, now: real, wait: nat)
    requires cfg.Valid() && Patient(cfg) && Sane(cfg, s, now)
    requires 0.0 < cost <= cfg.capacity && cfg.refillPerMs > 0.0
    requires Short(cfg, s, subject, cost, now)
    ensures var reply, after := TryReply(cfg, s, subject, cost, now), TryState(cfg, s, subject, cost, now);
      && reply.retryAfterMs.Some? && reply.retryAfterMs.value >= 1
      && (TryReply(cfg, after, subject, cost, now + wait as real).ok <==> reply.retryAfterMs.value <= wait)
  {
    var level := Level(cfg, s, subject, now);
    TryMeetsLevel(cfg, s, subject, cost, now);
    GrantedAfterWait(cfg, TryState(cfg, s, subject, cost, now), subject, cost, level, now, wait as real);
    WaitIsLeast(cfg, cost - level, wait);
  }

  /** With or without a patient window: enough has flowed in, or the bucket was full enough to be forgotten. */
  lemma GrantedWhen(cfg: Config, s: State, subject: Subject, cost: real, now: real, dt: real)
    requires cfg.Valid() && cfg.refillPerMs > 0.0 && 0.0 < cost <= cfg.capacity && dt >= 0.0 && s.lastGcAt <= now
    requires subject in s.buckets && s.buckets[subject].lastRefillMs == now && s.buckets[subject].tokens < cost
    ensures var level := s.buckets[subject].tokens;
      TryReply(cfg, s, subject, cost, now + dt).ok <==>
      cost - level <= Gain(cfg, dt) || (dt > cfg.idleEvictMs && level >= cfg.capacity - Slack)
  {
    var b := s.buckets[subject];
    assert now + dt - now == dt;
    assert Evicts(cfg, b, now + dt) <==> dt > cfg.idleEvictMs && b.tokens >= cfg.capacity - Slack;
    GainOfNothing(cfg);
  }

  /** The request is granted after a wait of whole ms in which nothing else happens. */
  predicate GrantedAfter(cfg: Config, s: State, subject: Subject, cost: real, now: real, wait: nat) {
    TryReply(cfg, s, subject, cost, now + wait as real).ok
  }

  predicate Flowed(cfg: Config, need: real, wait: nat) { need <= Gain(cfg, wait as real) }

  predicate Idle(cfg: Config, wait: nat) { wait as real > cfg.idleEvictMs }

  /** The first whole ms at which an untouched bucket counts as idle. */
  function FirstIdle(cfg: Config): nat
    requires cfg.Valid()
  {
    cfg.idleEvictMs.Floor + 1
  }

  lemma IdleFrom(cfg: Config, wait: nat)
    requires cfg.Valid()
    ensures Idle(cfg, wait) <==> FirstIdle(cfg) <= wait
  {
  }

  lemma FlowedLater(cfg: Config, need: real, a: nat, b: nat)
    requires cfg.Valid() && a <= b && Flowed(cfg, need, a)
    ensures Flowed(cfg, need, b)
  {
    GainGrows(cfg, a as real, b as real);
  }

  /** Waiting as long as the reply says is necessary and enough. */
  ghost predicate RetryExact(cfg: Config, s: State, subject: Subject, cost: real, now: real, retry: int) {
    forall wait: nat :: GrantedAfter(cfg, s, subject, cost, now, wait) <==> retry <= wait
  }

  /**
   * Exactly when a denial's retry time is right, for any limiter: if and only if the bucket it leaves
   * is too empty to be evicted, or has refilled by the first ms at which it could be.
   */
  lemma RetryIsExactIff(cfg: Config, s: State, subject: Subject, cost: real, now: real)
    requires cfg.Valid() && Sane(cfg, s, now) && s.lastGcAt <= now
    requires 0.0 < cost <= cfg.capacity && cfg.refillPerMs > 0.0
    requires Short(cfg, s, subject, cost, now)
    ensures var reply, after := TryReply(cfg, s, subject, cost, now), TryState(cfg, s, subject, cost, now);
      && !reply.ok && reply.retryAfterMs.Some? && reply.retryAfterMs.value >= 1
      && subject in after.buckets
      && var level := after.buckets[subject].tokens;
         RetryExact(cfg, after, subject, cost, now, reply.retryAfterMs.value) <==>
         (level < cfg.capacity - Slack || Flowed(cfg, cost - level, FirstIdle(cfg)))
  {
    var reply, after := TryReply(cfg, s, subject, cost, now), TryState(cfg, s, subject, cost, now);
    var level, first := after.buckets[subject].tokens, FirstIdle(cfg);
    var need, near := cost - level, level >= cfg.capacity - Slack;
    forall wait: nat
      ensures GrantedAfter(cfg, after, subject, cost, now, wait) <==> Flowed(cfg, need, wait) || (first <= wait && near)
      ensures reply.retryAfterMs.value <= wait <==> Flowed(cfg, need, wait)
    {
      GrantedWhen(cfg, after, subject, cost, now, wait as real);
      WaitIsLeast(cfg, need, wait);
      IdleFrom(cfg, wait);
    }
    WaitIsLeast(cfg, need, 0);
    if !near || Flowed(cfg, need, first) {
      forall wait: nat ensures GrantedAfter(cfg, after, subject, cost, now, wait) <==> reply.retryAfterMs.value <= wait {
        if first <= wait && near {
          FlowedLater(cfg, need, first, wait);
        }
      }
    } else {
      assert GrantedAfter(cfg, after, subject, cost, now, first);
    }
  }

  lemma StepSane(cfg: Config, s: State, r: Request)
    requires cfg.Valid() && Sane(cfg, s, r.now) && s.lastGcAt <= r.now
    ensures var after := TryState(cfg, s, r.subject, r.cost, r.now); Sane(cfg, after, r.now) && after.lastGcAt <= r.now
  {
    RefillIsLevel(cfg, Collect(cfg, s, r.now), r.subject, r.now);
  }

  lemma {:induction false} RunSane(cfg: Config, s: State, reqs: seq<Request>, from: real)
    requires cfg.Valid() && Sane(cfg, s, from) && s.lastGcAt <= from && Nondecreasing(reqs, from)
    ensures var end, after := EndOf(reqs, from), Run(cfg, s, reqs); Sane(cfg, after, end) && after.lastGcAt <= end
    decreases |reqs|
  {
    if reqs != [] {
      var r := reqs[0];
      SaneLater(cfg, s, from, r.now);
      StepSane(cfg, s, r);
      RunSane(cfg, TryState(cfg, s, r.subject, r.cost, r.now), reqs[1..], r.now);
    }
  }

  /** A request within capacity that comes after these and is denied. */
  ghost predicate Denied(cfg: Config, reqs: seq<Request>, r: Request) {
    && Nondecreasing(reqs, 0.0) && EndOf(reqs, 0.0) <= r.now
    && 0.0 < r.cost <= cfg.capacity && Short(cfg, Run(cfg, Start, reqs), r.subject, r.cost, r.now)
  }

  /** What a denied request is told is exact. */
  ghost predicate ToldRight(cfg: Config, reqs: seq<Request>, r: Request) {
    var s := Run(cfg, Start, reqs);
    var told := TryReply(cfg, s, r.subject, r.cost, r.now).retryAfterMs;
    told.Some? && RetryExact(cfg, TryState(cfg, s, r.subject, r.cost, r.now), r.subject, r.cost, r.now, told.value)
  }

  lemma DenialIsToldRight(cfg: Config, reqs: seq<Request>, r: Request)
    requires cfg.Valid() && cfg.refillPerMs > 0.0 && Denied(cfg, reqs, r)
    requires Flowed(cfg, Min(Slack, cfg.capacity), FirstIdle(cfg))
    ensures ToldRight(cfg, reqs, r)
  {
    var s := Run(cfg, Start, reqs);
    RunSane(cfg, Start, reqs, 0.0);
    SaneLater(cfg, s, EndOf(reqs, 0.0), r.now);
    StepSane(cfg, s, r);
    RetryIsExactIff(cfg, s, r.subject, r.cost, r.now);
  }

  /** Spend the slack, then ask for a whole bucket. */
  lemma HastyIsToldWrong(cfg: Config)
    requires cfg.Valid() && cfg.refillPerMs > 0.0 && !Flowed(cfg, Min(Slack, cfg.capacity), FirstIdle(cfg))
    ensures var reqs, r := [Request("s", Min(Slack, cfg.capacity), 0.0)], Request("s", cfg.capacity, 0.0);
      Denied(cfg, reqs, r) && !ToldRight(cfg, reqs, r)
  {
    var spent := Min(Slack, cfg.capacity);
    var reqs, r := [Request("s", spent, 0.0)], Request("s", cfg.capacity, 0.0);
    assert Collect(cfg, Start, 0.0).buckets == map[];
    var s := TryState(cfg, Start, "s", spent, 0.0);
    assert s.buckets == map["s" := Bucket(cfg.capacity - spent, 0.0)];
    assert Run(cfg, Start, reqs) == s by {
      assert reqs[1..] == [] && Run(cfg, s, []) == s;
    }
    assert Collect(cfg, s, 0.0).buckets == s.buckets;
    RetryIsExactIff(cfg, s, "s", cfg.capacity, 0.0);
  }

  /**
   * Exactly when every denial of every run is told the right time to retry: if and only if by the first
   * ms at which an untouched bucket can be evicted, what eviction forgives has flowed in.
   */
  lemma AlwaysToldRightIff(cfg: Config)
    requires cfg.Valid() && cfg.refillPerMs > 0.0
    ensures (forall reqs, r :: Denied(cfg, reqs, r) ==> ToldRight(cfg, reqs, r)) <==>
            Flowed(cfg, Min(Slack, cfg.capacity), FirstIdle(cfg))
  {
    if Flowed(cfg, Min(Slack, cfg.capacity), FirstIdle(cfg)) {
      forall reqs, r | Denied(cfg, reqs, r) ensures ToldRight(cfg, reqs, r) {
        DenialIsToldRight(cfg, reqs, r);
      }
    } else {
      HastyIsToldWrong(cfg);
    }
  }

  /** Untouched for `dt` ms, a bucket covers a request within capacity once enough has flowed in. */
  lemma GrantedAfterWait(cfg: Config, s: State, subject: Subject, cost: real, level: real, now: real, dt: real)
    requires cfg.Valid() && Patient(cfg) && Sane(cfg, s, now) && 0.0 < cost <= cfg.capacity && dt >= 0.0
    requires subject in s.buckets && s.buckets[subject] == Bucket(level, now)
    ensures TryReply(cfg, s, subject, cost, now + dt).ok <==> cost - level <= Gain(cfg, dt)
  {
    SaneLater(cfg, s, now, now + dt);
    TryMeetsLevel(cfg, s, subject, cost, now + dt);
    LevelAfterWait(cfg, s, subject, now, dt);
  }

  lemma WaitIsLeast(cfg: Config, need: real, wait: nat)
    requires cfg.refillPerMs > 0.0 && need > 0.0
    ensures Ceil(need / cfg.refillPerMs) >= 1
    ensures Ceil(need / cfg.refillPerMs) <= wait <==> need <= Gain(cfg, wait as real)
  {
    DivideBySlope(need, cfg.refillPerMs, wait as real);
    CeilBounds(need / cfg.refillPerMs);
  }

  lemma LevelAfterWait(cfg: Config, s: State, subject: Subject, now: real, wait: real)
    requires subject in s.buckets && s.buckets[subject].lastRefillMs == now
    ensures Level(cfg, s, subject, now + wait) == Min(cfg.capacity, s.buckets[subject].tokens + Gain(cfg, wait))
  {
    assert now + wait - now == wait;
  }

  lemma DivideBySlope(need: real, rate: real, wait: real)
    requires rate > 0.0 && need > 0.0
    ensures need / rate > 0.0
    ensures need / rate <= wait <==> need <= wait * rate
  {
    var q := need / rate;
    assert q * rate == need;
    if q <= wait {
      Times(q, wait, rate);
    } else {
      assert (q - wait) * rate > 0.0;
    }
  }

  /** A request for more than the capacity is denied at any time, although it is told when to retry. */
  lemma BeyondCapacityIsNeverGranted(cfg: Config, s: State, subject: Subject, cost: real, now: real)
    requires cfg.Valid() && Sane(cfg, s, now) && cost > cfg.capacity
    ensures !TryReply(cfg, s, subject, cost, now).ok
    ensures cfg.refillPerMs > 0.0 ==> TryReply(cfg, s, subject, cost, now).retryAfterMs.Some?
  {
    RefillIsLevel(cfg, Collect(cfg, s, now), subject, now);
  }

  // ---------------------------------------------------------------- The class


  class TokenBucket {
    const cfg: Config
    var buckets: map<Subject, Bucket>
    var lastGcAt: real

    constructor (cfg: Config)
      requires cfg.capacity > 0.0 && cfg.refillPerMs >= 0.0
      ensures this.cfg == cfg && View() == Start
    {
      this.cfg := cfg;
      buckets, lastGcAt := map[], 0.0;
    }

    ghost function View(): State
      reads this
    {
      State(buckets, lastGcAt)
    }

    method MaybeGc(now: real)
      modifies this
      ensures View() == Collect(cfg, old(View()), now)
    {
      if now - lastGcAt < cfg.idleEvictMs {
        return;
      }
      lastGcAt := now;
      var keys := buckets.Keys;
      ghost var was := buckets;
      while keys != {}
        invariant keys <= was.Keys && lastGcAt == now
        invariant buckets == map k | k in was && (k in keys || !Evicts(cfg, was[k], now)) :: was[k]
        decreases keys
      {
        ghost var _ := Occupied(keys);
        var k :| k in keys;
        keys := keys - {k};
        var b := buckets[k];
        if now - b.lastRefillMs > cfg.idleEvictMs && b.tokens >= cfg.capacity - Slack {
          buckets := buckets - {k};
        }
      }
    }

    method Peek(subject: Subject, now: real) returns (b: Bucket)
      modifies this`buckets
      ensures b == Refill(cfg, old(View()), subject, now)
      ensures View() == old(View()).(buckets := old(buckets)[subject := b])
    {
      if subject !in buckets {
        b := Bucket(cfg.capacity, now);
      } else {
        b := buckets[subject];
        var elapsed := now - b.lastRefillMs;
        if elapsed > 0.0 && cfg.refillPerMs > 0.0 {
          var refill := elapsed * cfg.refillPerMs;
          b := b.(tokens := Min(cfg.capacity, b.tokens + refill));
        }
        b := b.(lastRefillMs := now);
      }
      buckets := buckets[subject := b];
    }

    method Try(subject: Subject, cost: real, now: real) returns (reply: Reply)
      modifies this
      ensures reply == TryReply(cfg, old(View()), subject, cost, now)
      ensures View() == TryState(cfg, old(View()), subject, cost, now)
    {
      if cost <= 0.0 {
        return Reply(true, Some(0), cfg.capacity);
      }
      MaybeGc(now);
      var b := Peek(subject, now);
      if b.tokens >= cost {
        b := b.(tokens := b.tokens - cost);
        buckets := buckets[subject := b];
        return Reply(true, Some(0), b.tokens.Floor as real);
      }
      var deficit := cost - b.tokens;
      var retry := if cfg.refillPerMs > 0.0 then Some(Ceil(deficit / cfg.refillPerMs)) else None;
      return Reply(false, retry, b.tokens.Floor as real);
    }
  }
}
