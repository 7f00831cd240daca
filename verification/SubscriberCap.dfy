/** The cap on subscribers of an actor, when subscribe calls may overlap. */
module SubscriberCap {
  import opened Wrappers
  import opened Client
  import opened Registry
  import opened Naming
  import opened Subscribers
  import H = Memory

  function KeysFor(m: map<string, Sub>, a: ActorId): set<string> { set k | k in m && m[k].actorId == a }

  function SubsOf<S>(w: World<S>, a: ActorId): set<SubId> { KeysFor(w.reg.subs, a) }

  function AsksOf<S>(w: World<S>, a: ActorId): set<Ticket> { KeysFor(w.asks, a) }

  lemma KeysAdd(m: map<string, Sub>, k: string, sub: Sub, a: ActorId)
    requires k !in m
    ensures |KeysFor(m[k := sub], a)| == |KeysFor(m, a)| + if sub.actorId == a then 1 else 0
  {
    assert KeysFor(m[k := sub], a) == KeysFor(m, a) + if sub.actorId == a then {k} else {};
  }

  lemma KeysRemove(m: map<string, Sub>, k: string, a: ActorId)
    requires k in m
    ensures |KeysFor(m - {k}, a)| == |KeysFor(m, a)| - if m[k].actorId == a then 1 else 0
  {
    assert KeysFor(m - {k}, a) == KeysFor(m, a) - if m[k].actorId == a then {k} else {};
  }

  /** The most subscribe calls for an actor that ever waited for their host together. */
  ghost function Peak<S>(cfg: H.Config<S>, maxPerActor: nat, steps: seq<Step>, a: ActorId): nat {
    if steps == [] then 0
    else
      var before, now := Peak(cfg, maxPerActor, steps[..|steps| - 1], a), |AsksOf(Run(cfg, maxPerActor, steps), a)|;
      if before < now then now else before
  }

  lemma {:induction false} FewerIsLess<T>(a: set<T>, b: set<T>)
    requires a <= b
    ensures |a| <= |b|
  {
    assert b == a + (b - a);
  }

  lemma AttachLoad<S>(cfg: H.Config<S>, maxPerActor: nat, w: World<S>, s: Step, a: ActorId)
    requires s.Attach? && Enabled(cfg, maxPerActor, w, s)
    ensures var after := Next(cfg, maxPerActor, w, s);
      |SubsOf(after, a)| + |AsksOf(after, a)| == |SubsOf(w, a)| + |AsksOf(w, a)|
  {
    KeysAdd(w.reg.subs, s.id, w.asks[s.ticket], a);
    KeysRemove(w.asks, s.ticket, a);
  }

  /** Only an attach brings a new subscription. */
  lemma SubsStay<S>(cfg: H.Config<S>, maxPerActor: nat, w: World<S>, s: Step, id: SubId)
    requires WellFormed(w) && !(s.Attach? && Enabled(cfg, maxPerActor, w, s))
    requires id in Next(cfg, maxPerActor, w, s).reg.subs
    ensures id in w.reg.subs && Next(cfg, maxPerActor, w, s).reg.subs[id] == w.reg.subs[id]
  {
    StepSends(cfg, maxPerActor, w, s, id);
  }

  lemma AsksStay<S>(cfg: H.Config<S>, maxPerActor: nat, w: World<S>, s: Step, a: ActorId)
    requires !(s.Attach? && Enabled(cfg, maxPerActor, w, s))
    ensures !(s.Ask? && s.sub.actorId == a && Enabled(cfg, maxPerActor, w, s)) ==>
              AsksOf(Next(cfg, maxPerActor, w, s), a) == AsksOf(w, a)
  {
  }

  lemma OtherLoad<S>(cfg: H.Config<S>, maxPerActor: nat, w: World<S>, s: Step, a: ActorId)
    requires WellFormed(w) && !(s.Attach? && Enabled(cfg, maxPerActor, w, s))
    ensures SubsOf(Next(cfg, maxPerActor, w, s), a) <= SubsOf(w, a)
  {
    var subs := Next(cfg, maxPerActor, w, s).reg.subs;
    forall id | id in subs ensures id in w.reg.subs && subs[id] == w.reg.subs[id] {
      SubsStay(cfg, maxPerActor, w, s, id);
    }
    assert KeysFor(subs, a) <= KeysFor(w.reg.subs, a);
  }

  /** With a cap, subscribers and waiting calls exceed it by less than the calls that ever waited together. */
  lemma {:induction false} CapBound<S>(cfg: H.Config<S>, maxPerActor: nat, steps: seq<Step>, a: ActorId)
    ensures var w := Run(cfg, maxPerActor, steps);
      && |AsksOf(w, a)| <= Peak(cfg, maxPerActor, steps, a)
      && Members(w.reg.byActor, a) == SubsOf(w, a)
      && (|SubsOf(w, a)| + |AsksOf(w, a)| == 0 ||
          |SubsOf(w, a)| + |AsksOf(w, a)| <= maxPerActor - 1 + Peak(cfg, maxPerActor, steps, a))
  {
    var after := Run(cfg, maxPerActor, steps);
    RunWellFormed(cfg, maxPerActor, steps);
    MembersOfActor(after.reg, a);
    if steps == [] {
      assert SubsOf(after, a) == {} && AsksOf(after, a) == {};
    } else {
      var before, s := steps[..|steps| - 1], steps[|steps| - 1];
      var w := Run(cfg, maxPerActor, before);
      CapBound(cfg, maxPerActor, before, a);
      RunWellFormed(cfg, maxPerActor, before);
      if s.Attach? && Enabled(cfg, maxPerActor, w, s) {
        AttachLoad(cfg, maxPerActor, w, s, a);
      } else {
        OtherLoad(cfg, maxPerActor, w, s, a);
        AsksStay(cfg, maxPerActor, w, s, a);
        FewerIsLess(SubsOf(after, a), SubsOf(w, a));
      }
    }
  }

  /** Subscribe calls that do not overlap keep an actor within its cap. */
  lemma CapHolds<S>(cfg: H.Config<S>, maxPerActor: nat, steps: seq<Step>, a: ActorId)
    requires Peak(cfg, maxPerActor, steps, a) <= 1
    ensures |Members(Run(cfg, maxPerActor, steps).reg.byActor, a)| <= maxPerActor
  {
    CapBound(cfg, maxPerActor, steps, a);
  }

  /** The first `live` names are subscribed, the next `asked` calls wait for their host. */
  ghost predicate Stage<S>(w: World<S>, sub: Sub, live: nat, asked: nat) {
    && w.reg.subs == Each(Names(0, live), sub) && w.reg.sent.Keys == Names(0, live)
    && w.asks == Each(Names(live, live + asked), sub)
  }

  function Each(keys: set<string>, sub: Sub): map<string, Sub> { map k | k in keys :: sub }

  lemma EachCount(keys: set<string>, sub: Sub)
    ensures KeysFor(Each(keys, sub), sub.actorId) == keys
  {
  }

  lemma EachMore(keys: set<string>, k: string, sub: Sub)
    ensures Each(keys, sub)[k := sub] == Each(keys + {k}, sub)
    ensures Each(keys, sub) - {k} == Each(keys - {k}, sub)
  {
  }

  lemma StageCounts<S>(w: World<S>, sub: Sub, live: nat, asked: nat)
    requires Stage(w, sub, live, asked)
    ensures |SubsOf(w, sub.actorId)| == live && |AsksOf(w, sub.actorId)| == asked
  {
    EachCount(Names(0, live), sub);
    EachCount(Names(live, live + asked), sub);
    NamesCount(0, live);
    NamesCount(live, live + asked);
  }

  lemma StageAsk<S>(cfg: H.Config<S>, maxPerActor: nat, w: World<S>, sub: Sub, live: nat, asked: nat)
    requires Stage(w, sub, live, asked) && Indexed(w.reg) && live < maxPerActor
    ensures Stage(Next(cfg, maxPerActor, w, Ask(Name(live + asked), sub)), sub, live, asked + 1)
  {
    var t := Name(live + asked);
    NamesMore(live, live + asked);
    assert !Full(w.reg, sub.actorId, maxPerActor) by {
      StageCounts(w, sub, live, asked);
      MembersOfActor(w.reg, sub.actorId);
    }
    EachMore(Names(live, live + asked), t, sub);
    assert Next(cfg, maxPerActor, w, Ask(t, sub)) == w.(asks := w.asks[t := sub]);
  }

  lemma AttachEffect<S>(cfg: H.Config<S>, maxPerActor: nat, w: World<S>, t: Ticket, id: SubId)
    requires t in w.asks && id !in w.reg.subs && id !in w.reg.sent
    ensures var after := Next(cfg, maxPerActor, w, Attach(t, id));
      && after.asks == w.asks - {t} && after.reg.subs == w.reg.subs[id := w.asks[t]]
      && after.reg.sent.Keys == w.reg.sent.Keys + {id}
  {
  }

  lemma StageAttach<S>(cfg: H.Config<S>, maxPerActor: nat, w: World<S>, sub: Sub, live: nat, asked: nat)
    requires Stage(w, sub, live, asked) && asked > 0
    ensures Stage(Next(cfg, maxPerActor, w, Attach(Name(live), Name(live))), sub, live + 1, asked - 1)
  {
    var n := Name(live);
    NamesMore(0, live);
    NamesRest(live, live + asked);
    EachMore(Names(0, live), n, sub);
    EachMore(Names(live, live + asked), n, sub);
    assert n in w.asks && w.asks[n] == sub && n !in w.reg.subs && n !in w.reg.sent;
    AttachEffect(cfg, maxPerActor, w, n, n);
  }

  lemma StageStep<S>(cfg: H.Config<S>, maxPerActor: nat, steps: seq<Step>, s: Step, sub: Sub, live: nat, asked: nat)
    requires Stage(Next(cfg, maxPerActor, Run(cfg, maxPerActor, steps), s), sub, live, asked)
    ensures Stage(Run(cfg, maxPerActor, steps + [s]), sub, live, asked)
    ensures var was, now := Peak(cfg, maxPerActor, steps, sub.actorId), Peak(cfg, maxPerActor, steps + [s], sub.actorId);
      now == if was < asked then asked else was
  {
    assert (steps + [s])[..|steps|] == steps;
    StageCounts(Run(cfg, maxPerActor, steps + [s]), sub, live, asked);
  }

  /** A run that is at a stage, and the most calls that waited together so far. */
  ghost predicate At<S>(cfg: H.Config<S>, maxPerActor: nat, steps: seq<Step>, sub: Sub, live: nat, asked: nat, peak: nat) {
    Stage(Run(cfg, maxPerActor, steps), sub, live, asked) && Peak(cfg, maxPerActor, steps, sub.actorId) == peak
  }

  lemma AtAsk<S>(cfg: H.Config<S>, maxPerActor: nat, steps: seq<Step>, sub: Sub, live: nat, asked: nat, peak: nat)
    returns (more: seq<Step>)
    requires At(cfg, maxPerActor, steps, sub, live, asked, peak) && live < maxPerActor
    ensures At(cfg, maxPerActor, more, sub, live, asked + 1, Max(peak, asked + 1))
  {
    assert Indexed(Run(cfg, maxPerActor, steps).reg) by {
      RunWellFormed(cfg, maxPerActor, steps);
    }
    StageAsk(cfg, maxPerActor, Run(cfg, maxPerActor, steps), sub, live, asked);
    StageStep(cfg, maxPerActor, steps, Ask(Name(live + asked), sub), sub, live, asked + 1);
    return steps + [Ask(Name(live + asked), sub)];
  }

  lemma AtAttach<S>(cfg: H.Config<S>, maxPerActor: nat, steps: seq<Step>, sub: Sub, live: nat, asked: nat, peak: nat)
    returns (more: seq<Step>)
    requires At(cfg, maxPerActor, steps, sub, live, asked, peak) && asked > 0
    ensures At(cfg, maxPerActor, more, sub, live + 1, asked - 1, Max(peak, asked - 1))
  {
    StageAttach(cfg, maxPerActor, Run(cfg, maxPerActor, steps), sub, live, asked);
    StageStep(cfg, maxPerActor, steps, Attach(Name(live), Name(live)), sub, live + 1, asked - 1);
    return steps + [Attach(Name(live), Name(live))];
  }

  /** Some run brings an actor to `k` subscribers, one call after the other. */
  lemma {:induction false} OneByOne<S>(cfg: H.Config<S>, maxPerActor: nat, sub: Sub, k: nat)
    returns (steps: seq<Step>, peak: nat)
    requires k < maxPerActor
    ensures At(cfg, maxPerActor, steps, sub, k, 0, peak) && peak <= 1
  {
    if k == 0 {
      assert Names(0, 0) == {};
      return [], 0;
    }
    var before, was := OneByOne(cfg, maxPerActor, sub, k - 1);
    var asked := AtAsk(cfg, maxPerActor, before, sub, k - 1, 0, was);
    peak := Max(was, 1);
    steps := AtAttach(cfg, maxPerActor, asked, sub, k - 1, 1, peak);
  }

  /** Then `p` calls all pass the check before any of them is attached. */
  lemma {:induction false} Together<S>(cfg: H.Config<S>, maxPerActor: nat, sub: Sub, k: nat, p: nat)
    returns (steps: seq<Step>, peak: nat)
    requires k < maxPerActor
    ensures At(cfg, maxPerActor, steps, sub, k, p, peak) && peak <= Max(1, p) && (p >= 1 ==> peak == p)
  {
    if p == 0 {
      steps, peak := OneByOne(cfg, maxPerActor, sub, k);
      return;
    }
    var before, was := Together(cfg, maxPerActor, sub, k, p - 1);
    peak := Max(was, p);
    steps := AtAsk(cfg, maxPerActor, before, sub, k, p - 1, was);
  }

  /** Then the first `q` of those are attached. */
  lemma {:induction false} Landed<S>(cfg: H.Config<S>, maxPerActor: nat, sub: Sub, k: nat, p: nat, q: nat)
    returns (steps: seq<Step>)
    requires k < maxPerActor && 1 <= p && q <= p
    ensures At(cfg, maxPerActor, steps, sub, k + q, p - q, p)
  {
    if q == 0 {
      var all, _ := Together(cfg, maxPerActor, sub, k, p);
      return all;
    }
    var before := Landed(cfg, maxPerActor, sub, k, p, q - 1);
    steps := AtAttach(cfg, maxPerActor, before, sub, k + (q - 1), p - (q - 1), p);
  }

  ghost predicate WithinCap<S>(cfg: H.Config<S>, maxPerActor: nat, steps: seq<Step>, a: ActorId) {
    |Members(Run(cfg, maxPerActor, steps).reg.byActor, a)| <= maxPerActor
  }

  /** The bound is met for every cap and every peak. */
  lemma CapIsTight<S>(cfg: H.Config<S>, maxPerActor: nat, sub: Sub, p: nat) returns (steps: seq<Step>)
    requires maxPerActor >= 1 && p >= 1
    ensures Peak(cfg, maxPerActor, steps, sub.actorId) == p
    ensures |Members(Run(cfg, maxPerActor, steps).reg.byActor, sub.actorId)| == maxPerActor - 1 + p
  {
    steps := Landed(cfg, maxPerActor, sub, maxPerActor - 1, p, p);
    StageCounts(Run(cfg, maxPerActor, steps), sub, maxPerActor - 1 + p, 0);
    CapBound(cfg, maxPerActor, steps, sub.actorId);
  }

  /** Runs in which at most `p` calls wait together all respect a positive cap if and only if p is at most 1. */
  lemma CapHoldsIff<S>(cfg: H.Config<S>, maxPerActor: nat, sub: Sub, p: nat)
    requires maxPerActor >= 1
    ensures (forall steps :: Peak(cfg, maxPerActor, steps, sub.actorId) <= p ==>
                               WithinCap(cfg, maxPerActor, steps, sub.actorId)) <==> p <= 1
  {
    if p <= 1 {
      forall steps | Peak(cfg, maxPerActor, steps, sub.actorId) <= p
        ensures WithinCap(cfg, maxPerActor, steps, sub.actorId)
      {
        CapHolds(cfg, maxPerActor, steps, sub.actorId);
      }
    } else {
      var steps := CapIsTight(cfg, maxPerActor, sub, 2);
      assert !WithinCap(cfg, maxPerActor, steps, sub.actorId);
    }
  }
}
