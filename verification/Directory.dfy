/**
 * The in-process actor directory: first-touch deduplication and the per-class cap. An activation
 * starts in `resolve`, and later finishes or fails; other calls run in between.
 */
module Directory {
  import opened Naming
  import opened Wrappers

  type ActorId = string
  type ClassName = string


  /** A host object, told apart from every other by its serial number. */
  datatype Host = Host(serial: nat, className: ClassName)

  datatype Dir = Dir(
    hosts: map<ActorId, Host>,
    materializing: map<ActorId, Host>,
    perClassActive: map<ClassName, int>,
    destroyed: bool,
    created: nat)

  datatype Reply = Live(host: Host) | InFlight(host: Host) | Started(host: Host) | UnknownClass | CapReached | Destroyed

  datatype Config = Config(classes: set<ClassName>, cap: int)

  const Empty: Dir := Dir(map[], map[], map[], false, 0)

  // ---------------------------------------------------------------- The operations as functions

  function Active(d: Dir, c: ClassName): int {
    if c in d.perClassActive then d.perClassActive[c] else 0
  }

  function Bumped(active: map<ClassName, int>, c: ClassName, delta: int): map<ClassName, int> {
    var next := (if c in active then active[c] else 0) + delta;
    if next <= 0 then active - {c} else active[c := next]
  }

  predicate Capped(cfg: Config, d: Dir, c: ClassName) { cfg.cap > 0 && Active(d, c) >= cfg.cap }

  function ResolveReply(cfg: Config, d: Dir, id: ActorId, c: ClassName): Reply {
    if d.destroyed then Destroyed
    else if id in d.hosts then Live(d.hosts[id])
    else if id in d.materializing then InFlight(d.materializing[id])
    else if c !in cfg.classes then UnknownClass
    else if Capped(cfg, d, c) then CapReached
    else Started(Host(d.created, c))
  }

  function ResolveDir(cfg: Config, d: Dir, id: ActorId, c: ClassName): Dir {
    var reply := ResolveReply(cfg, d, id, c);
    if reply.Started? then d.(materializing := d.materializing[id := reply.host], created := d.created + 1) else d
  }

  datatype Step =
    | Resolve(id: ActorId, className: ClassName)
    | Finish(id: ActorId)
    | Fail(id: ActorId)
    | Evict(id: ActorId)
    | BeginShutdown
    | EndShutdown

  function Next(cfg: Config, d: Dir, s: Step): Dir {
    match s
    case Resolve(id, c) => ResolveDir(cfg, d, id, c)
    case Finish(id) =>
      if id !in d.materializing then d
      else
        var h := d.materializing[id];
        d.(hosts := d.hosts[id := h],
           perClassActive := Bumped(d.perClassActive, h.className, 1),
           materializing := d.materializing - {id})
    case Fail(id) => d.(materializing := d.materializing - {id})
    case Evict(id) =>
      if id !in d.hosts then d
      else d.(perClassActive := Bumped(d.perClassActive, d.hosts[id].className, -1), hosts := d.hosts - {id})
    case BeginShutdown => d.(destroyed := true)
    case EndShutdown =>
      if d.destroyed && d.materializing == map[] then d.(hosts := map[], perClassActive := map[]) else d
  }

  function Run(cfg: Config, steps: seq<Step>): Dir {
    if steps == [] then Empty else Next(cfg, Run(cfg, steps[..|steps| - 1]), steps[|steps| - 1])
  }

  // ---------------------------------------------------------------- Counting

  function OfClass(m: map<ActorId, Host>, c: ClassName): set<ActorId> {
    set id | id in m && m[id].className == c
  }

  function Count(m: map<ActorId, Host>, c: ClassName): nat { |OfClass(m, c)| }

  lemma CountAdd(m: map<ActorId, Host>, id: ActorId, h: Host, c: ClassName)
    requires id !in m
    ensures Count(m[id := h], c) == Count(m, c) + if h.className == c then 1 else 0
  {
    if h.className == c {
      assert OfClass(m[id := h], c) == OfClass(m, c) + {id};
    } else {
      assert OfClass(m[id := h], c) == OfClass(m, c);
    }
  }

  lemma CountRemove(m: map<ActorId, Host>, id: ActorId, c: ClassName)
    ensures Count(m - {id}, c) == Count(m, c) - if id in m && m[id].className == c then 1 else 0
  {
    if id in m && m[id].className == c {
      assert OfClass(m - {id}, c) == OfClass(m, c) - {id};
    } else {
      assert OfClass(m - {id}, c) == OfClass(m, c);
    }
  }

  // ---------------------------------------------------------------- Accounting

  /** Counters equal live hosts, entries exist only for positive ones, and no id is both live and in flight. */
  ghost predicate Accounts(d: Dir) {
    && d.hosts.Keys !! d.materializing.Keys
    && (forall c :: Active(d, c) == Count(d.hosts, c))
    && (forall c :: c in d.perClassActive ==> d.perClassActive[c] > 0)
    && (forall id :: id in d.hosts ==> d.hosts[id].serial < d.created)
    && (forall id :: id in d.materializing ==> d.materializing[id].serial < d.created)
  }

  lemma FinishAccounts(cfg: Config, d: Dir, id: ActorId)
    requires Accounts(d) && id in d.materializing
    ensures Accounts(Next(cfg, d, Finish(id)))
  {
    var after := Next(cfg, d, Finish(id));
    forall c ensures Active(after, c) == Count(after.hosts, c) {
      CountAdd(d.hosts, id, d.materializing[id], c);
      assert Active(d, c) == Count(d.hosts, c);
    }
  }

  lemma EvictAccounts(cfg: Config, d: Dir, id: ActorId)
    requires Accounts(d) && id in d.hosts
    ensures Accounts(Next(cfg, d, Evict(id)))
  {
    var after := Next(cfg, d, Evict(id));
    forall c ensures Active(after, c) == Count(after.hosts, c) {
      CountRemove(d.hosts, id, c);
      assert Active(d, c) == Count(d.hosts, c);
    }
  }

  lemma NextAccounts(cfg: Config, d: Dir, s: Step)
    requires Accounts(d)
    ensures Accounts(Next(cfg, d, s))
  {
    match s {
      case Finish(id) =>
        if id in d.materializing {
          FinishAccounts(cfg, d, id);
        }
      case Evict(id) =>
        if id in d.hosts {
          EvictAccounts(cfg, d, id);
        }
      case EndShutdown =>
        forall c ensures Count(map[], c) == 0 {
          assert OfClass(map[], c) == {};
        }
      case _ =>
    }
  }

  /** In every run, `perClassActive` is the number of live hosts, and an id has at most one host. */
  lemma {:induction false} RunAccounts(cfg: Config, steps: seq<Step>)
    ensures Accounts(Run(cfg, steps))
  {
    if steps == [] {
      forall c ensures Count(map[], c) == 0 {
        assert OfClass(map[], c) == {};
      }
    } else {
      RunAccounts(cfg, steps[..|steps| - 1]);
      NextAccounts(cfg, Run(cfg, steps[..|steps| - 1]), steps[|steps| - 1]);
    }
  }

  // ---------------------------------------------------------------- First touch

  /** The host that serves an id: live, or on its way. */
  function Serving(d: Dir, id: ActorId): Option<Host> {
    if id in d.hosts then Some(d.hosts[id])
    else if id in d.materializing then Some(d.materializing[id])
    else None
  }

  predicate Ends(s: Step, id: ActorId) { s == Fail(id) || s == Evict(id) || s == EndShutdown }

  /** Every resolve between a first touch and the host's end is served by the very same host. */
  lemma {:induction false} OneHostServes(cfg: Config, before: seq<Step>, between: seq<Step>, id: ActorId, c: ClassName)
    requires Serving(Run(cfg, before), id).Some?
    requires forall i :: 0 <= i < |between| ==> !Ends(between[i], id)
    ensures var d := Run(cfg, before + between);
      && Serving(d, id) == Serving(Run(cfg, before), id)
      && (!d.destroyed ==>
            ResolveReply(cfg, d, id, c) in
              {Live(Serving(Run(cfg, before), id).value), InFlight(Serving(Run(cfg, before), id).value)})
    decreases |between|
  {
    if between == [] {
      assert before + between == before;
    } else {
      var shorter := between[..|between| - 1];
      OneHostServes(cfg, before, shorter, id, c);
      RunAccounts(cfg, before + shorter);
      assert (before + between)[..|before + between| - 1] == before + shorter;
    }
  }

  /**
   * What a first touch is answered, in every run: a known class that nobody serves yet is started under a
   * serial no host has, unless there is a cap and that many of its hosts are live. Without a cap, which is
   * the default, it always is.
   */
  lemma FirstTouchStartsIff(cfg: Config, steps: seq<Step>, id: ActorId, c: ClassName)
    requires !Run(cfg, steps).destroyed && Serving(Run(cfg, steps), id).None? && c in cfg.classes
    ensures var d := Run(cfg, steps);
      var reply, after := ResolveReply(cfg, d, id, c), Run(cfg, steps + [Resolve(id, c)]);
      && (reply.Started? <==> cfg.cap <= 0 || Count(d.hosts, c) < cfg.cap)
      && (reply.CapReached? <==> cfg.cap > 0 && Count(d.hosts, c) >= cfg.cap)
      && (reply.Started? ==>
            && reply.host.className == c && Serving(after, id) == Some(reply.host)
            && forall other :: other != id && Serving(after, other).Some? ==> Serving(after, other).value != reply.host)
      && (!reply.Started? ==> after == d)
  {
    var d := Run(cfg, steps);
    RunAccounts(cfg, steps);
    assert Active(d, c) == Count(d.hosts, c);
    assert (steps + [Resolve(id, c)])[..|steps|] == steps;
  }

  /** Who is refused otherwise: everyone after shutdown began, and an unknown class nobody serves. */
  lemma RefusedOtherwise(cfg: Config, steps: seq<Step>, id: ActorId, c: ClassName)
    ensures var d := Run(cfg, steps);
      var reply := ResolveReply(cfg, d, id, c);
      && (reply.Destroyed? <==> BeginShutdown in steps)
      && (reply.UnknownClass? <==> BeginShutdown !in steps && Serving(d, id).None? && c !in cfg.classes)
      && (reply.Destroyed? || reply.UnknownClass? ==> Run(cfg, steps + [Resolve(id, c)]) == d)
  {
    ShutdownStays(cfg, steps);
    assert (steps + [Resolve(id, c)])[..|steps|] == steps;
  }

  lemma {:induction false} ShutdownStays(cfg: Config, steps: seq<Step>)
    ensures Run(cfg, steps).destroyed <==> BeginShutdown in steps
  {
    if steps != [] {
      ShutdownStays(cfg, steps[..|steps| - 1]);
      assert steps == steps[..|steps| - 1] + [steps[|steps| - 1]];
    }
  }

  // ---------------------------------------------------------------- Who serves an id, step by step

  /** A resolve starts a host only for the id it names, and leaves every host that serves. */
  lemma ResolveServes(cfg: Config, steps: seq<Step>, id: ActorId, c: ClassName, other: ActorId)
    ensures var d, after := Run(cfg, steps), Run(cfg, steps + [Resolve(id, c)]);
      && (Serving(d, other).Some? || other != id ==> Serving(after, other) == Serving(d, other))
      && (other in after.hosts <==> other in d.hosts)
  {
    assert (steps + [Resolve(id, c)])[..|steps|] == steps;
  }

  /** A finished activation is live under the host it was started with; a failed one is gone; no other id notices. */
  lemma EndOfActivation(cfg: Config, steps: seq<Step>, id: ActorId, other: ActorId)
    ensures var d := Run(cfg, steps);
      var done, failed := Run(cfg, steps + [Finish(id)]), Run(cfg, steps + [Fail(id)]);
      && Serving(done, other) == Serving(d, other)
      && (id in d.materializing ==> id in done.hosts && id !in done.materializing)
      && (other != id ==> (other in done.hosts <==> other in d.hosts) && (other in failed.hosts <==> other in d.hosts))
      && Serving(failed, other) == (if other == id && id in d.materializing then None else Serving(d, other))
  {
    RunAccounts(cfg, steps);
    assert (steps + [Finish(id)])[..|steps|] == steps && (steps + [Fail(id)])[..|steps|] == steps;
  }

  /** An evicted host no longer serves, its class has one live host less, and no other id notices. */
  lemma EvictedIsGone(cfg: Config, steps: seq<Step>, id: ActorId, other: ActorId, c: ClassName)
    ensures var d, after := Run(cfg, steps), Run(cfg, steps + [Evict(id)]);
      && Serving(after, other) == (if other == id && id in d.hosts then None else Serving(d, other))
      && Active(after, c) == Active(d, c) - if id in d.hosts && d.hosts[id].className == c then 1 else 0
  {
    var d := Run(cfg, steps);
    RunAccounts(cfg, steps);
    RunAccounts(cfg, steps + [Evict(id)]);
    assert (steps + [Evict(id)])[..|steps|] == steps;
    CountRemove(d.hosts, id, c);
    assert Active(d, c) == Count(d.hosts, c);
    assert Active(Run(cfg, steps + [Evict(id)]), c) == Count(Run(cfg, steps + [Evict(id)]).hosts, c);
  }

  /** The next host of an id is a new object: its serial is none that served before. */
  lemma SuccessorIsNew(cfg: Config, steps: seq<Step>, id: ActorId, c: ClassName, old': ActorId)
    requires ResolveReply(cfg, Run(cfg, steps), id, c).Started? && Serving(Run(cfg, steps), old').Some?
    ensures ResolveReply(cfg, Run(cfg, steps), id, c).host.serial > Serving(Run(cfg, steps), old').value.serial
  {
    RunAccounts(cfg, steps);
  }

  /** A shutdown that finds no activation in flight empties the directory; before that it changes nothing. */
  lemma ShutdownEmpties(cfg: Config, steps: seq<Step>, id: ActorId, c: ClassName)
    ensures var d, begun, ended := Run(cfg, steps), Run(cfg, steps + [BeginShutdown]), Run(cfg, steps + [EndShutdown]);
      && Serving(begun, id) == Serving(d, id) && Active(begun, c) == Active(d, c)
      && if BeginShutdown in steps && (forall other :: other !in d.materializing)
         then Serving(ended, id).None? && Active(ended, c) == 0
         else ended == d
  {
    ShutdownStays(cfg, steps);
    assert (steps + [BeginShutdown])[..|steps|] == steps && (steps + [EndShutdown])[..|steps|] == steps;
    var d := Run(cfg, steps);
    assert d.materializing == map[] <==> forall other :: other !in d.materializing;
  }

  // ---------------------------------------------------------------- The cap

  /** The largest number of activations of class `c` ever in flight together. */
  function Peak(cfg: Config, steps: seq<Step>, c: ClassName): nat {
    if steps == [] then 0
    else Max(Peak(cfg, steps[..|steps| - 1], c), Count(Run(cfg, steps).materializing, c))
  }

  /** With a cap, live plus in-flight hosts exceed it by less than the activations that ever overlapped. */
  lemma {:induction false} CapBound(cfg: Config, steps: seq<Step>, c: ClassName)
    requires cfg.cap > 0
    ensures var d := Run(cfg, steps);
      && Count(d.materializing, c) <= Peak(cfg, steps, c)
      && (Count(d.hosts, c) + Count(d.materializing, c) == 0 ||
          Count(d.hosts, c) + Count(d.materializing, c) <= cfg.cap - 1 + Peak(cfg, steps, c))
  {
    if steps == [] {
      assert OfClass(map[], c) == {};
    } else {
      var before, s := steps[..|steps| - 1], steps[|steps| - 1];
      var d := Run(cfg, before);
      CapBound(cfg, before, c);
      RunAccounts(cfg, before);
      assert Active(d, c) == Count(d.hosts, c);
      match s {
        case Resolve(id, k) =>
          if ResolveReply(cfg, d, id, k).Started? {
            CountAdd(d.materializing, id, Host(d.created, k), c);
          }
        case Finish(id) =>
          if id in d.materializing {
            CountAdd(d.hosts, id, d.materializing[id], c);
            CountRemove(d.materializing, id, c);
          }
        case Fail(id) => CountRemove(d.materializing, id, c);
        case Evict(id) => CountRemove(d.hosts, id, c);
        case BeginShutdown =>
        case EndShutdown => assert OfClass(map[], c) == {};
      }
    }
  }

  /** Activations of a class that never overlap keep it within its cap. */
  lemma NoOverlapNoExcess(cfg: Config, steps: seq<Step>, c: ClassName)
    requires cfg.cap > 0 && Peak(cfg, steps, c) <= 1
    ensures Active(Run(cfg, steps), c) <= cfg.cap
  {
    CapBound(cfg, steps, c);
    RunAccounts(cfg, steps);
    assert Active(Run(cfg, steps), c) == Count(Run(cfg, steps).hosts, c);
  }

  // ---------------------------------------------------------------- The bound is met

  predicate AllOf(m: map<ActorId, Host>, c: ClassName) { forall id :: id in m ==> m[id].className == c }

  /** The first `live` names are live, the next `flight` in flight, all of class `c`. */
  ghost predicate Stage(d: Dir, c: ClassName, live: nat, flight: nat) {
    && !d.destroyed && AllOf(d.hosts, c) && AllOf(d.materializing, c)
    && d.hosts.Keys == Names(0, live) && d.materializing.Keys == Names(live, live + flight)
  }

  lemma CountAll(m: map<ActorId, Host>, c: ClassName, lo: nat, hi: nat)
    requires AllOf(m, c) && m.Keys == Names(lo, hi) && lo <= hi
    ensures Count(m, c) == hi - lo
  {
    assert OfClass(m, c) == m.Keys;
    NamesCount(lo, hi);
  }

  lemma StageCounts(d: Dir, c: ClassName, live: nat, flight: nat)
    requires Stage(d, c, live, flight) && Accounts(d)
    ensures Active(d, c) == live && Count(d.materializing, c) == flight
  {
    assert Active(d, c) == Count(d.hosts, c);
    CountAll(d.hosts, c, 0, live);
    CountAll(d.materializing, c, live, live + flight);
  }

  lemma StageStart(cfg: Config, d: Dir, c: ClassName, live: nat, flight: nat)
    requires Stage(d, c, live, flight) && Accounts(d) && c in cfg.classes && live < cfg.cap
    ensures Stage(Next(cfg, d, Resolve(Name(live + flight), c)), c, live, flight + 1)
  {
    var id := Name(live + flight);
    StageCounts(d, c, live, flight);
    NameIn(live + flight, 0, live);
    NamesMore(live, live + flight);
  }

  lemma StageFinish(cfg: Config, d: Dir, c: ClassName, live: nat, flight: nat)
    requires Stage(d, c, live, flight) && flight > 0
    ensures Stage(Next(cfg, d, Finish(Name(live))), c, live + 1, flight - 1)
  {
    NamesMore(0, live);
    NamesRest(live, live + flight);
  }

  /** A run that is at a stage, and the most activations that overlapped so far. */
  ghost predicate At(cfg: Config, steps: seq<Step>, c: ClassName, live: nat, flight: nat, peak: nat) {
    Stage(Run(cfg, steps), c, live, flight) && Peak(cfg, steps, c) == peak
  }

  lemma AtStep(cfg: Config, steps: seq<Step>, s: Step, c: ClassName, live: nat, flight: nat, peak: nat)
    requires Stage(Next(cfg, Run(cfg, steps), s), c, live, flight) && Peak(cfg, steps, c) == peak
    ensures At(cfg, steps + [s], c, live, flight, Max(peak, flight))
  {
    assert (steps + [s])[..|steps|] == steps;
    RunAccounts(cfg, steps + [s]);
    StageCounts(Run(cfg, steps + [s]), c, live, flight);
  }

  lemma AtStart(cfg: Config, steps: seq<Step>, c: ClassName, live: nat, flight: nat, peak: nat)
    returns (more: seq<Step>)
    requires At(cfg, steps, c, live, flight, peak) && c in cfg.classes && live < cfg.cap
    ensures At(cfg, more, c, live, flight + 1, Max(peak, flight + 1))
  {
    assert Accounts(Run(cfg, steps)) by {
      RunAccounts(cfg, steps);
    }
    StageStart(cfg, Run(cfg, steps), c, live, flight);
    AtStep(cfg, steps, Resolve(Name(live + flight), c), c, live, flight + 1, peak);
    return steps + [Resolve(Name(live + flight), c)];
  }

  lemma AtFinish(cfg: Config, steps: seq<Step>, c: ClassName, live: nat, flight: nat, peak: nat)
    returns (more: seq<Step>)
    requires At(cfg, steps, c, live, flight, peak) && flight > 0
    ensures At(cfg, more, c, live + 1, flight - 1, Max(peak, flight - 1))
  {
    StageFinish(cfg, Run(cfg, steps), c, live, flight);
    AtStep(cfg, steps, Finish(Name(live)), c, live + 1, flight - 1, peak);
    return steps + [Finish(Name(live))];
  }

  /** Some run brings a class to `k` live hosts, one activation after the other. */
  lemma {:induction false} OneByOne(cfg: Config, c: ClassName, k: nat) returns (steps: seq<Step>, peak: nat)
    requires c in cfg.classes && k < cfg.cap
    ensures At(cfg, steps, c, k, 0, peak) && peak <= 1
  {
    if k == 0 {
      assert Names(0, 0) == {};
      return [], 0;
    }
    var before, was := OneByOne(cfg, c, k - 1);
    var started := AtStart(cfg, before, c, k - 1, 0, was);
    peak := Max(was, 1);
    steps := AtFinish(cfg, started, c, k - 1, 1, peak);
  }

  /** Then `p` activations all start before any of them finishes. */
  lemma {:induction false} Together(cfg: Config, c: ClassName, k: nat, p: nat) returns (steps: seq<Step>, peak: nat)
    requires c in cfg.classes && k < cfg.cap
    ensures At(cfg, steps, c, k, p, peak) && peak <= Max(1, p) && (p >= 1 ==> peak == p)
  {
    if p == 0 {
      steps, peak := OneByOne(cfg, c, k);
      return;
    }
    var before, was := Together(cfg, c, k, p - 1);
    peak := Max(was, p);
    steps := AtStart(cfg, before, c, k, p - 1, was);
  }

  /** Then the first `q` of those finish. */
  lemma {:induction false} Landed(cfg: Config, c: ClassName, k: nat, p: nat, q: nat) returns (steps: seq<Step>)
    requires c in cfg.classes && k < cfg.cap && 1 <= p && q <= p
    ensures At(cfg, steps, c, k + q, p - q, p)
  {
    if q == 0 {
      var all, _ := Together(cfg, c, k, p);
      return all;
    }
    var before := Landed(cfg, c, k, p, q - 1);
    steps := AtFinish(cfg, before, c, k + (q - 1), p - (q - 1), p);
  }

  /** The bound is met for every cap and every peak: this run ends with cap - 1 + p live hosts. */
  lemma CapIsTight(cfg: Config, c: ClassName, p: nat) returns (steps: seq<Step>)
    requires cfg.cap >= 1 && c in cfg.classes && p >= 1
    ensures Peak(cfg, steps, c) == p && Active(Run(cfg, steps), c) == cfg.cap - 1 + p
  {
    steps := Landed(cfg, c, cfg.cap - 1, p, p);
    RunAccounts(cfg, steps);
    StageCounts(Run(cfg, steps), c, cfg.cap - 1 + p, 0);
  }

  /** Runs that overlap at most `p` activations of a class all respect its cap if and only if p is at most 1. */
  lemma CapHoldsIff(cfg: Config, c: ClassName, p: nat)
    requires cfg.cap >= 1 && c in cfg.classes
    ensures (forall steps :: Peak(cfg, steps, c) <= p ==> Active(Run(cfg, steps), c) <= cfg.cap) <==> p <= 1
  {
    if p <= 1 {
      forall steps | Peak(cfg, steps, c) <= p ensures Active(Run(cfg, steps), c) <= cfg.cap {
        NoOverlapNoExcess(cfg, steps, c);
      }
    } else {
      var steps := CapIsTight(cfg, c, 2);
      assert Peak(cfg, steps, c) <= p;
    }
  }

  // ---------------------------------------------------------------- The class

  class Directory {
    const cfg: Config
    var hosts: map<ActorId, Host>
    var materializing: map<ActorId, Host>
    var perClassActive: map<ClassName, int>
    var destroyed: bool
    var created: nat

    constructor (cfg: Config)
      ensures this.cfg == cfg && View() == Empty
    {
      this.cfg := cfg;
      hosts, materializing, perClassActive, destroyed, created := map[], map[], map[], false, 0;
    }

    ghost function View(): Dir
      reads this
    {
      Dir(hosts, materializing, perClassActive, destroyed, created)
    }

    method StartResolve(id: ActorId, className: ClassName) returns (reply: Reply)
      modifies this
      ensures reply == ResolveReply(cfg, old(View()), id, className)
      ensures View() == Next(cfg, old(View()), Resolve(id, className))
    {
      if destroyed {
        return Destroyed;
      }
      if id in hosts {
        return Live(hosts[id]);
      }
      if id in materializing {
        return InFlight(materializing[id]);
      }
      if className !in cfg.classes {
        return UnknownClass;
      }
      var capped := CheckActiveCap(className);
      if capped {
        return CapReached;
      }
      var host := Host(created, className);
      created := created + 1;
      materializing := materializing[id := host];
      return Started(host);
    }

    method CheckActiveCap(className: ClassName) returns (capped: bool)
      ensures capped == Capped(cfg, View(), className)
    {
      if cfg.cap <= 0 {
        return false;
      }
      var current := if className in perClassActive then perClassActive[className] else 0;
      return current >= cfg.cap;
    }

    method FinishResolve(id: ActorId)
      modifies this
      ensures View() == Next(cfg, old(View()), Finish(id))
    {
      if id in materializing {
        var host := materializing[id];
        hosts := hosts[id := host];
        BumpActive(host.className, 1);
        materializing := materializing - {id};
      }
    }

    method FailResolve(id: ActorId)
      modifies this
      ensures View() == Next(cfg, old(View()), Fail(id))
    {
      materializing := materializing - {id};
    }

    method BumpActive(className: ClassName, delta: int)
      modifies this`perClassActive
      ensures perClassActive == Bumped(old(perClassActive), className, delta)
    {
      var next := (if className in perClassActive then perClassActive[className] else 0) + delta;
      if next <= 0 {
        perClassActive := perClassActive - {className};
      } else {
        perClassActive := perClassActive[className := next];
      }
    }

    method EvictHost(id: ActorId)
      modifies this
      ensures View() == Next(cfg, old(View()), Evict(id))
    {
      if id in hosts {
        BumpActive(hosts[id].className, -1);
        hosts := hosts - {id};
      }
    }
  }
}
