/** The class-version dependency resolver: a worklist that re-picks a class when a range arrives. */
module Resolver {
  import opened Wrappers
  import opened MapSums
  import opened Picking

  datatype Entry = Entry(want: Want, path: seq<Hop>)

  type Catalog = map<ClassName, seq<Record>>

  datatype Problem = Problem(semver: Semver, catalog: Catalog, roots: seq<Want>)

  datatype Outcome =
    | Resolved(manifest: map<ClassName, Version>, constraints: map<ClassName, seq<Accumulated>>)
    | DepConflict(name: ClassName, ranges: seq<Accumulated>)
    | ClassNotFound(missing: ClassName)
    | DepthExceeded(path: seq<Hop>)
    | NodesExceeded

  // ---------------------------------------------------------------- The worklist

  /** The resolver's three mutable collections. */
  datatype Walk = Walk(
    constraints: map<ClassName, seq<Accumulated>>,
    picked: map<ClassName, Version>,
    queue: seq<Entry>)

  function ListOf(w: Walk, name: ClassName): seq<Accumulated> {
    if name in w.constraints then w.constraints[name] else []
  }

  /** Takes the first queue entry off and records its range. */
  function Absorb(w: Walk): Walk
    requires w.queue != []
  {
    var node := w.queue[0];
    var list := ListOf(w, node.want.name) + [Accumulated(node.want.range, node.path)];
    Walk(w.constraints[node.want.name := list], w.picked, w.queue[1..])
  }

  /** The queue entries for the dependencies of a fresh pick. */
  function Pushes(node: Entry, chosen: Record): seq<Entry> {
    seq(|chosen.deps|, i requires 0 <= i < |chosen.deps| =>
      Entry(chosen.deps[i], node.path + [Chose(node.want.name, chosen.version), Asked(chosen.deps[i])]))
  }

  predicate Unchanged(w: Walk, name: ClassName, chosen: Record) {
    name in w.picked && w.picked[name] == chosen.version
  }

  /** One turn of the loop that found a candidate. */
  function Next(w: Walk, chosen: Record): Walk
    requires w.queue != []
  {
    var node := w.queue[0];
    var a := Absorb(w);
    if Unchanged(w, node.want.name, chosen) then a
    else a.(picked := w.picked[node.want.name := chosen.version], queue := a.queue + Pushes(node, chosen))
  }

  // ---------------------------------------------------------------- What the loop keeps

  /** A chain of hops from a root to this want, each link a dependency of a live version in range. */
  ghost predicate Justified(p: Problem, want: Want, path: seq<Hop>)
    decreases |path|
  {
    && path != []
    && path[|path| - 1] == Asked(want)
    && if |path| == 1 then want in p.roots else
         && |path| >= 3
         && path[|path| - 2].Chose?
         && path[|path| - 3].Asked?
         && var c, asked := path[|path| - 2], path[|path| - 3].want;
         && c.name == asked.name
         && LinkExists(p, asked, c.version, want)
         && Justified(p, asked, path[..|path| - 2])
  }

  ghost predicate LinkExists(p: Problem, asked: Want, version: Version, want: Want) {
    asked.name in p.catalog &&
    exists r :: r in p.catalog[asked.name] && r.version == version && !r.deprecated &&
                p.semver.satisfies(version, asked.range) && want in r.deps
  }

  ghost predicate Known(w: Walk, want: Want) {
    want.name in w.constraints &&
    exists i :: 0 <= i < |w.constraints[want.name]| && w.constraints[want.name][i].range == want.range
  }

  ghost predicate Queued(w: Walk, want: Want) {
    exists i :: 0 <= i < |w.queue| && w.queue[i].want == want
  }

  ghost predicate Accounted(w: Walk, want: Want) { Known(w, want) || Queued(w, want) }

  ghost predicate PicksCurrent(p: Problem, w: Walk) {
    && w.picked.Keys == w.constraints.Keys <= p.catalog.Keys
    && forall n :: n in w.picked ==>
         var pick := PickHighest(p.semver, p.catalog[n], w.constraints[n]);
         pick.Some? && pick.value.version == w.picked[n]
  }

  ghost predicate Closed(p: Problem, w: Walk)
    requires PicksCurrent(p, w)
  {
    && (forall want :: want in p.roots ==> Accounted(w, want))
    && forall n, want ::
         n in w.picked && want in PickHighest(p.semver, p.catalog[n], w.constraints[n]).value.deps ==>
           Accounted(w, want)
  }

  ghost predicate Explained(p: Problem, w: Walk) {
    && (forall i :: 0 <= i < |w.queue| ==> Justified(p, w.queue[i].want, w.queue[i].path))
    && forall n, i :: n in w.constraints && 0 <= i < |w.constraints[n]| ==>
         Justified(p, Want(n, w.constraints[n][i].range), w.constraints[n][i].path)
  }

  /** `spent` counts the picks of each class: every pick after the first cost it a candidate. */
  ghost predicate Paid(p: Problem, w: Walk, spent: map<ClassName, nat>) {
    && w.constraints.Keys == spent.Keys == w.picked.Keys <= p.catalog.Keys
    && forall n :: n in spent ==> PaidFor(p.semver, p.catalog[n], w.constraints[n], spent[n])
  }

  predicate PaidFor(sv: Semver, versions: seq<Record>, list: seq<Accumulated>, picks: nat) {
    var left := |Candidates(sv, versions, list)|;
    1 <= left && picks + left <= |versions| + 1
  }

  ghost predicate Invariant(p: Problem, w: Walk) {
    PicksCurrent(p, w) && Closed(p, w) && Explained(p, w)
  }

  function Sizes(catalog: Catalog): map<ClassName, nat> {
    map n | n in catalog :: |catalog[n]|
  }

  lemma AbsorbKeepsAccounted(w: Walk, want: Want)
    requires w.queue != [] && Accounted(w, want)
    ensures Accounted(Absorb(w), want)
  {
    var a, node := Absorb(w), w.queue[0];
    var name := node.want.name;
    if Known(w, want) {
      var i :| 0 <= i < |w.constraints[want.name]| && w.constraints[want.name][i].range == want.range;
      assert a.constraints[want.name][i].range == want.range;
    } else {
      var i :| 0 <= i < |w.queue| && w.queue[i].want == want;
      if i == 0 {
        assert a.constraints[name][|ListOf(w, name)|].range == want.range;
      } else {
        assert a.queue[i - 1].want == want;
      }
    }
  }

  lemma NextKeepsAccounted(w: Walk, chosen: Record, want: Want)
    requires w.queue != []
    requires Accounted(w, want) || (want in chosen.deps && !Unchanged(w, w.queue[0].want.name, chosen))
    ensures Accounted(Next(w, chosen), want)
  {
    var node, a, n := w.queue[0], Absorb(w), Next(w, chosen);
    if Accounted(w, want) {
      AbsorbKeepsAccounted(w, want);
      if Known(a, want) {
        assert Known(n, want);
      } else {
        var i :| 0 <= i < |a.queue| && a.queue[i].want == want;
        assert n.queue[i].want == want;
      }
    } else {
      var k :| 0 <= k < |chosen.deps| && chosen.deps[k] == want;
      assert n.queue[|a.queue| + k] == Pushes(node, chosen)[k];
    }
  }

  /** The first entry's class is published and `chosen` is its pick once the entry's range is recorded. */
  predicate Chosen(p: Problem, w: Walk, chosen: Record)
    requires w.queue != []
  {
    var name := w.queue[0].want.name;
    name in p.catalog && PickHighest(p.semver, p.catalog[name], Absorb(w).constraints[name]) == Some(chosen)
  }

  /** What one turn touches: the class of the first entry and nothing else. */
  lemma NextShape(w: Walk, chosen: Record)
    requires w.queue != []
    ensures var name, n := w.queue[0].want.name, Next(w, chosen);
      && n.constraints.Keys == w.constraints.Keys + {name}
      && n.picked.Keys == w.picked.Keys + {name}
      && n.picked[name] == chosen.version
      && n.constraints[name] == ListOf(w, name) + [Accumulated(w.queue[0].want.range, w.queue[0].path)]
      && (forall m :: m in w.constraints && m != name ==> n.constraints[m] == w.constraints[m])
      && (forall m :: m in w.picked && m != name ==> n.picked[m] == w.picked[m])
  {
  }

  lemma NextKeepsPicks(p: Problem, w: Walk, chosen: Record)
    requires p.semver.Valid() && w.queue != [] && PicksCurrent(p, w)
    requires Chosen(p, w, chosen)
    ensures PicksCurrent(p, Next(w, chosen))
  {
    NextShape(w, chosen);
  }

  lemma NextKeepsClosed(p: Problem, w: Walk, chosen: Record)
    requires p.semver.Valid() && w.queue != [] && PicksCurrent(p, w) && Closed(p, w)
    requires Chosen(p, w, chosen)
    requires PicksCurrent(p, Next(w, chosen))
    ensures Closed(p, Next(w, chosen))
  {
    var node, n := w.queue[0], Next(w, chosen);
    var name := node.want.name;
    forall want | want in p.roots ensures Accounted(n, want) {
      NextKeepsAccounted(w, chosen, want);
    }
    forall m, want | m in n.picked && want in PickHighest(p.semver, p.catalog[m], n.constraints[m]).value.deps
      ensures Accounted(n, want)
    {
      if m != name {
        assert n.constraints[m] == w.constraints[m];
      } else if Unchanged(w, name, chosen) {
        RepickDescends(p.semver, p.catalog[name], w.constraints[name], Accumulated(node.want.range, node.path));
      }
      NextKeepsAccounted(w, chosen, want);
    }
  }

  lemma PushIsJustified(p: Problem, node: Entry, chosen: Record, k: nat)
    requires k < |chosen.deps| && Justified(p, node.want, node.path)
    requires node.want.name in p.catalog && chosen in p.catalog[node.want.name] && !chosen.deprecated
    requires p.semver.satisfies(chosen.version, node.want.range)
    ensures Justified(p, Pushes(node, chosen)[k].want, Pushes(node, chosen)[k].path)
  {
    var path := Pushes(node, chosen)[k].path;
    assert path[..|path| - 2] == node.path;
    assert LinkExists(p, node.want, chosen.version, chosen.deps[k]);
  }

  lemma NextKeepsExplained(p: Problem, w: Walk, chosen: Record)
    requires p.semver.Valid() && w.queue != [] && Explained(p, w)
    requires Chosen(p, w, chosen)
    ensures Explained(p, Next(w, chosen))
  {
    var node, a := w.queue[0], Absorb(w);
    AbsorbKeepsExplained(p, w);
    if !Unchanged(w, node.want.name, chosen) {
      var name := node.want.name;
      var list := a.constraints[name];
      assert chosen in p.catalog[name] && !chosen.deprecated && p.semver.satisfies(chosen.version, node.want.range) by {
        PickIsHighest(p.semver, p.catalog[name], list);
        assert list[|list| - 1].range == node.want.range;
      }
      forall k | 0 <= k < |chosen.deps|
        ensures Justified(p, Pushes(node, chosen)[k].want, Pushes(node, chosen)[k].path)
      {
        PushIsJustified(p, node, chosen, k);
      }
    }
  }

  lemma AbsorbKeepsExplained(p: Problem, w: Walk)
    requires w.queue != [] && Explained(p, w)
    ensures Explained(p, Absorb(w))
  {
    var node, a := w.queue[0], Absorb(w);
    var name := node.want.name;
    forall n, i | n in a.constraints && 0 <= i < |a.constraints[n]|
      ensures Justified(p, Want(n, a.constraints[n][i].range), a.constraints[n][i].path)
    {
      if n == name && i == |ListOf(w, name)| {
        assert Want(n, a.constraints[n][i].range) == node.want;
      } else {
        assert a.constraints[n][i] == w.constraints[n][i];
      }
    }
  }

  function Spend(w: Walk, chosen: Record, spent: map<ClassName, nat>): map<ClassName, nat>
    requires w.queue != []
  {
    var name := w.queue[0].want.name;
    if Unchanged(w, name, chosen) then spent
    else spent[name := (if name in spent then spent[name] else 0) + 1]
  }

  lemma SpendCountsOne(w: Walk, chosen: Record, spent: map<ClassName, nat>)
    requires w.queue != []
    ensures Sum(Spend(w, chosen, spent)) ==
            Sum(spent) + if Unchanged(w, w.queue[0].want.name, chosen) then 0 else 1
  {
    var name := w.queue[0].want.name;
    SumUpdate(spent, name, (if name in spent then spent[name] else 0) + 1);
  }

  lemma NextKeepsPaid(p: Problem, w: Walk, chosen: Record, spent: map<ClassName, nat>)
    requires p.semver.Valid() && w.queue != [] && PicksCurrent(p, w) && Paid(p, w, spent)
    requires Chosen(p, w, chosen)
    ensures Paid(p, Next(w, chosen), Spend(w, chosen, spent))
  {
    var node, n, spent' := w.queue[0], Next(w, chosen), Spend(w, chosen, spent);
    var name, acc := node.want.name, Accumulated(node.want.range, node.path);
    NextShape(w, chosen);
    assert spent'.Keys == spent.Keys + {name} == w.picked.Keys + {name} == w.constraints.Keys + {name};
    forall m | m in spent' ensures PaidFor(p.semver, p.catalog[m], n.constraints[m], spent'[m]) {
      if m == name {
        PaidForNext(p.semver, p.catalog[m], ListOf(w, m), acc, if m in spent then Some(spent[m]) else None);
      } else {
        assert n.constraints[m] == w.constraints[m] && spent'[m] == spent[m];
      }
    }
  }

  /** The account of one class, when a range arrives and the pick stays, changes or is the first. */
  lemma PaidForNext(sv: Semver, versions: seq<Record>, list: seq<Accumulated>, a: Accumulated, picks: Option<nat>)
    requires sv.Valid()
    requires PickHighest(sv, versions, list + [a]).Some?
    requires picks.Some? ==> PickHighest(sv, versions, list).Some? && PaidFor(sv, versions, list, picks.value)
    ensures picks.None? ==> PaidFor(sv, versions, list + [a], 1)
    ensures picks.Some? ==>
      var changed :=
        PickHighest(sv, versions, list).value.version != PickHighest(sv, versions, list + [a]).value.version;
      PaidFor(sv, versions, list + [a], picks.value + if changed then 1 else 0)
  {
    SubCandidates(sv, versions, list, a);
    if picks.Some? {
      RepickDescends(sv, versions, list, a);
    }
  }

  // ---------------------------------------------------------------- What a result means

  ghost predicate Satisfied(p: Problem, manifest: map<ClassName, Version>, want: Want) {
    want.name in manifest && p.semver.satisfies(manifest[want.name], want.range)
  }

  /** `r` is the record a manifest pins for `n`: the highest live one that meets all of `list`. */
  ghost predicate Pinned(p: Problem, n: ClassName, r: Record, list: seq<Accumulated>) {
    && n in p.catalog && r in p.catalog[n]
    && Eligible(p.semver, r, list)
    && forall s :: s in p.catalog[n] && Eligible(p.semver, s, list) ==> p.semver.compare(r.version, s.version) >= 0
  }

  ghost predicate Solution(p: Problem, manifest: map<ClassName, Version>,
                           constraints: map<ClassName, seq<Accumulated>>) {
    && manifest.Keys == constraints.Keys
    && (forall want :: want in p.roots ==> Satisfied(p, manifest, want))
    && (forall n :: n in manifest ==> exists r :: ClosedPin(p, manifest, n, r, constraints[n]))
    && (forall n :: n in constraints ==> constraints[n] != [])
    && forall n, i :: n in constraints && 0 <= i < |constraints[n]| ==>
         Justified(p, Want(n, constraints[n][i].range), constraints[n][i].path)
  }

  lemma KnownIsSatisfied(p: Problem, w: Walk, want: Want)
    requires p.semver.Valid() && PicksCurrent(p, w) && Known(w, want)
    ensures Satisfied(p, w.picked, want)
  {
    PickIsHighest(p.semver, p.catalog[want.name], w.constraints[want.name]);
  }

  ghost predicate ClosedPin(p: Problem, manifest: map<ClassName, Version>, n: ClassName, r: Record,
                            list: seq<Accumulated>) {
    && Pinned(p, n, r, list)
    && n in manifest && r.version == manifest[n]
    && forall want :: want in r.deps ==> Satisfied(p, manifest, want)
  }

  lemma DoneIsPinned(p: Problem, w: Walk, n: ClassName)
    requires p.semver.Valid() && Invariant(p, w) && w.queue == [] && n in w.picked
    ensures exists r :: ClosedPin(p, w.picked, n, r, w.constraints[n])
  {
    PickIsHighest(p.semver, p.catalog[n], w.constraints[n]);
    var r := PickHighest(p.semver, p.catalog[n], w.constraints[n]).value;
    assert Pinned(p, n, r, w.constraints[n]);
    forall want | want in r.deps ensures Satisfied(p, w.picked, want) {
      assert Accounted(w, want);
      KnownIsSatisfied(p, w, want);
    }
    assert ClosedPin(p, w.picked, n, r, w.constraints[n]);
  }

  lemma DoneIsSolution(p: Problem, w: Walk)
    requires p.semver.Valid() && Invariant(p, w) && w.queue == []
    requires forall n :: n in w.constraints ==> w.constraints[n] != []
    ensures Solution(p, w.picked, w.constraints)
  {
    forall want | want in p.roots ensures Satisfied(p, w.picked, want) {
      assert Accounted(w, want);
      KnownIsSatisfied(p, w, want);
    }
    forall n | n in w.picked ensures exists r :: ClosedPin(p, w.picked, n, r, w.constraints[n]) {
      DoneIsPinned(p, w, n);
    }
  }

  /** `nodes` stays within the published versions of the classes reached so far. */
  lemma PaidBound(p: Problem, w: Walk, spent: map<ClassName, nat>)
    requires Paid(p, w, spent)
    ensures Sum(spent) <= Sum(map n | n in w.picked :: |p.catalog[n]|) <= Sum(Sizes(p.catalog))
  {
    var reached: map<ClassName, nat> := map n | n in w.picked :: |p.catalog[n]|;
    SumMonotone(spent, reached);
    SumMonotone(reached, Sizes(p.catalog));
  }

  function Start(roots: seq<Want>): seq<Entry> {
    seq(|roots|, i requires 0 <= i < |roots| => Entry(roots[i], [Asked(roots[i])]))
  }

  lemma StartHolds(p: Problem)
    ensures Invariant(p, Walk(map[], map[], Start(p.roots)))
    ensures Paid(p, Walk(map[], map[], Start(p.roots)), map[])
  {
    var w := Walk(map[], map[], Start(p.roots));
    forall want | want in p.roots ensures Accounted(w, want) {
      var i :| 0 <= i < |p.roots| && p.roots[i] == want;
      assert w.queue[i].want == want;
    }
  }

  /** The pick the loop makes next, if any. */
  function Pick(p: Problem, w: Walk): Option<Record>
    requires w.queue != []
  {
    var name := w.queue[0].want.name;
    if name !in p.catalog then None else PickHighest(p.semver, p.catalog[name], Absorb(w).constraints[name])
  }

  /** The loop's state after `n` turns without limits, if it gets that far. */
  function WalkAt(p: Problem, n: nat): Option<Walk> {
    if n == 0 then Some(Walk(map[], map[], Start(p.roots))) else Turn(p, WalkAt(p, n - 1))
  }

  function Turn(p: Problem, w: Option<Walk>): Option<Walk> {
    if w.None? || w.value.queue == [] || Pick(p, w.value).None? then None
    else Some(Next(w.value, Pick(p, w.value).value))
  }

  ghost predicate Finished(p: Problem, n: nat, manifest: map<ClassName, Version>,
                           constraints: map<ClassName, seq<Accumulated>>) {
    WalkAt(p, n) == Some(Walk(constraints, manifest, []))
  }

  ghost predicate Stuck(p: Problem, n: nat, name: ClassName, ranges: seq<Accumulated>) {
    && WalkAt(p, n).Some?
    && var w := WalkAt(p, n).value;
    && w.queue != [] && w.queue[0].want.name == name && Absorb(w).constraints[name] == ranges && Pick(p, w).None?
  }

  lemma WalkOn(p: Problem, n: nat, w: Walk, chosen: Record)
    requires WalkAt(p, n) == Some(w) && w.queue != [] && Pick(p, w) == Some(chosen)
    ensures WalkAt(p, n + 1) == Some(Next(w, chosen))
  {
  }

  ghost predicate Ended(p: Problem, n: nat) {
    WalkAt(p, n).Some? && (WalkAt(p, n).value.queue == [] || Pick(p, WalkAt(p, n).value).None?)
  }

  /** The loop of `Resolve` cannot go on from here. */
  lemma WalkStops(p: Problem, n: nat, w: Walk, list: seq<Accumulated>)
    requires WalkAt(p, n) == Some(w) && w.queue != []
    requires list == ListOf(w, w.queue[0].want.name) + [Accumulated(w.queue[0].want.range, w.queue[0].path)]
    requires w.queue[0].want.name in p.catalog ==>
               PickHighest(p.semver, p.catalog[w.queue[0].want.name], list).None?
    ensures Stuck(p, n, w.queue[0].want.name, list)
  {
  }

  lemma {:induction false} WalkEnds(p: Problem, n: nat, m: nat)
    requires Ended(p, n) && n < m
    ensures WalkAt(p, m).None?
  {
    var before := WalkAt(p, m - 1);
    if n < m - 1 {
      WalkEnds(p, n, m - 1);
    }
    TurnStops(p, before);
  }

  lemma TurnStops(p: Problem, w: Option<Walk>)
    requires w.None? || w.value.queue == [] || Pick(p, w.value).None?
    ensures Turn(p, w).None?
  {
  }

  /** The loop ends in one way only. */
  lemma {:induction false} OneEnd(p: Problem, n: nat, m: nat)
    requires Ended(p, n) && Ended(p, m)
    ensures n == m
  {
    if n < m {
      WalkEnds(p, n, m);
    } else if m < n {
      WalkEnds(p, m, n);
    }
  }

  // ---------------------------------------------------------------- The limits

  /** A turn costs a pick if it picks a class for the first time, or another version of it. */
  function PickCost(p: Problem, w: Option<Walk>): nat {
    if w.Some? && w.value.queue != [] && Pick(p, w.value).Some? &&
       !Unchanged(w.value, w.value.queue[0].want.name, Pick(p, w.value).value)
    then 1 else 0
  }

  /** The picks in the first `n` turns of the walk without limits. */
  function PicksAt(p: Problem, n: nat): nat {
    if n == 0 then 0 else PicksAt(p, n - 1) + PickCost(p, WalkAt(p, n - 1))
  }

  /** The entry that comes up after `n` turns has a longer chain than the depth limit allows. */
  predicate TooDeep(p: Problem, n: nat, maxDepth: Option<nat>) {
    maxDepth.Some? && WalkAt(p, n).Some? && WalkAt(p, n).value.queue != [] &&
    |WalkAt(p, n).value.queue[0].path| > 2 * maxDepth.value
  }

  predicate TooMany(p: Problem, n: nat, maxNodes: Option<nat>) {
    maxNodes.Some? && WalkAt(p, n).Some? && PicksAt(p, n) > maxNodes.value
  }

  /** What the error is when nothing meets the ranges of the first entry. */
  function NoPick(p: Problem, strict: bool, w: Walk): Outcome
    requires w.queue != []
  {
    var name := w.queue[0].want.name;
    if name !in p.catalog && strict then ClassNotFound(name) else DepConflict(name, Absorb(w).constraints[name])
  }

  /** No limit is hit on the way to turn `n`. */
  ghost predicate Clear(p: Problem, n: nat, maxDepth: Option<nat>, maxNodes: Option<nat>) {
    && WalkAt(p, n).Some?
    && (forall m: nat :: m < n ==> !TooDeep(p, m, maxDepth))
    && (forall m: nat :: m <= n ==> !TooMany(p, m, maxNodes))
  }

  /** The answer with limits, read off the walk without: the first thing that ends it, in the order it is tested. */
  ghost predicate Answers(p: Problem, strict: bool, maxDepth: Option<nat>, maxNodes: Option<nat>, n: nat,
                          out: Outcome, nodes: nat) {
    && Clear(p, n, maxDepth, maxNodes)
    && (out.DepthExceeded? <==> TooDeep(p, n, maxDepth))
    && nodes == PicksAt(p, if out.NodesExceeded? then n + 1 else n)
    && match out
       case Resolved(manifest, constraints) => Finished(p, n, manifest, constraints)
       case DepConflict(name, ranges) => Stuck(p, n, name, ranges) && (name in p.catalog || !strict)
       case ClassNotFound(missing) => (exists ranges :: Stuck(p, n, missing, ranges)) && missing !in p.catalog && strict
       case DepthExceeded(path) => path == WalkAt(p, n).value.queue[0].path
       case NodesExceeded => TooMany(p, n + 1, maxNodes)
  }

  /** Everything the walk has recorded by turn `n` is within the limits. */
  ghost predicate WithinLimits(p: Problem, n: nat, maxDepth: Option<nat>, maxNodes: Option<nat>) {
    && WalkAt(p, n).Some?
    && (maxNodes.Some? ==> PicksAt(p, n) <= maxNodes.value)
    && (maxDepth.Some? ==> forall c, i :: c in WalkAt(p, n).value.constraints && 0 <= i < |WalkAt(p, n).value.constraints[c]| ==>
                             |WalkAt(p, n).value.constraints[c][i].path| <= 2 * maxDepth.value)
  }

  /** Ranges are recorded when their entry comes up, so none has too long a chain. */
  lemma {:induction false} RecordedIsShallow(p: Problem, n: nat, maxDepth: nat, c: ClassName, i: nat)
    requires WalkAt(p, n).Some? && forall m: nat :: m < n ==> !TooDeep(p, m, Some(maxDepth))
    requires c in WalkAt(p, n).value.constraints && i < |WalkAt(p, n).value.constraints[c]|
    ensures |WalkAt(p, n).value.constraints[c][i].path| <= 2 * maxDepth
    decreases n
  {
    if n > 0 {
      var before := WalkAt(p, n - 1).value;
      NextShape(before, Pick(p, before).value);
      assert !TooDeep(p, n - 1, Some(maxDepth));
      if c in before.constraints && i < |before.constraints[c]| {
        RecordedIsShallow(p, n - 1, maxDepth, c, i);
      }
    }
  }

  lemma ClearIsWithin(p: Problem, n: nat, maxDepth: Option<nat>, maxNodes: Option<nat>)
    requires Clear(p, n, maxDepth, maxNodes)
    ensures WithinLimits(p, n, maxDepth, maxNodes)
  {
    assert !TooMany(p, n, maxNodes);
    if maxDepth.Some? {
      forall c, i | c in WalkAt(p, n).value.constraints && 0 <= i < |WalkAt(p, n).value.constraints[c]|
        ensures |WalkAt(p, n).value.constraints[c][i].path| <= 2 * maxDepth.value
      {
        RecordedIsShallow(p, n, maxDepth.value, c, i);
      }
    }
  }

  /** How the walk stands after `n` turns decides between the kinds of answer. */
  lemma AnswerKind(p: Problem, strict: bool, maxDepth: Option<nat>, maxNodes: Option<nat>, n: nat, out: Outcome, nodes: nat)
    requires Answers(p, strict, maxDepth, maxNodes, n, out, nodes)
    ensures WalkAt(p, n).Some?
    ensures var w := WalkAt(p, n).value;
      && (out.DepthExceeded? <==> TooDeep(p, n, maxDepth))
      && (out.Resolved? ==> w.queue == [] && out == Resolved(w.picked, w.constraints))
      && (out.DepthExceeded? ==> w.queue != [] && out == DepthExceeded(w.queue[0].path))
      && (out.NodesExceeded? ==> w.queue != [] && Pick(p, w).Some?)
      && (out.DepConflict? || out.ClassNotFound? ==>
            && w.queue != [] && Pick(p, w).None? && out == NoPick(p, strict, w))
  {
  }

  lemma SameTurn(p: Problem, strict: bool, maxDepth: Option<nat>, maxNodes: Option<nat>, n: nat, out: Outcome, other: Outcome)
    requires exists nodes :: Answers(p, strict, maxDepth, maxNodes, n, out, nodes)
    requires exists count :: Answers(p, strict, maxDepth, maxNodes, n, other, count)
    ensures out == other
  {
    var nodes :| Answers(p, strict, maxDepth, maxNodes, n, out, nodes);
    var count :| Answers(p, strict, maxDepth, maxNodes, n, other, count);
    AnswerKind(p, strict, maxDepth, maxNodes, n, out, nodes);
    AnswerKind(p, strict, maxDepth, maxNodes, n, other, count);
  }

  lemma AnswerIsLast(p: Problem, strict: bool, maxDepth: Option<nat>, maxNodes: Option<nat>,
                     n: nat, out: Outcome, nodes: nat, m: nat)
    requires Answers(p, strict, maxDepth, maxNodes, n, out, nodes) && n < m
    ensures !Clear(p, m, maxDepth, maxNodes)
  {
    if !out.DepthExceeded? && !out.NodesExceeded? {
      WalkEnds(p, n, m);
    }
  }

  lemma OneTurn(p: Problem, strict: bool, maxDepth: Option<nat>, maxNodes: Option<nat>,
                n: nat, out: Outcome, nodes: nat, m: nat, other: Outcome, count: nat)
    requires Answers(p, strict, maxDepth, maxNodes, n, out, nodes)
    requires Answers(p, strict, maxDepth, maxNodes, m, other, count)
    ensures n == m
  {
    if n < m {
      AnswerIsLast(p, strict, maxDepth, maxNodes, n, out, nodes, m);
    } else if m < n {
      AnswerIsLast(p, strict, maxDepth, maxNodes, m, other, count, n);
    }
  }

  /** A walk ends in one way, with limits too: turn, answer and count are fixed by the walk without. */
  lemma OneAnswer(p: Problem, strict: bool, maxDepth: Option<nat>, maxNodes: Option<nat>,
                  n: nat, out: Outcome, nodes: nat, m: nat, other: Outcome, count: nat)
    requires Answers(p, strict, maxDepth, maxNodes, n, out, nodes)
    requires Answers(p, strict, maxDepth, maxNodes, m, other, count)
    ensures n == m && out == other && nodes == count
  {
    OneTurn(p, strict, maxDepth, maxNodes, n, out, nodes, m, other, count);
    SameTurn(p, strict, maxDepth, maxNodes, n, out, other);
  }

  /** A limit error is the answer exactly when the walk hits that limit, and did not end or hit the other before. */
  lemma LimitErrorIff(p: Problem, strict: bool, maxDepth: Option<nat>, maxNodes: Option<nat>, n: nat,
                      out: Outcome, nodes: nat)
    requires Answers(p, strict, maxDepth, maxNodes, n, out, nodes)
    ensures out.DepthExceeded? <==>
            exists m: nat :: Clear(p, m, maxDepth, maxNodes) && TooDeep(p, m, maxDepth)
    ensures out.NodesExceeded? <==>
            exists m: nat :: Clear(p, m, maxDepth, maxNodes) && !TooDeep(p, m, maxDepth) && TooMany(p, m + 1, maxNodes)
  {
    if m: nat :| Clear(p, m, maxDepth, maxNodes) && TooDeep(p, m, maxDepth) {
      var path := WalkAt(p, m).value.queue[0].path;
      OneAnswer(p, strict, maxDepth, maxNodes, n, out, nodes, m, DepthExceeded(path), PicksAt(p, m));
    }
    if m: nat :| Clear(p, m, maxDepth, maxNodes) && !TooDeep(p, m, maxDepth) && TooMany(p, m + 1, maxNodes) {
      OneAnswer(p, strict, maxDepth, maxNodes, n, out, nodes, m, NodesExceeded, PicksAt(p, m + 1));
    }
  }

  /** A turn costs a pick exactly when it changes the picks. */
  lemma CostIsChange(p: Problem, w: Walk, chosen: Record)
    requires w.queue != [] && Pick(p, w) == Some(chosen)
    ensures PickCost(p, Some(w)) == if Next(w, chosen).picked == w.picked then 0 else 1
  {
    NextShape(w, chosen);
  }

  lemma TurnCounts(p: Problem, n: nat, w: Walk, chosen: Record)
    requires WalkAt(p, n) == Some(w) && w.queue != [] && Pick(p, w) == Some(chosen)
    ensures WalkAt(p, n + 1) == Some(Next(w, chosen))
    ensures PicksAt(p, n + 1) == PicksAt(p, n) + if Unchanged(w, w.queue[0].want.name, chosen) then 0 else 1
  {
  }

  lemma ClearOn(p: Problem, n: nat, maxDepth: Option<nat>, maxNodes: Option<nat>)
    requires Clear(p, n, maxDepth, maxNodes) && WalkAt(p, n + 1).Some?
    requires !TooDeep(p, n, maxDepth) && !TooMany(p, n + 1, maxNodes)
    ensures Clear(p, n + 1, maxDepth, maxNodes)
  {
  }

  // ---------------------------------------------------------------- The loop

  /** What each way of ending means. */
  ghost predicate Honest(p: Problem, strict: bool, maxDepth: Option<nat>, maxNodes: Option<nat>,
                         out: Outcome, nodes: nat) {
    match out
    case Resolved(manifest, constraints) =>
      && Solution(p, manifest, constraints)
      && manifest.Keys <= p.catalog.Keys
      && nodes <= Sum(map n | n in manifest :: |p.catalog[n]|)
      && (exists n: nat :: Finished(p, n, manifest, constraints))
    case DepConflict(name, ranges) =>
      && (exists n: nat :: Stuck(p, n, name, ranges))
      && ranges != []
      && (name !in p.catalog ==> !strict)
      && (name in p.catalog ==> forall r :: r in p.catalog[name] ==> !Eligible(p.semver, r, ranges))
      && forall i :: 0 <= i < |ranges| ==> Justified(p, Want(name, ranges[i].range), ranges[i].path)
    case ClassNotFound(missing) =>
      strict && missing !in p.catalog && exists n: nat, ranges :: Stuck(p, n, missing, ranges)
    case DepthExceeded(path) =>
      && maxDepth.Some? && |path| > 2 * maxDepth.value
      && path != [] && path[|path| - 1].Asked? && Justified(p, path[|path| - 1].want, path)
    case NodesExceeded =>
      maxNodes.Some? && maxNodes.value < nodes <= Sum(Sizes(p.catalog))
  }

  method PushDeps(queue: seq<Entry>, node: Entry, chosen: Record) returns (longer: seq<Entry>)
    ensures longer == queue + Pushes(node, chosen)
  {
    longer := queue;
    for k := 0 to |chosen.deps|
      invariant longer == queue + Pushes(node, chosen)[..k]
    {
      var dep := chosen.deps[k];
      longer := longer + [Entry(dep, node.path + [Chose(node.want.name, chosen.version), Asked(dep)])];
    }
  }

  /** The loop stops at an entry whose ranges nothing live meets. */
  lemma {:induction false} StuckIsHonest(p: Problem, strict: bool, maxDepth: Option<nat>, maxNodes: Option<nat>,
                                         turns: nat, w: Walk, list: seq<Accumulated>, nodes: nat)
    requires p.semver.Valid() && Explained(p, w) && WalkAt(p, turns) == Some(w) && w.queue != []
    requires list == ListOf(w, w.queue[0].want.name) + [Accumulated(w.queue[0].want.range, w.queue[0].path)]
    requires var name := w.queue[0].want.name;
      name in p.catalog ==> PickHighest(p.semver, p.catalog[name], list).None?
    ensures var name := w.queue[0].want.name;
      Honest(p, strict, maxDepth, maxNodes,
             if name !in p.catalog && strict then ClassNotFound(name) else DepConflict(name, list), nodes)
  {
    var name := w.queue[0].want.name;
    AbsorbKeepsExplained(p, w);
    assert Absorb(w).constraints[name] == list;
    WalkStops(p, turns, w, list);
    if name in p.catalog {
      PickIsHighest(p.semver, p.catalog[name], list);
    }
  }

  lemma DeepIsHonest(p: Problem, strict: bool, maxDepth: Option<nat>, maxNodes: Option<nat>, w: Walk, nodes: nat)
    requires Explained(p, w) && w.queue != [] && maxDepth.Some? && |w.queue[0].path| > maxDepth.value * 2
    ensures Honest(p, strict, maxDepth, maxNodes, DepthExceeded(w.queue[0].path), nodes)
  {
  }

  /** The number of picks after a turn that picks `chosen`. */
  function Picks(w: Walk, nodes: nat, chosen: Record): nat
    requires w.queue != []
  {
    nodes + if Unchanged(w, w.queue[0].want.name, chosen) then 0 else 1
  }

  // What the loop keeps, at every turn of the walk.

  lemma {:induction false} WalkPicks(p: Problem, n: nat)
    requires p.semver.Valid() && WalkAt(p, n).Some?
    ensures PicksCurrent(p, WalkAt(p, n).value)
    decreases n
  {
    if n == 0 {
      StartHolds(p);
    } else {
      WalkPicks(p, n - 1);
      NextKeepsPicks(p, WalkAt(p, n - 1).value, Pick(p, WalkAt(p, n - 1).value).value);
    }
  }

  lemma {:induction false} WalkIsClosed(p: Problem, n: nat)
    requires p.semver.Valid() && WalkAt(p, n).Some?
    ensures PicksCurrent(p, WalkAt(p, n).value) && Closed(p, WalkAt(p, n).value)
    decreases n
  {
    WalkPicks(p, n);
    if n == 0 {
      StartHolds(p);
    } else {
      WalkIsClosed(p, n - 1);
      NextKeepsClosed(p, WalkAt(p, n - 1).value, Pick(p, WalkAt(p, n - 1).value).value);
    }
  }

  lemma {:induction false} WalkIsExplained(p: Problem, n: nat)
    requires p.semver.Valid() && WalkAt(p, n).Some?
    ensures Explained(p, WalkAt(p, n).value)
    decreases n
  {
    if n == 0 {
      StartHolds(p);
    } else {
      WalkIsExplained(p, n - 1);
      NextKeepsExplained(p, WalkAt(p, n - 1).value, Pick(p, WalkAt(p, n - 1).value).value);
    }
  }

  lemma {:induction false} WalkIsListed(p: Problem, n: nat, name: ClassName)
    requires WalkAt(p, n).Some? && name in WalkAt(p, n).value.constraints
    ensures WalkAt(p, n).value.constraints[name] != []
    decreases n
  {
    if n > 0 {
      var w := WalkAt(p, n - 1).value;
      NextShape(w, Pick(p, w).value);
      if name != w.queue[0].want.name {
        WalkIsListed(p, n - 1, name);
      }
    }
  }

  /** A turn pays for its pick, and counts it. */
  lemma TurnPays(p: Problem, w: Walk, chosen: Record, spent: map<ClassName, nat>) returns (after: map<ClassName, nat>)
    requires p.semver.Valid() && w.queue != [] && PicksCurrent(p, w) && Paid(p, w, spent) && Chosen(p, w, chosen)
    ensures Paid(p, Next(w, chosen), after)
    ensures Sum(after) == Sum(spent) + PickCost(p, Some(w))
  {
    after := Spend(w, chosen, spent);
    NextKeepsPaid(p, w, chosen, spent);
    SpendCountsOne(w, chosen, spent);
  }

  /** The picks made so far are paid for. */
  ghost predicate PaidPicks(p: Problem, w: Walk, nodes: nat) {
    exists spent: map<ClassName, nat> :: Paid(p, w, spent) && Sum(spent) == nodes
  }

  lemma TurnIsPaid(p: Problem, n: nat, w: Walk, next: Walk)
    requires p.semver.Valid() && WalkAt(p, n) == Some(w) && WalkAt(p, n + 1) == Some(next)
    requires PaidPicks(p, w, PicksAt(p, n))
    ensures PaidPicks(p, next, PicksAt(p, n + 1))
  {
    var before: map<ClassName, nat> :| Paid(p, w, before) && Sum(before) == PicksAt(p, n);
    WalkPicks(p, n);
    var after := TurnPays(p, w, Pick(p, w).value, before);
    assert Paid(p, next, after) && Sum(after) == PicksAt(p, n + 1);
  }

  lemma StartIsPaid(p: Problem)
    ensures PaidPicks(p, Walk(map[], map[], Start(p.roots)), 0)
  {
    StartHolds(p);
    var none: map<ClassName, nat> := map[];
    assert Paid(p, Walk(map[], map[], Start(p.roots)), none) && Sum(none) == 0;
  }

  lemma BeforeTurn(p: Problem, n: nat, next: Walk) returns (w: Walk)
    requires WalkAt(p, n + 1) == Some(next)
    ensures WalkAt(p, n) == Some(w)
  {
    w := WalkAt(p, n).value;
  }

  lemma {:induction false} LaterIsPaid(p: Problem, n: nat, w: Walk)
    requires p.semver.Valid() && WalkAt(p, n + 1) == Some(w)
    ensures PaidPicks(p, w, PicksAt(p, n + 1))
    decreases n + 1, 0
  {
    var before := BeforeTurn(p, n, w);
    WalkIsPaid(p, n, before);
    TurnIsPaid(p, n, before, w);
  }

  lemma {:induction false} WalkIsPaid(p: Problem, n: nat, w: Walk)
    requires p.semver.Valid() && WalkAt(p, n) == Some(w)
    ensures PaidPicks(p, w, PicksAt(p, n))
    decreases n, 1
  {
    if n > 0 {
      LaterIsPaid(p, n - 1, w);
    } else {
      StartIsPaid(p);
    }
  }

  lemma PicksBound(p: Problem, n: nat, w: Walk)
    requires p.semver.Valid() && WalkAt(p, n) == Some(w)
    ensures w.picked.Keys <= p.catalog.Keys
    ensures PicksAt(p, n) <= Sum(map c | c in w.picked :: |p.catalog[c]|) <= Sum(Sizes(p.catalog))
  {
    WalkIsPaid(p, n, w);
    var spent: map<ClassName, nat> :| Paid(p, w, spent) && Sum(spent) == PicksAt(p, n);
    PaidBound(p, w, spent);
  }

  /** The loop, after `turns` turns of the walk that hit no limit. */
  ghost predicate InLoop(p: Problem, maxDepth: Option<nat>, maxNodes: Option<nat>, turns: nat, w: Walk, nodes: nat) {
    WalkAt(p, turns) == Some(w) && nodes == PicksAt(p, turns) && Clear(p, turns, maxDepth, maxNodes)
  }

  /** What the resolver promises: the answer is the one of the walk, within the limits, and means what it says. */
  ghost predicate Answered(p: Problem, strict: bool, maxDepth: Option<nat>, maxNodes: Option<nat>,
                           out: Outcome, nodes: nat) {
    exists n: nat ::
      && Answers(p, strict, maxDepth, maxNodes, n, out, nodes)
      && WithinLimits(p, n, maxDepth, maxNodes)
      && Honest(p, strict, maxDepth, maxNodes, out, nodes)
  }

  predicate Deep(w: Walk, maxDepth: Option<nat>)
    requires w.queue != []
  {
    maxDepth.Some? && |w.queue[0].path| > maxDepth.value * 2
  }

  predicate Exceeds(nodes: nat, count: nat, maxNodes: Option<nat>) {
    count > nodes && maxNodes.Some? && count > maxNodes.value
  }

  datatype Progress = GoesOn(walk: Walk, nodes: nat) | Ends(out: Outcome, count: nat)

  /** One turn of the loop, in the order it tests things. */
  function TurnOf(p: Problem, strict: bool, maxDepth: Option<nat>, maxNodes: Option<nat>, w: Walk, nodes: nat): Progress
    requires w.queue != []
  {
    if Deep(w, maxDepth) then Ends(DepthExceeded(w.queue[0].path), nodes)
    else if Pick(p, w).None? then Ends(NoPick(p, strict, w), nodes)
    else
      var count := Picks(w, nodes, Pick(p, w).value);
      if Exceeds(nodes, count, maxNodes) then Ends(NodesExceeded, count) else GoesOn(Next(w, Pick(p, w).value), count)
  }

  lemma DeepIsAnswered(p: Problem, strict: bool, maxDepth: Option<nat>, maxNodes: Option<nat>, turns: nat, w: Walk, nodes: nat)
    requires p.semver.Valid() && InLoop(p, maxDepth, maxNodes, turns, w, nodes) && w.queue != [] && Deep(w, maxDepth)
    ensures Answered(p, strict, maxDepth, maxNodes, DepthExceeded(w.queue[0].path), nodes)
  {
    WalkIsExplained(p, turns);
    DeepIsHonest(p, strict, maxDepth, maxNodes, w, nodes);
    ClearIsWithin(p, turns, maxDepth, maxNodes);
    assert Answers(p, strict, maxDepth, maxNodes, turns, DepthExceeded(w.queue[0].path), nodes);
  }

  lemma StuckIsAnswered(p: Problem, strict: bool, maxDepth: Option<nat>, maxNodes: Option<nat>, turns: nat, w: Walk, nodes: nat)
    requires p.semver.Valid() && InLoop(p, maxDepth, maxNodes, turns, w, nodes) && w.queue != []
    requires !Deep(w, maxDepth) && Pick(p, w).None?
    ensures Answered(p, strict, maxDepth, maxNodes, NoPick(p, strict, w), nodes)
  {
    WalkIsExplained(p, turns);
    var list := Absorb(w).constraints[w.queue[0].want.name];
    StuckIsHonest(p, strict, maxDepth, maxNodes, turns, w, list, nodes);
    ClearIsWithin(p, turns, maxDepth, maxNodes);
    WalkStops(p, turns, w, list);
    assert Answers(p, strict, maxDepth, maxNodes, turns, NoPick(p, strict, w), nodes);
  }

  lemma ManyIsAnswered(p: Problem, strict: bool, maxDepth: Option<nat>, maxNodes: Option<nat>, turns: nat, w: Walk, nodes: nat)
    requires p.semver.Valid() && InLoop(p, maxDepth, maxNodes, turns, w, nodes) && w.queue != []
    requires !Deep(w, maxDepth) && Pick(p, w).Some? && Exceeds(nodes, Picks(w, nodes, Pick(p, w).value), maxNodes)
    ensures Answered(p, strict, maxDepth, maxNodes, NodesExceeded, nodes + 1)
  {
    TurnCounts(p, turns, w, Pick(p, w).value);
    PicksBound(p, turns + 1, WalkAt(p, turns + 1).value);
    ClearIsWithin(p, turns, maxDepth, maxNodes);
    assert Answers(p, strict, maxDepth, maxNodes, turns, NodesExceeded, nodes + 1);
  }

  lemma DoneMeans(p: Problem, strict: bool, maxDepth: Option<nat>, maxNodes: Option<nat>, turns: nat, w: Walk)
    requires p.semver.Valid() && WalkAt(p, turns) == Some(w) && w.queue == []
    ensures Honest(p, strict, maxDepth, maxNodes, Resolved(w.picked, w.constraints), PicksAt(p, turns))
  {
    assert Solution(p, w.picked, w.constraints) by {
      WalkIsClosed(p, turns);
      WalkIsExplained(p, turns);
      forall name | name in w.constraints ensures w.constraints[name] != [] {
        WalkIsListed(p, turns, name);
      }
      DoneIsSolution(p, w);
    }
    PicksBound(p, turns, w);
    assert Finished(p, turns, w.picked, w.constraints);
  }

  lemma DoneIsAnswered(p: Problem, strict: bool, maxDepth: Option<nat>, maxNodes: Option<nat>, turns: nat, w: Walk, nodes: nat)
    requires p.semver.Valid() && InLoop(p, maxDepth, maxNodes, turns, w, nodes) && w.queue == []
    ensures Answered(p, strict, maxDepth, maxNodes, Resolved(w.picked, w.constraints), nodes)
  {
    DoneMeans(p, strict, maxDepth, maxNodes, turns, w);
    ClearIsWithin(p, turns, maxDepth, maxNodes);
    assert Answers(p, strict, maxDepth, maxNodes, turns, Resolved(w.picked, w.constraints), nodes);
  }

  lemma TurnGoesOn(p: Problem, maxDepth: Option<nat>, maxNodes: Option<nat>, turns: nat, w: Walk, nodes: nat)
    requires p.semver.Valid() && InLoop(p, maxDepth, maxNodes, turns, w, nodes) && w.queue != []
    requires !Deep(w, maxDepth) && Pick(p, w).Some? && !Exceeds(nodes, Picks(w, nodes, Pick(p, w).value), maxNodes)
    ensures InLoop(p, maxDepth, maxNodes, turns + 1, Next(w, Pick(p, w).value), Picks(w, nodes, Pick(p, w).value))
  {
    TurnCounts(p, turns, w, Pick(p, w).value);
    assert !TooMany(p, turns, maxNodes);
    ClearOn(p, turns, maxDepth, maxNodes);
  }

  /** A turn that ends the loop has the answer. */
  lemma LoopEnds(p: Problem, strict: bool, maxDepth: Option<nat>, maxNodes: Option<nat>, turns: nat, w: Walk, nodes: nat,
                 out: Outcome, count: nat)
    requires p.semver.Valid() && InLoop(p, maxDepth, maxNodes, turns, w, nodes) && w.queue != []
    requires TurnOf(p, strict, maxDepth, maxNodes, w, nodes) == Ends(out, count)
    ensures Answered(p, strict, maxDepth, maxNodes, out, count)
  {
    if Deep(w, maxDepth) {
      DeepIsAnswered(p, strict, maxDepth, maxNodes, turns, w, nodes);
    } else if Pick(p, w).None? {
      StuckIsAnswered(p, strict, maxDepth, maxNodes, turns, w, nodes);
    } else {
      ManyIsAnswered(p, strict, maxDepth, maxNodes, turns, w, nodes);
    }
  }

  /** Any other goes on, with one more pick or one entry less, and there is a bound on the picks. */
  lemma LoopGoesOn(p: Problem, strict: bool, maxDepth: Option<nat>, maxNodes: Option<nat>, turns: nat, w: Walk, nodes: nat,
                   next: Walk, count: nat)
    requires p.semver.Valid() && InLoop(p, maxDepth, maxNodes, turns, w, nodes) && w.queue != []
    requires TurnOf(p, strict, maxDepth, maxNodes, w, nodes) == GoesOn(next, count)
    ensures InLoop(p, maxDepth, maxNodes, turns + 1, next, count) && count <= Sum(Sizes(p.catalog))
    ensures count > nodes || (count == nodes && |next.queue| < |w.queue|)
  {
    TurnGoesOn(p, maxDepth, maxNodes, turns, w, nodes);
    PicksBound(p, turns + 1, next);
  }

  /** A result is within the limits: as many picks as allowed, and no chain longer than allowed. */
  lemma ResolvedIsWithinLimits(p: Problem, strict: bool, maxDepth: Option<nat>, maxNodes: Option<nat>,
                               out: Outcome, nodes: nat)
    requires Answered(p, strict, maxDepth, maxNodes, out, nodes) && out.Resolved?
    ensures maxNodes.Some? ==> nodes <= maxNodes.value
    ensures maxDepth.Some? ==> forall c, i :: c in out.constraints && 0 <= i < |out.constraints[c]| ==>
                                 |out.constraints[c][i].path| <= 2 * maxDepth.value
  {
  }

  method TakeTurn(p: Problem, strict: bool, maxDepth: Option<nat>, maxNodes: Option<nat>, w: Walk, nodes: nat)
      returns (progress: Progress)
    requires w.queue != []
    ensures progress == TurnOf(p, strict, maxDepth, maxNodes, w, nodes)
  {
    var Walk(constraints, picked, queue) := w;
    var node := queue[0];
    queue := queue[1..];
    if maxDepth.Some? && |node.path| > maxDepth.value * 2 {
      return Ends(DepthExceeded(node.path), nodes);
    }
    var name := node.want.name;
    var list := if name in constraints then constraints[name] else [];
    list := list + [Accumulated(node.want.range, node.path)];
    constraints := constraints[name := list];
    if name !in p.catalog {
      return Ends(if strict then ClassNotFound(name) else DepConflict(name, list), nodes);
    }
    var candidate := PickHighest(p.semver, p.catalog[name], list);
    if candidate.None? {
      return Ends(DepConflict(name, list), nodes);
    }
    var chosen := candidate.value;
    if name in picked && picked[name] == chosen.version {
      return GoesOn(Walk(constraints, picked, queue), nodes);
    }
    picked := picked[name := chosen.version];
    if maxNodes.Some? && nodes + 1 > maxNodes.value {
      return Ends(NodesExceeded, nodes + 1);
    }
    queue := PushDeps(queue, node, chosen);
    return GoesOn(Walk(constraints, picked, queue), nodes + 1);
  }

  /**
   * The resolver. `strict` says whether the lookup throws for an unknown class or returns no
   * versions; `None` as a limit is an infinite one. Without limits it still terminates.
   */
  method Resolve(p: Problem, strict: bool, maxDepth: Option<nat>, maxNodes: Option<nat>)
      returns (out: Outcome, nodes: nat)
    requires p.semver.Valid()
    ensures Answered(p, strict, maxDepth, maxNodes, out, nodes)
  {
    var w := Walk(map[], map[], Start(p.roots));
    nodes := 0;
    ghost var turns: nat := 0;
    while w.queue != []
      invariant InLoop(p, maxDepth, maxNodes, turns, w, nodes)
      decreases Sum(Sizes(p.catalog)) - nodes, |w.queue|
    {
      var progress := TakeTurn(p, strict, maxDepth, maxNodes, w, nodes);
      if progress.Ends? {
        LoopEnds(p, strict, maxDepth, maxNodes, turns, w, nodes, progress.out, progress.count);
        return progress.out, progress.count;
      }
      LoopGoesOn(p, strict, maxDepth, maxNodes, turns, w, nodes, progress.walk, progress.nodes);
      turns, w, nodes := turns + 1, progress.walk, progress.nodes;
    }
    DoneIsAnswered(p, strict, maxDepth, maxNodes, turns, w, nodes);
    return Resolved(w.picked, w.constraints), nodes;
  }
}
