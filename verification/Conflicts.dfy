/** What a conflict of the resolver says about the problem, and what it does not. */
module Conflicts {
  import opened Wrappers
  import opened Picking
  import opened Resolver

  /** Some choice of live versions satisfies the roots and its own dependencies. */
  ghost predicate Solvable(p: Problem) {
    exists manifest: map<ClassName, Version> :: Solves(p, manifest)
  }

  ghost predicate Solves(p: Problem, manifest: map<ClassName, Version>) {
    && (forall want :: want in p.roots ==> Satisfied(p, manifest, want))
    && forall n :: n in manifest ==> exists r :: Serves(p, manifest, n, r)
  }

  ghost predicate Serves(p: Problem, manifest: map<ClassName, Version>, n: ClassName, r: Record) {
    && n in manifest && n in p.catalog && r in p.catalog[n] && r.version == manifest[n] && !r.deprecated
    && forall want :: want in r.deps ==> Satisfied(p, manifest, want)
  }

  /** A result is such a choice. */
  lemma ResolvedSolves(p: Problem, manifest: map<ClassName, Version>, constraints: map<ClassName, seq<Accumulated>>)
    requires Solution(p, manifest, constraints)
    ensures Solves(p, manifest)
  {
    forall n | n in manifest ensures exists r :: Serves(p, manifest, n, r) {
      var r :| ClosedPin(p, manifest, n, r, constraints[n]);
      assert Serves(p, manifest, n, r);
    }
  }

  /** A walk that gets stuck decides the outcome: without limits nothing but the error is possible. */
  lemma {:induction false} StuckDecides(p: Problem, n: nat, name: ClassName, ranges: seq<Accumulated>, strict: bool,
                                        out: Outcome, nodes: nat)
    requires Stuck(p, n, name, ranges) && name in p.catalog && Honest(p, strict, None, None, out, nodes)
    ensures out == DepConflict(name, ranges)
  {
    assert Ended(p, n);
    match out {
      case Resolved(manifest, constraints) =>
        var m: nat :| Finished(p, m, manifest, constraints);
        OneEnd(p, n, m);
      case DepConflict(other, clash) =>
        var m: nat :| Stuck(p, m, other, clash);
        OneEnd(p, n, m);
      case ClassNotFound(missing) =>
        var m: nat, clash :| Stuck(p, m, missing, clash);
        OneEnd(p, n, m);
      case _ =>
    }
  }

  // ---------------------------------------------------------------- What every conflict says

  /** Two live records a want allows are the same one. */
  ghost predicate OneChoice(p: Problem, want: Want) {
    want.name in p.catalog ==>
      forall r, s :: Allowed(p, want, r) && Allowed(p, want, s) ==> r == s
  }

  predicate Allowed(p: Problem, want: Want, r: Record)
    requires want.name in p.catalog
  {
    r in p.catalog[want.name] && !r.deprecated && p.semver.satisfies(r.version, want.range)
  }

  /** Publishing refuses a version that a class already has. */
  ghost predicate VersionsDiffer(p: Problem) {
    forall n, r, s :: n in p.catalog && r in p.catalog[n] && s in p.catalog[n] && r.version == s.version ==> r == s
  }

  /** On the chain, each version was the only live one its range allowed, or is the one the manifest has. */
  ghost predicate Binding(p: Problem, manifest: map<ClassName, Version>, path: seq<Hop>)
    decreases |path|
  {
    |path| >= 3 && path[|path| - 2].Chose? && path[|path| - 3].Asked? ==>
      var c, asked := path[|path| - 2], path[|path| - 3].want;
      && (OneChoice(p, asked) || (c.name in manifest && manifest[c.name] == c.version))
      && Binding(p, manifest, path[..|path| - 2])
  }

  /** A solution meets every range whose chain binds it. */
  lemma {:induction false} BoundIsSatisfied(p: Problem, manifest: map<ClassName, Version>, want: Want, path: seq<Hop>)
    requires VersionsDiffer(p) && Solves(p, manifest) && Justified(p, want, path) && Binding(p, manifest, path)
    ensures Satisfied(p, manifest, want)
    decreases |path|
  {
    if |path| > 1 {
      var c, asked := path[|path| - 2], path[|path| - 3].want;
      BoundIsSatisfied(p, manifest, asked, path[..|path| - 2]);
      var r :| r in p.catalog[asked.name] && r.version == c.version && !r.deprecated &&
               p.semver.satisfies(c.version, asked.range) && want in r.deps;
      var s :| Serves(p, manifest, asked.name, s);
      assert Allowed(p, asked, r) && Allowed(p, asked, s);
      assert r == s;
    }
  }

  lemma StuckChains(p: Problem, n: nat, name: ClassName, ranges: seq<Accumulated>)
    requires p.semver.Valid() && Stuck(p, n, name, ranges)
    ensures ranges != []
    ensures forall i :: 0 <= i < |ranges| ==> Justified(p, Want(name, ranges[i].range), ranges[i].path)
  {
    WalkIsExplained(p, n);
    AbsorbKeepsExplained(p, WalkAt(p, n).value);
  }

  lemma StuckIsEmpty(p: Problem, n: nat, name: ClassName, ranges: seq<Accumulated>)
    requires p.semver.Valid() && Stuck(p, n, name, ranges)
    ensures name in p.catalog ==> forall r :: r in p.catalog[name] ==> !Eligible(p.semver, r, ranges)
  {
    if name in p.catalog {
      PickIsHighest(p.semver, p.catalog[name], ranges);
    }
  }

  /**
   * Whatever the problem: a solution, if there is one, differs from the walk in a choice that was open.
   * Some range of the conflict was asked for by a version the solution does not have.
   */
  lemma SolutionsDepart(p: Problem, n: nat, name: ClassName, ranges: seq<Accumulated>, manifest: map<ClassName, Version>)
    requires p.semver.Valid() && VersionsDiffer(p) && Stuck(p, n, name, ranges) && Solves(p, manifest)
    ensures exists i :: 0 <= i < |ranges| && !Binding(p, manifest, ranges[i].path)
  {
    if forall i :: 0 <= i < |ranges| ==> Binding(p, manifest, ranges[i].path) {
      StuckChains(p, n, name, ranges);
      forall i | 0 <= i < |ranges| ensures Satisfied(p, manifest, Want(name, ranges[i].range)) {
        BoundIsSatisfied(p, manifest, Want(name, ranges[i].range), ranges[i].path);
      }
      MeetsAll(p, name, ranges, manifest);
      StuckIsEmpty(p, n, name, ranges);
    }
  }

  lemma MeetsAll(p: Problem, name: ClassName, ranges: seq<Accumulated>, manifest: map<ClassName, Version>)
    requires Solves(p, manifest) && ranges != []
    requires forall i :: 0 <= i < |ranges| ==> Satisfied(p, manifest, Want(name, ranges[i].range))
    ensures name in p.catalog && exists r :: r in p.catalog[name] && Eligible(p.semver, r, ranges)
  {
    assert Satisfied(p, manifest, Want(name, ranges[0].range));
    var r :| Serves(p, manifest, name, r);
    forall i | 0 <= i < |ranges| ensures p.semver.satisfies(r.version, ranges[i].range) {
      assert Satisfied(p, manifest, Want(name, ranges[i].range));
    }
    assert Eligible(p.semver, r, ranges);
  }

  /** On the chain, each version was the only live one its range allowed. */
  ghost predicate Forced(p: Problem, path: seq<Hop>)
    decreases |path|
  {
    |path| >= 3 && path[|path| - 2].Chose? && path[|path| - 3].Asked? ==>
      OneChoice(p, path[|path| - 3].want) && Forced(p, path[..|path| - 2])
  }

  lemma {:induction false} ForcedIsBinding(p: Problem, manifest: map<ClassName, Version>, path: seq<Hop>)
    requires Forced(p, path)
    ensures Binding(p, manifest, path)
    decreases |path|
  {
    if |path| >= 3 && path[|path| - 2].Chose? && path[|path| - 3].Asked? {
      ForcedIsBinding(p, manifest, path[..|path| - 2]);
    }
  }

  /** A conflict whose chains left no choice means that there is no solution. */
  lemma ForcedConflictIsUnsolvable(p: Problem, n: nat, name: ClassName, ranges: seq<Accumulated>)
    requires p.semver.Valid() && VersionsDiffer(p) && Stuck(p, n, name, ranges)
    requires forall i :: 0 <= i < |ranges| ==> Forced(p, ranges[i].path)
    ensures !Solvable(p)
  {
    if manifest :| Solves(p, manifest) {
      forall i | 0 <= i < |ranges| ensures Binding(p, manifest, ranges[i].path) {
        ForcedIsBinding(p, manifest, ranges[i].path);
      }
      SolutionsDepart(p, n, name, ranges, manifest);
    }
  }

  // ---------------------------------------------------------------- Problems without a choice

  ghost predicate Asks(p: Problem, want: Want) {
    want in p.roots || exists n, r :: n in p.catalog && r in p.catalog[n] && !r.deprecated && want in r.deps
  }

  /** Every range a root or a live version asks for allows at most one live version. */
  ghost predicate NoChoice(p: Problem) {
    forall want :: Asks(p, want) ==> OneChoice(p, want)
  }

  lemma {:induction false} NoChoiceForces(p: Problem, want: Want, path: seq<Hop>)
    requires NoChoice(p) && Justified(p, want, path)
    ensures Asks(p, want) && Forced(p, path)
    decreases |path|
  {
    if |path| > 1 {
      NoChoiceForces(p, path[|path| - 3].want, path[..|path| - 2]);
    }
  }

  /**
   * Without limits, the resolver succeeds only on solvable problems; and where no range leaves a choice,
   * on exactly those.
   */
  lemma ResolvedIffSolvable(p: Problem, strict: bool, out: Outcome, nodes: nat)
    requires p.semver.Valid() && VersionsDiffer(p) && Honest(p, strict, None, None, out, nodes)
    ensures out.Resolved? ==> Solvable(p)
    ensures NoChoice(p) ==> (out.Resolved? <==> Solvable(p))
  {
    if out.Resolved? {
      ResolvedSolves(p, out.manifest, out.constraints);
    } else if NoChoice(p) {
      var name := if out.DepConflict? then out.name else out.missing;
      var n: nat, ranges: seq<Accumulated> :| Stuck(p, n, name, ranges);
      StuckChains(p, n, name, ranges);
      forall i | 0 <= i < |ranges| ensures Forced(p, ranges[i].path) {
        NoChoiceForces(p, Want(name, ranges[i].range), ranges[i].path);
      }
      ForcedConflictIsUnsolvable(p, n, name, ranges);
    }
  }

  // ---------------------------------------------------------------- Where there is a choice

  /** Two versions told apart, a range that allows both, and one for each alone. */
  predicate Tells(sv: Semver, hi: Version, lo: Version, any: Range, atHi: Range, atLo: Range) {
    && sv.compare(lo, hi) < 0
    && sv.satisfies(hi, any) && sv.satisfies(lo, any)
    && sv.satisfies(hi, atHi) && !sv.satisfies(lo, atHi)
    && sv.satisfies(lo, atLo) && !sv.satisfies(hi, atLo)
  }

  /** The higher A wants the lower B; the lower A wants nothing. The roots want any A, and the higher B. */
  function Greedy(sv: Semver, hi: Version, lo: Version, any: Range, atHi: Range, atLo: Range): Problem {
    Problem(
      sv,
      map["A" := [Record(hi, [Want("B", atLo)], false), Record(lo, [], false)],
          "B" := [Record(hi, [], false), Record(lo, [], false)]],
      [Want("A", any), Want("B", atHi)])
  }

  lemma PickOfTwo(sv: Semver, a: Record, b: Record, list: seq<Accumulated>)
    requires sv.Valid() && sv.compare(b.version, a.version) < 0 && Eligible(sv, a, list)
    ensures PickHighest(sv, [a, b], list) == Some(a)
  {
    PickIsHighest(sv, [a, b], list);
    assert a in [a, b];
  }

  lemma FirstTurn(sv: Semver, hi: Version, lo: Version, any: Range, atHi: Range, atLo: Range)
    requires sv.Valid() && Tells(sv, hi, lo, any, atHi, atLo)
    ensures var p, a := Greedy(sv, hi, lo, any, atHi, atLo), Want("A", any);
      WalkAt(p, 1) == Some(Walk(
        map["A" := [Accumulated(any, [Asked(a)])]],
        map["A" := hi],
        [Entry(Want("B", atHi), [Asked(Want("B", atHi))]),
         Entry(Want("B", atLo), [Asked(a), Chose("A", hi), Asked(Want("B", atLo))])]))
  {
    var p, a, b := Greedy(sv, hi, lo, any, atHi, atLo), Want("A", any), Want("B", atHi);
    var w, list := Walk(map[], map[], Start(p.roots)), [Accumulated(any, [Asked(a)])];
    var chosen := Record(hi, [Want("B", atLo)], false);
    assert w.queue == [Entry(a, [Asked(a)]), Entry(b, [Asked(b)])];
    assert Absorb(w) == Walk(map["A" := list], map[], [Entry(b, [Asked(b)])]) by {
      assert [] + list == list && w.queue[1..] == [Entry(b, [Asked(b)])];
    }
    PickOfTwo(sv, chosen, Record(lo, [], false), list);
    assert Pushes(w.queue[0], chosen) == [Entry(Want("B", atLo), [Asked(a), Chose("A", hi), Asked(Want("B", atLo))])] by {
      assert [Asked(a)] + [Chose("A", hi), Asked(Want("B", atLo))] == [Asked(a), Chose("A", hi), Asked(Want("B", atLo))];
    }
    assert WalkAt(p, 0) == Some(w);
    WalkOn(p, 0, w, chosen);
    assert [Entry(b, [Asked(b)])] + Pushes(w.queue[0], chosen) == [Entry(b, [Asked(b)]), Pushes(w.queue[0], chosen)[0]];
  }

  lemma SecondTurn(sv: Semver, hi: Version, lo: Version, any: Range, atHi: Range, atLo: Range)
    requires sv.Valid() && Tells(sv, hi, lo, any, atHi, atLo)
    ensures var p := Greedy(sv, hi, lo, any, atHi, atLo);
      && WalkAt(p, 2).Some?
      && var w := WalkAt(p, 2).value;
      && w.queue == [Entry(Want("B", atLo), [Asked(Want("A", any)), Chose("A", hi), Asked(Want("B", atLo))])]
      && "B" in w.constraints && w.constraints["B"] == [Accumulated(atHi, [Asked(Want("B", atHi))])]
  {
    var p := Greedy(sv, hi, lo, any, atHi, atLo);
    FirstTurn(sv, hi, lo, any, atHi, atLo);
    var w := WalkAt(p, 1).value;
    var list, chosen := [Accumulated(atHi, [Asked(Want("B", atHi))])], Record(hi, [], false);
    assert Absorb(w).constraints["B"] == list by {
      assert [] + list == list;
    }
    PickOfTwo(sv, chosen, Record(lo, [], false), list);
    assert Pushes(w.queue[0], chosen) == [];
    WalkOn(p, 1, w, chosen);
    assert w.queue[1..] + [] == [w.queue[1]];
  }

  lemma GreedyIsStuck(sv: Semver, hi: Version, lo: Version, any: Range, atHi: Range, atLo: Range)
    requires sv.Valid() && Tells(sv, hi, lo, any, atHi, atLo)
    ensures exists ranges :: Stuck(Greedy(sv, hi, lo, any, atHi, atLo), 2, "B", ranges)
  {
    var p := Greedy(sv, hi, lo, any, atHi, atLo);
    SecondTurn(sv, hi, lo, any, atHi, atLo);
    var w := WalkAt(p, 2).value;
    var list := w.constraints["B"] + [Accumulated(atLo, w.queue[0].path)];
    assert !sv.satisfies(hi, list[1].range) && !sv.satisfies(lo, list[0].range);
    PickIsHighest(sv, p.catalog["B"], list);
    WalkStops(p, 2, w, list);
  }

  lemma GreedyIsSolvable(sv: Semver, hi: Version, lo: Version, any: Range, atHi: Range, atLo: Range)
    requires Tells(sv, hi, lo, any, atHi, atLo)
    ensures Solves(Greedy(sv, hi, lo, any, atHi, atLo), map["A" := lo, "B" := hi])
  {
    var p, m := Greedy(sv, hi, lo, any, atHi, atLo), map["A" := lo, "B" := hi];
    assert Serves(p, m, "A", Record(lo, [], false)) && Serves(p, m, "B", Record(hi, [], false));
  }

  /**
   * A conflict means that the ranges accumulated for a class clash, not that there is no solution: the
   * highest version is taken at once, and what it asks for is never taken back. With any two versions
   * and ranges that tell them apart, this walk gets stuck on B although A at the lower version with B at
   * the higher one satisfies everything; no pick is even replaced.
   */
  lemma ConflictIsNotUnsolvable(sv: Semver, hi: Version, lo: Version, any: Range, atHi: Range, atLo: Range)
    requires sv.Valid() && Tells(sv, hi, lo, any, atHi, atLo)
    ensures Solvable(Greedy(sv, hi, lo, any, atHi, atLo))
    ensures exists ranges :: Stuck(Greedy(sv, hi, lo, any, atHi, atLo), 2, "B", ranges)
  {
    GreedyIsSolvable(sv, hi, lo, any, atHi, atLo);
    GreedyIsStuck(sv, hi, lo, any, atHi, atLo);
  }
}
