/** `pickHighest`: the highest published, live version that meets every range asked for so far. */
module Picking {
  import opened Wrappers

  type ClassName = string
  type Version = string
  type Range = string

  /** What the resolver asks of the `semver` package. */
  datatype Semver = Semver(satisfies: (Version, Range) -> bool, compare: (Version, Version) -> int) {
    /** Precedence orders every two versions, up to build metadata (section 11 of SemVer 2.0.0). */
    ghost predicate Valid() {
      && (forall a, b :: compare(a, b) >= 0 || compare(b, a) >= 0)
      && (forall a, b, c :: compare(a, b) >= 0 && compare(b, c) >= 0 ==> compare(a, c) >= 0)
    }
  }

  datatype Want = Want(name: ClassName, range: Range)

  datatype Record = Record(version: Version, deps: seq<Want>, deprecated: bool)

  /** A step of the chain that explains a range: a range asked for, or a version chosen to meet it. */
  datatype Hop = Asked(want: Want) | Chose(name: ClassName, version: Version)

  datatype Accumulated = Accumulated(range: Range, path: seq<Hop>)

  predicate Eligible(sv: Semver, r: Record, list: seq<Accumulated>) {
    !r.deprecated && forall i :: 0 <= i < |list| ==> sv.satisfies(r.version, list[i].range)
  }

  function Candidates(sv: Semver, versions: seq<Record>, list: seq<Accumulated>): (c: seq<Record>)
    ensures |c| <= |versions|
  {
    if versions == [] then []
    else (if Eligible(sv, versions[0], list) then [versions[0]] else []) + Candidates(sv, versions[1..], list)
  }

  lemma {:induction false} CandidatesExact(sv: Semver, versions: seq<Record>, list: seq<Accumulated>)
    ensures forall r :: r in Candidates(sv, versions, list) <==> r in versions && Eligible(sv, r, list)
  {
    if versions != [] {
      CandidatesExact(sv, versions[1..], list);
    }
  }

  /** Stable insertion into a list that is already in descending order. */
  function Insert(sv: Semver, r: Record, sorted: seq<Record>): (s: seq<Record>)
    ensures s != []
  {
    if sorted == [] || sv.compare(r.version, sorted[0].version) >= 0 then [r] + sorted
    else [sorted[0]] + Insert(sv, r, sorted[1..])
  }

  function SortDescending(sv: Semver, records: seq<Record>): (s: seq<Record>)
    ensures records != [] ==> s != []
  {
    if records == [] then [] else Insert(sv, records[0], SortDescending(sv, records[1..]))
  }

  function PickHighest(sv: Semver, versions: seq<Record>, list: seq<Accumulated>): Option<Record> {
    var candidates := Candidates(sv, versions, list);
    if candidates == [] then None else Some(SortDescending(sv, candidates)[0])
  }

  lemma {:induction false} HeadIsHighest(sv: Semver, records: seq<Record>)
    requires sv.Valid() && records != []
    ensures SortDescending(sv, records)[0] in records
    ensures forall r :: r in records ==> sv.compare(SortDescending(sv, records)[0].version, r.version) >= 0
  {
    assert sv.compare(records[0].version, records[0].version) >= 0;
    if |records| > 1 {
      HeadIsHighest(sv, records[1..]);
    }
  }

  /** The pick is published, live, within every range, and nothing else that is has precedence over it. */
  lemma PickIsHighest(sv: Semver, versions: seq<Record>, list: seq<Accumulated>)
    requires sv.Valid()
    ensures var p := PickHighest(sv, versions, list);
      && (p == None <==> forall r :: r in versions ==> !Eligible(sv, r, list))
      && (p.Some? ==>
            && p.value in versions
            && Eligible(sv, p.value, list)
            && forall r :: r in versions && Eligible(sv, r, list) ==> sv.compare(p.value.version, r.version) >= 0)
  {
    var c := Candidates(sv, versions, list);
    CandidatesExact(sv, versions, list);
    if c != [] {
      HeadIsHighest(sv, c);
      assert c[0] in c;
    }
  }

  function Within(sv: Semver, records: seq<Record>, range: Range): seq<Record> {
    if records == [] then []
    else (if sv.satisfies(records[0].version, range) then [records[0]] else []) + Within(sv, records[1..], range)
  }

  lemma {:induction false} WithinIsSubset(sv: Semver, records: seq<Record>, range: Range)
    ensures forall r :: r in Within(sv, records, range) ==> r in records
  {
    if records != [] {
      WithinIsSubset(sv, records[1..], range);
    }
  }

  lemma {:induction false} CandidatesNarrow(sv: Semver, versions: seq<Record>, list: seq<Accumulated>, a: Accumulated)
    ensures Candidates(sv, versions, list + [a]) == Within(sv, Candidates(sv, versions, list), a.range)
  {
    if versions != [] {
      CandidatesNarrow(sv, versions[1..], list, a);
      EligibleAppend(sv, versions[0], list, a);
      var c := Candidates(sv, versions, list);
      if Eligible(sv, versions[0], list) {
        assert c[1..] == Candidates(sv, versions[1..], list);
      } else {
        assert c == Candidates(sv, versions[1..], list);
      }
    }
  }

  /** Dropping candidates other than the head leaves the head where it is. */
  lemma {:induction false} HeadSurvives(sv: Semver, records: seq<Record>, range: Range)
    requires sv.Valid() && records != []
    requires sv.satisfies(SortDescending(sv, records)[0].version, range)
    ensures Within(sv, records, range) != []
    ensures SortDescending(sv, Within(sv, records, range))[0] == SortDescending(sv, records)[0]
  {
    var r0, rest := records[0], records[1..];
    var kept := Within(sv, rest, range);
    assert ([r0] + kept)[1..] == kept && [] + kept == kept;
    WithinIsSubset(sv, rest, range);
    if SortDescending(sv, records)[0] == r0 {
      if kept != [] {
        HeadIsHighest(sv, records);
        HeadIsHighest(sv, kept);
      }
    } else {
      HeadSurvives(sv, rest, range);
    }
  }

  lemma EligibleAppend(sv: Semver, r: Record, list: seq<Accumulated>, a: Accumulated)
    ensures Eligible(sv, r, list + [a]) <==> Eligible(sv, r, list) && sv.satisfies(r.version, a.range)
  {
    var longer := list + [a];
    assert longer[|list|] == a;
    assert forall i :: 0 <= i < |list| ==> longer[i] == list[i];
  }

  /** One more range never adds a candidate, and removes one for certain when it refuses one. */
  lemma {:induction false} SubCandidates(sv: Semver, versions: seq<Record>, list: seq<Accumulated>, a: Accumulated)
    ensures forall r :: r in Candidates(sv, versions, list + [a]) ==> r in Candidates(sv, versions, list)
    ensures |Candidates(sv, versions, list + [a])| <= |Candidates(sv, versions, list)|
    ensures (exists r :: r in Candidates(sv, versions, list) && !sv.satisfies(r.version, a.range)) ==>
              |Candidates(sv, versions, list + [a])| < |Candidates(sv, versions, list)|
  {
    if versions != [] {
      SubCandidates(sv, versions[1..], list, a);
      EligibleAppend(sv, versions[0], list, a);
    }
  }

  /** A re-pick never climbs, keeps the record when the version stays, and otherwise was forced by the new range. */
  lemma RepickDescends(sv: Semver, versions: seq<Record>, list: seq<Accumulated>, a: Accumulated)
    requires sv.Valid()
    requires PickHighest(sv, versions, list).Some?
    requires PickHighest(sv, versions, list + [a]).Some?
    ensures var old', new' := PickHighest(sv, versions, list).value, PickHighest(sv, versions, list + [a]).value;
      && sv.compare(old'.version, new'.version) >= 0
      && (old'.version == new'.version <==> sv.satisfies(old'.version, a.range))
      && (old'.version == new'.version ==> old' == new')
      && (old'.version != new'.version ==>
            |Candidates(sv, versions, list + [a])| < |Candidates(sv, versions, list)|)
  {
    var c, d := Candidates(sv, versions, list), Candidates(sv, versions, list + [a]);
    PickIsHighest(sv, versions, list);
    PickIsHighest(sv, versions, list + [a]);
    SubCandidates(sv, versions, list, a);
    var o, n := PickHighest(sv, versions, list).value, PickHighest(sv, versions, list + [a]).value;
    EligibleAppend(sv, n, list, a);
    CandidatesExact(sv, versions, list);
    CandidatesExact(sv, versions, list + [a]);
    assert n in d && n in c && o in c;
    if sv.satisfies(o.version, a.range) {
      CandidatesNarrow(sv, versions, list, a);
      HeadSurvives(sv, c, a.range);
    }
  }

  /** With precedence told apart for different versions, a changed pick goes strictly down. */
  lemma RepickStrictlyDescends(sv: Semver, versions: seq<Record>, list: seq<Accumulated>, a: Accumulated)
    requires sv.Valid()
    requires forall x, y :: sv.compare(x, y) >= 0 && sv.compare(y, x) >= 0 ==> x == y
    requires PickHighest(sv, versions, list).Some?
    requires PickHighest(sv, versions, list + [a]).Some?
    ensures var old', new' := PickHighest(sv, versions, list).value, PickHighest(sv, versions, list + [a]).value;
      old' != new' ==> sv.compare(new'.version, old'.version) < 0
  {
    RepickDescends(sv, versions, list, a);
  }
}
