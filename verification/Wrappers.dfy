/** What several components share. */
module Wrappers {

  datatype Option<+T> = None | Some(value: T)

  function Max(a: nat, b: nat): nat { if a < b then b else a }

  /** `order` has exactly the members, each once. */
  ghost predicate Lists<T(!new)>(order: seq<T>, members: set<T>) {
    (forall x :: x in order <==> x in members) && forall i, j :: 0 <= i < j < |order| ==> order[i] != order[j]
  }

  lemma Occupied<T>(s: set<T>) returns (member: T)
    requires s != {}
    ensures member in s
  {
    assert (forall x :: x !in s) ==> s == {};
    member :| member in s;
  }
}

/** As many different strings as one likes, for runs that need fresh ids. */
module Naming {

  function Name(n: nat): string { seq(n, _ => 'a') }

  function Names(lo: nat, hi: nat): set<string> { set i: nat | lo <= i < hi :: Name(i) }

  lemma NameIn(n: nat, lo: nat, hi: nat)
    ensures Name(n) in Names(lo, hi) <==> lo <= n < hi
  {
    assert forall i: nat :: |Name(i)| == i;
  }

  lemma {:induction false} NamesCount(lo: nat, hi: nat)
    requires lo <= hi
    ensures |Names(lo, hi)| == hi - lo
    decreases hi - lo
  {
    if lo == hi {
      assert Names(lo, hi) == {};
    } else {
      NamesCount(lo, hi - 1);
      NameIn(hi - 1, lo, hi - 1);
      assert Names(lo, hi) == Names(lo, hi - 1) + {Name(hi - 1)};
    }
  }

  lemma NamesRest(lo: nat, hi: nat)
    requires lo < hi
    ensures Names(lo + 1, hi) == Names(lo, hi) - {Name(lo)} && Name(lo) in Names(lo, hi)
  {
    NameIn(lo, lo, hi);
    forall n: nat | lo < n < hi ensures Name(n) != Name(lo) {
      assert |Name(n)| == n && |Name(lo)| == lo;
    }
  }

  lemma NamesMore(lo: nat, hi: nat)
    requires lo <= hi
    ensures Names(lo, hi + 1) == Names(lo, hi) + {Name(hi)} && Name(hi) !in Names(lo, hi)
  {
    NameIn(hi, lo, hi);
  }
}
