/** Intervals of integers as sequences, and sequences that ascend. */
module Intervals {
  function Interval(lo: int, hi: int): seq<int>
    requires lo <= hi + 1
  {
    seq(hi + 1 - lo, i => lo + i)
  }

  predicate Ascending(s: seq<int>) { forall i, j :: 0 <= i < j < |s| ==> s[i] < s[j] }

  lemma LastIsGreatest(s: seq<int>, x: int)
    requires Ascending(s) && x in s
    ensures x <= s[|s| - 1]
    ensures x in s[..|s| - 1] <==> x != s[|s| - 1]
    ensures Ascending(s[..|s| - 1])
  {
    var i :| 0 <= i < |s| && s[i] == x;
    if i < |s| - 1 {
      assert s[..|s| - 1][i] == x;
    }
  }

  ghost function FirstIn(s: seq<int>): (x: int)
    requires s != []
    ensures x in s
  {
    s[0]
  }

  lemma NoMember(s: seq<int>)
    requires forall x :: x !in s
    ensures s == []
  {
    if s != [] {
      ghost var _ := FirstIn(s);
    }
  }

  lemma {:induction false} AscendingUnique(a: seq<int>, b: seq<int>)
    requires Ascending(a) && Ascending(b) && forall x :: x in a <==> x in b
    ensures a == b
  {
    if a == [] {
      NoMember(b);
    } else if b == [] {
      NoMember(a);
    } else {
      var a', b' := a[..|a| - 1], b[..|b| - 1];
      var x, y := a[|a| - 1], b[|b| - 1];
      assert x in a && y in b;
      assert x == y by {
        LastIsGreatest(b, x);
        LastIsGreatest(a, y);
      }
      forall z ensures z in a' <==> z in b' {
        assert z in a' ==> z in a;
        assert z in b' ==> z in b;
        if z in a {
          LastIsGreatest(a, z);
          LastIsGreatest(b, z);
        }
      }
      assert Ascending(a') && Ascending(b');
      AscendingUnique(a', b');
      assert a == a' + [x] && b == b' + [y];
    }
  }

  lemma AscendingJoin(a: seq<int>, b: seq<int>, mid: int)
    requires Ascending(a) && Ascending(b)
    requires (forall x :: x in a ==> x <= mid) && forall x :: x in b ==> mid < x
    ensures Ascending(a + b)
  {
    var s := a + b;
    forall i, j | 0 <= i < j < |s| ensures s[i] < s[j] {
      if i < |a| <= j {
        assert a[i] in a && b[j - |a|] in b;
      }
    }
  }

  lemma InInterval(lo: int, hi: int)
    requires lo <= hi + 1
    ensures Ascending(Interval(lo, hi)) && forall x :: x in Interval(lo, hi) <==> lo <= x <= hi
  {
    forall x | lo <= x <= hi ensures x in Interval(lo, hi) {
      assert Interval(lo, hi)[x - lo] == x;
    }
  }

  lemma Reassociate(a: seq<int>, b: seq<int>, c: seq<int>)
    ensures (a + b) + c == a + (b + c)
  {
  }
}
