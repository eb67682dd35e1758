// Sequences seen as sets, and the sizes of sets.
module Sequences {
  function Elements<T>(s: seq<T>): set<T> {
    set x | x in s
  }

  ghost predicate Distinct<T>(s: seq<T>) {
    forall i, j :: 0 <= i < j < |s| ==> s[i] != s[j]
  }

  lemma {:induction false} ElementsSize<T>(s: seq<T>)
    ensures |Elements(s)| <= |s|
    ensures |Elements(s)| == |s| <==> Distinct(s)
  {
    if s != [] {
      var init, last := s[..|s| - 1], s[|s| - 1];
      ElementsSize(init);
      assert Elements(s) == Elements(init) + {last};
      if last in init {
        assert Elements(s) == Elements(init);
        var i :| 0 <= i < |init| && init[i] == last;
        assert s[i] == s[|s| - 1];
      } else if Distinct(init) {
        assert Distinct(s);
      } else {
        var i, j :| 0 <= i < j < |init| && init[i] == init[j];
        assert s[i] == s[j];
      }
    }
  }

  lemma {:induction false} SubsetOfSameSize<T>(a: set<T>, b: set<T>)
    requires a <= b && |a| >= |b|
    ensures a == b
  {
    if x :| x in b && x !in a {
      assert a <= b - {x};
      SubsetSize(a, b - {x});
    }
  }

  lemma {:induction false} SubsetSize<T>(a: set<T>, b: set<T>)
    requires a <= b
    ensures |a| <= |b|
  {
    if a != {} {
      var x :| x in a;
      SubsetSize(a - {x}, b - {x});
    }
  }

  lemma {:induction false} DistinctAppend<T>(a: seq<T>, b: seq<T>)
    ensures Distinct(a + b) <==> Distinct(a) && Distinct(b) && Elements(a) !! Elements(b)
  {
    var c := a + b;
    if Distinct(c) {
      forall i, j | 0 <= i < j < |a| ensures a[i] != a[j] { assert c[i] == a[i] && c[j] == a[j]; }
      forall i, j | 0 <= i < j < |b| ensures b[i] != b[j] { assert c[|a| + i] == b[i] && c[|a| + j] == b[j]; }
      forall i, j | 0 <= i < |a| && 0 <= j < |b| ensures a[i] != b[j] { assert c[i] == a[i] && c[|a| + j] == b[j]; }
    }
    if Distinct(a) && Distinct(b) && Elements(a) !! Elements(b) {
      forall i, j | 0 <= i < j < |c| ensures c[i] != c[j] {
        if j < |a| {
        } else if i < |a| {
          assert c[i] in Elements(a) && c[j] in Elements(b);
        } else {
          assert c[i] == b[i - |a|] && c[j] == b[j - |a|];
        }
      }
    }
  }

  lemma {:induction false} CountedOnce<T>(a: seq<T>, x: T)
    requires Distinct(a) && x in a
    ensures multiset(a)[x] == 1
  {
    var n := |a| - 1;
    assert a == a[..n] + [a[n]];
    if x == a[n] {
      assert x !in a[..n];
    } else {
      CountedOnce(a[..n], x);
    }
  }

  lemma {:induction false} CountedTwice<T>(b: seq<T>, i: nat, j: nat)
    requires i < j < |b| && b[i] == b[j]
    ensures multiset(b)[b[i]] >= 2
  {
    assert b == b[..j] + b[j..];
    assert b[i] in b[..j] && b[j] in b[j..];
  }

  lemma {:induction false} SameMembers<T>(a: seq<T>, b: seq<T>)
    requires multiset(a) == multiset(b)
    ensures |a| == |b| && forall x :: x in a <==> x in b
  {
    assert |a| == |multiset(a)| && |b| == |multiset(b)|;
    forall x ensures x in a <==> x in b {
      assert x in a <==> x in multiset(a);
      assert x in b <==> x in multiset(b);
    }
  }

  lemma {:induction false} DistinctShuffle<T>(a: seq<T>, b: seq<T>)
    requires multiset(a) == multiset(b) && Distinct(a)
    ensures Distinct(b)
  {
    SameMembers(a, b);
    forall i, j | 0 <= i < j < |b| ensures b[i] != b[j] {
      CountedOnce(a, b[i]);
      if b[i] == b[j] {
        CountedTwice(b, i, j);
      }
    }
  }

  /** Where the last of `a` stands in a shuffle of it, and that the rest is a shuffle of the rest. */
  lemma {:induction false} RemoveLast<T>(a: seq<T>, b: seq<T>) returns (i: nat)
    requires multiset(a) == multiset(b) && a != []
    ensures i < |b| && b[i] == a[|a| - 1] && multiset(a[..|a| - 1]) == multiset(b[..i] + b[i + 1..])
  {
    var n := |a| - 1;
    SameMembers(a, b);
    assert a[n] in b;
    i :| 0 <= i < |b| && b[i] == a[n];
    assert a == a[..n] + [a[n]];
    assert b == b[..i] + [b[i]] + b[i + 1..];
    var rest := b[..i] + b[i + 1..];
    assert multiset(b) == multiset(b[..i]) + multiset{b[i]} + multiset(b[i + 1..]) == multiset(rest) + multiset{b[i]};
    assert multiset(rest) == multiset(b) - multiset{b[i]};
    assert multiset(a[..n]) == multiset(a) - multiset{a[n]};
  }

  /** An element moved to the front. */
  lemma {:induction false} PullOut<T>(a: seq<T>, x: T) returns (rest: seq<T>)
    requires x in a
    ensures multiset(a) == multiset([x] + rest)
  {
    var i :| 0 <= i < |a| && a[i] == x;
    rest := a[..i] + a[i + 1..];
    assert a == a[..i] + [a[i]] + a[i + 1..];
  }

  /** Two elements moved to the front. */
  lemma {:induction false} PullOutTwo<T>(a: seq<T>, x: T, y: T) returns (rest: seq<T>)
    requires x in a && y in a && x != y
    ensures multiset(a) == multiset([x, y] + rest)
  {
    var others := PullOut(a, x);
    SameMembers(a, [x] + others);
    rest := PullOut(others, y);
    assert [x, y] + rest == [x] + ([y] + rest);
  }

  /** Two lists without repetition of the same elements are shuffles of one another. */
  lemma {:induction false} SameDistinct<T>(a: seq<T>, b: seq<T>)
    requires Distinct(a) && Distinct(b) && forall x :: x in a <==> x in b
    ensures multiset(a) == multiset(b)
  {
    forall x ensures multiset(a)[x] == multiset(b)[x] {
      if x in a {
        CountedOnce(a, x);
        CountedOnce(b, x);
      } else {
        assert x !in multiset(a) && x !in multiset(b);
      }
    }
  }
}
