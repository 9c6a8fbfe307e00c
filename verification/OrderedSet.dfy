/** Iteration of a finite set in the order of a comparison: the meaning of the sources'
    `BTreeMap`/`BTreeSet` traversals and of their sorts on distinct keys. */
module OrderedSet {
  ghost predicate TotalOn<T(!new)>(s: set<T>, leq: (T, T) -> bool) {
    && (forall a, b {:trigger leq(a, b)} :: a in s && b in s ==> leq(a, b) || leq(b, a))
    && (forall a, b {:trigger leq(a, b)} :: a in s && b in s && leq(a, b) && leq(b, a) ==> a == b)
    && (forall a, b, c {:trigger leq(a, b), leq(b, c)} ::
          a in s && b in s && c in s && leq(a, b) && leq(b, c) ==> leq(a, c))
  }

  lemma NonEmpty<T>(s: set<T>)
    requires s != {}
    ensures exists x :: x in s
  {
    if forall x :: x !in s { assert false; }
  }

  lemma SubsetSize<T>(a: set<T>, b: set<T>)
    requires a <= b
    ensures |a| <= |b|
    ensures a != b ==> |a| < |b|
  {
    assert b == a + (b - a);
    assert |b| == |a| + |b - a|;
  }

  predicate IsLeast<T(!new)>(m: T, s: set<T>, leq: (T, T) -> bool) {
    m in s && forall x :: x in s ==> leq(m, x)
  }

  lemma {:induction false} FindLeast<T(!new)>(s: set<T>, leq: (T, T) -> bool) returns (m: T)
    requires s != {} && TotalOn(s, leq)
    ensures IsLeast(m, s, leq)
    decreases |s|
  {
    NonEmpty(s);
    m :| m in s;
    assert leq(m, m);
    var rest := s - {m};
    if rest != {} {
      var other := FindLeast(rest, leq);
      if !leq(m, other) {
        m := other;
      }
      forall x | x in s ensures leq(m, x) {
        assert x in rest ==> leq(other, x);
      }
    }
  }

  lemma LeastExists<T(!new)>(s: set<T>, leq: (T, T) -> bool)
    requires s != {} && TotalOn(s, leq)
    ensures exists m :: IsLeast(m, s, leq)
  {
    var m := FindLeast(s, leq);
  }

  function Least<T(!new)>(s: set<T>, leq: (T, T) -> bool): (m: T)
    requires s != {} && TotalOn(s, leq)
    ensures IsLeast(m, s, leq)
  {
    LeastExists(s, leq);
    var m :| IsLeast(m, s, leq);
    m
  }

  function Sorted<T(!new)>(s: set<T>, leq: (T, T) -> bool): seq<T>
    requires TotalOn(s, leq)
  {
    if s == {} then []
    else
      var m := Least(s, leq);
      [m] + Sorted(s - {m}, leq)
  }

  /** `Sorted` lists every element once, in order. */
  lemma {:induction false} SortedFacts<T(!new)>(s: set<T>, leq: (T, T) -> bool)
    requires TotalOn(s, leq)
    ensures |Sorted(s, leq)| == |s|
    ensures forall i :: 0 <= i < |s| ==> Sorted(s, leq)[i] in s
    ensures forall i, j :: 0 <= i < j < |s| ==>
              leq(Sorted(s, leq)[i], Sorted(s, leq)[j]) && Sorted(s, leq)[i] != Sorted(s, leq)[j]
  {
    if s != {} {
      SortedFacts(s - {Least(s, leq)}, leq);
    }
  }

  lemma {:induction false} RankOf<T(!new)>(s: set<T>, leq: (T, T) -> bool, x: T) returns (i: nat)
    requires TotalOn(s, leq) && x in s
    ensures i < |Sorted(s, leq)| && Sorted(s, leq)[i] == x
  {
    var m := Least(s, leq);
    if x == m {
      i := 0;
    } else {
      i := RankOf(s - {m}, leq, x);
      i := i + 1;
    }
  }

  /** Nothing else does. */
  lemma {:induction false} SortedIs<T(!new)>(s: set<T>, leq: (T, T) -> bool, listed: seq<T>)
    requires TotalOn(s, leq)
    requires (forall i :: 0 <= i < |listed| ==> listed[i] in s) && (forall x :: x in s ==> x in listed)
    requires forall i, j :: 0 <= i < j < |listed| ==> leq(listed[i], listed[j]) && listed[i] != listed[j]
    ensures Sorted(s, leq) == listed
  {
    if s != {} {
      var m := Least(s, leq);
      var k :| 0 <= k < |listed| && listed[k] == m;
      assert listed[0] in s && leq(m, listed[0]);
      assert k == 0;
      var rest := listed[1..];
      assert listed == [m] + rest;
      forall x | x in s - {m} ensures x in rest {
        var j :| 0 <= j < |listed| && listed[j] == x;
        assert rest[j - 1] == x;
      }
      SortedIs(s - {m}, leq, rest);
    }
  }
}
