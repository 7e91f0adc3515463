/** Comparisons, lexicographic order and sorting. */
module Ordering {
  /** A comparison that is a total order, with values of any sign. */
  ghost predicate IsOrder<T(!new)>(cmp: (T, T) -> int) {
    && (forall x, y :: cmp(x, y) == -cmp(y, x))
    && (forall x, y :: cmp(x, y) == 0 ==> x == y)
    && (forall x, y, z :: cmp(x, y) <= 0 && cmp(y, z) <= 0 ==> cmp(x, z) <= 0)
  }

  /** The same but for ties between different values. */
  ghost predicate IsPreorder<T(!new)>(cmp: (T, T) -> int) {
    && (forall x, y :: cmp(x, y) == -cmp(y, x))
    && (forall x, y, z :: cmp(x, y) <= 0 && cmp(y, z) <= 0 ==> cmp(x, z) <= 0)
  }

  ghost predicate Sorted<T>(s: seq<T>, cmp: (T, T) -> int) {
    forall i, j :: 0 <= i < j < |s| ==> cmp(s[i], s[j]) <= 0
  }

  /** Lexicographic: the first difference decides, a proper prefix is smaller. */
  function Lex<T>(a: seq<T>, b: seq<T>, cmp: (T, T) -> int): int
    decreases |a|
  {
    if a == [] && b == [] then 0
    else if a == [] then -1
    else if b == [] then 1
    else if cmp(a[0], b[0]) != 0 then cmp(a[0], b[0])
    else Lex(a[1..], b[1..], cmp)
  }

  function CompareInt(a: int, b: int): int {
    if a < b then -1 else if a > b then 1 else 0
  }

  function CompareChar(a: char, b: char): int {
    CompareInt(a as int, b as int)
  }

  lemma {:induction false} LexIsAntisymmetric<T(!new)>(a: seq<T>, b: seq<T>, cmp: (T, T) -> int)
    requires IsOrder(cmp)
    ensures Lex(a, b, cmp) == -Lex(b, a, cmp)
    ensures Lex(a, b, cmp) == 0 ==> a == b
    decreases |a|
  {
    if a != [] && b != [] {
      LexIsAntisymmetric(a[1..], b[1..], cmp);
      assert a == [a[0]] + a[1..] && b == [b[0]] + b[1..];
    }
  }

  /** `a` and `b` agree before position `k`, where `a` has the smaller element, or has
      ended and `b` has not. */
  ghost predicate DiffersAt<T>(a: seq<T>, b: seq<T>, less: (T, T) -> bool, k: int) {
    && 0 <= k <= |a| && k < |b| && (forall i :: 0 <= i < k ==> a[i] == b[i])
    && (k < |a| ==> less(a[k], b[k]))
  }

  ghost predicate ComesBefore<T>(a: seq<T>, b: seq<T>, less: (T, T) -> bool) {
    exists k :: DiffersAt(a, b, less, k)
  }

  lemma {:induction false} LexIsFirstDifference<T(!new)>(a: seq<T>, b: seq<T>, cmp: (T, T) -> int,
                                                         less: (T, T) -> bool)
    requires IsOrder(cmp) && forall x, y :: less(x, y) <==> cmp(x, y) < 0
    ensures Lex(a, b, cmp) < 0 <==> ComesBefore(a, b, less)
    decreases |a|
  {
    if b == [] {
      assert Lex(a, b, cmp) >= 0;
    } else if a == [] || cmp(a[0], b[0]) < 0 {
      assert DiffersAt(a, b, less, 0);
    } else {
      assert cmp(a[0], a[0]) == -cmp(a[0], a[0]);
      if k :| DiffersAt(a, b, less, k) {
        assert k > 0 && a[0] == b[0];
        assert DiffersAt(a[1..], b[1..], less, k - 1);
      }
      if a[0] == b[0] {
        LexIsFirstDifference(a[1..], b[1..], cmp, less);
        if k :| DiffersAt(a[1..], b[1..], less, k) {
          assert DiffersAt(a, b, less, k + 1);
        }
      }
    }
  }

  lemma HeadDecides<T(!new)>(x: T, y: T, z: T, cmp: (T, T) -> int)
    requires IsOrder(cmp)
    requires cmp(x, y) <= 0 && cmp(y, z) <= 0 && (cmp(x, y) != 0 || cmp(y, z) != 0)
    ensures cmp(x, z) < 0
  {
    assert cmp(y, x) == -cmp(x, y) && cmp(x, z) <= 0;
  }

  lemma {:induction false} LexIsTransitive<T(!new)>(a: seq<T>, b: seq<T>, c: seq<T>, cmp: (T, T) -> int)
    requires IsOrder(cmp)
    requires Lex(a, b, cmp) <= 0 && Lex(b, c, cmp) <= 0
    ensures Lex(a, c, cmp) <= 0
    decreases |a|
  {
    if a != [] && b != [] && c != [] {
      if cmp(a[0], b[0]) == 0 && cmp(b[0], c[0]) == 0 {
        LexIsTransitive(a[1..], b[1..], c[1..], cmp);
      } else {
        HeadDecides(a[0], b[0], c[0], cmp);
      }
    }
  }

  lemma LexIsOrder<T(!new)>(cmp: (T, T) -> int)
    requires IsOrder(cmp)
    ensures IsOrder((a, b) => Lex(a, b, cmp))
  {
    var lex := (a, b) => Lex(a, b, cmp);
    forall a, b
      ensures lex(a, b) == -lex(b, a) && (lex(a, b) == 0 ==> a == b)
    {
      LexIsAntisymmetric(a, b, cmp);
    }
    forall a, b, c | lex(a, b) <= 0 && lex(b, c) <= 0
      ensures lex(a, c) <= 0
    {
      LexIsTransitive(a, b, c, cmp);
    }
  }

  /** Stands for the library sort, which promises no order among ties. */
  method Sort<T(!new)>(a: seq<T>, cmp: (T, T) -> int) returns (s: seq<T>)
    requires IsPreorder(cmp)
    ensures Sorted(s, cmp) && multiset(s) == multiset(a)
  {
    s := [];
    for i := 0 to |a|
      invariant Sorted(s, cmp)
      invariant multiset(s) == multiset(a[..i])
    {
      OneMore(a, i);
      s := Insert(s, a[i], cmp);
    }
    assert a[..|a|] == a;
  }

  lemma OneMore<T>(a: seq<T>, i: nat)
    requires i < |a|
    ensures multiset(a[..i + 1]) == multiset(a[..i]) + multiset{a[i]}
  {
    assert a[..i + 1] == a[..i] + [a[i]];
  }

  method Insert<T(!new)>(s: seq<T>, v: T, cmp: (T, T) -> int) returns (t: seq<T>)
    requires IsPreorder(cmp) && Sorted(s, cmp)
    ensures Sorted(t, cmp)
    ensures multiset(t) == multiset(s) + multiset{v}
  {
    var k := Place(s, v, cmp);
    InsertKeepsOrder(s, k, v, cmp);
    InsertAdds(s, k, v);
    t := s[..k] + [v] + s[k..];
  }

  /** Behind everything that is not larger. */
  method Place<T(!new)>(s: seq<T>, v: T, cmp: (T, T) -> int) returns (k: nat)
    ensures k <= |s|
    ensures forall j :: 0 <= j < k ==> cmp(s[j], v) <= 0
    ensures k < |s| ==> cmp(s[k], v) > 0
  {
    k := 0;
    while k < |s| && cmp(s[k], v) <= 0
      invariant k <= |s|
      invariant forall j :: 0 <= j < k ==> cmp(s[j], v) <= 0
    {
      k := k + 1;
    }
  }

  lemma InsertAdds<T>(s: seq<T>, k: nat, v: T)
    requires k <= |s|
    ensures multiset(s[..k] + [v] + s[k..]) == multiset(s) + multiset{v}
  {
    assert s == s[..k] + s[k..];
  }

  lemma InsertKeepsOrder<T(!new)>(s: seq<T>, k: nat, v: T, cmp: (T, T) -> int)
    requires IsPreorder(cmp) && Sorted(s, cmp) && k <= |s|
    requires forall j :: 0 <= j < k ==> cmp(s[j], v) <= 0
    requires k < |s| ==> cmp(s[k], v) > 0
    ensures Sorted(s[..k] + [v] + s[k..], cmp)
  {
    forall j | k <= j < |s|
      ensures cmp(v, s[j]) <= 0
    {
      assert cmp(v, s[k]) == -cmp(s[k], v);
      assert j == k || cmp(s[k], s[j]) <= 0;
    }
    InsertedOrder(s, k, v, cmp);
  }

  lemma InsertedOrder<T(!new)>(s: seq<T>, k: nat, v: T, cmp: (T, T) -> int)
    requires Sorted(s, cmp) && k <= |s|
    requires forall j :: 0 <= j < k ==> cmp(s[j], v) <= 0
    requires forall j :: k <= j < |s| ==> cmp(v, s[j]) <= 0
    ensures Sorted(s[..k] + [v] + s[k..], cmp)
  {
    var t := s[..k] + [v] + s[k..];
    assert forall i :: 0 <= i < |t| ==> t[i] == if i < k then s[i] else if i == k then v else s[i - 1];
  }

  ghost predicate Distinct<T(!new)>(s: seq<T>) {
    forall i, j :: 0 <= i < j < |s| ==> s[i] != s[j]
  }

  /** No duplicates is a property of the multiset. */
  lemma {:induction false} DistinctCounts<T(!new)>(s: seq<T>)
    ensures Distinct(s) <==> forall x :: multiset(s)[x] <= 1
  {
    if s != [] {
      var n := |s| - 1;
      var front := s[..n];
      DistinctCounts(front);
      assert s == front + [s[n]];
      assert s[n] in front <==> multiset(front)[s[n]] >= 1;
      if Distinct(s) {
        assert forall x :: multiset(s)[x] == multiset(front)[x] + if x == s[n] then 1 else 0;
      } else if Distinct(front) {
        assert multiset(s)[s[n]] >= 2;
      }
    }
  }

  lemma FirstIsLeast<T(!new)>(s: seq<T>, x: T, cmp: (T, T) -> int)
    requires IsOrder(cmp) && Sorted(s, cmp) && x in multiset(s)
    ensures cmp(s[0], x) <= 0
  {
    var i :| 0 <= i < |s| && s[i] == x;
    assert cmp(x, x) == -cmp(x, x);
  }

  lemma WithoutFirst<T>(s: seq<T>)
    requires s != []
    ensures multiset(s[1..]) == multiset(s) - multiset{s[0]} && s[0] in multiset(s)
  {
    assert s == [s[0]] + s[1..];
  }

  /** Under a total order there is only one sorted arrangement. */
  lemma {:induction false} SortedIsUnique<T(!new)>(a: seq<T>, b: seq<T>, cmp: (T, T) -> int)
    requires IsOrder(cmp) && Sorted(a, cmp) && Sorted(b, cmp) && multiset(a) == multiset(b)
    ensures a == b
    decreases |a|
  {
    if a == [] || b == [] {
      SameSize(a, b);
    } else {
      SameFirst(a, b, cmp);
      SortedTail(a, cmp);
      SortedTail(b, cmp);
      SortedIsUnique(a[1..], b[1..], cmp);
      SameParts(a, b);
    }
  }

  lemma SameSize<T>(a: seq<T>, b: seq<T>)
    requires multiset(a) == multiset(b)
    ensures |a| == |b|
  {
    assert |a| == |multiset(a)| && |b| == |multiset(b)|;
  }

  lemma SameParts<T>(a: seq<T>, b: seq<T>)
    requires a != [] && b != [] && a[0] == b[0] && a[1..] == b[1..]
    ensures a == b
  {
    assert a == [a[0]] + a[1..] && b == [b[0]] + b[1..];
  }

  lemma SortedTail<T(!new)>(s: seq<T>, cmp: (T, T) -> int)
    requires s != [] && Sorted(s, cmp)
    ensures Sorted(s[1..], cmp) && multiset(s[1..]) == multiset(s) - multiset{s[0]}
  {
    WithoutFirst(s);
  }

  lemma SameFirst<T(!new)>(a: seq<T>, b: seq<T>, cmp: (T, T) -> int)
    requires IsOrder(cmp) && Sorted(a, cmp) && Sorted(b, cmp) && multiset(a) == multiset(b) && a != [] && b != []
    ensures a[0] == b[0]
  {
    WithoutFirst(a);
    WithoutFirst(b);
    FirstIsLeast(a, b[0], cmp);
    FirstIsLeast(b, a[0], cmp);
    assert cmp(a[0], b[0]) == -cmp(b[0], a[0]);
  }
}
