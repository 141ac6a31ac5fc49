/** Stable sorting by a strict order, the lexicographic order on strings, and lists collected from
    the keys of a hash map in whatever order the map yields them. */
module Sorting {
  import opened Basics

  function Insert<T>(x: T, s: seq<T>, before: (T, T) -> bool): seq<T> {
    if s == [] || !before(s[0], x) then [x] + s else [s[0]] + Insert(x, s[1..], before)
  }

  function Sort<T>(s: seq<T>, before: (T, T) -> bool): seq<T> {
    if s == [] then [] else Insert(s[0], Sort(s[1..], before), before)
  }

  ghost predicate StrictWeak<T(!new)>(before: (T, T) -> bool) {
    && (forall x, y :: before(x, y) ==> !before(y, x))
    && (forall x, y, z :: before(x, z) ==> before(x, y) || before(y, z))
  }

  ghost predicate InOrder<T>(s: seq<T>, before: (T, T) -> bool) {
    forall i, j :: 0 <= i < j < |s| ==> !before(s[j], s[i])
  }

  lemma {:induction false} InsertKeeps<T(!new)>(x: T, s: seq<T>, before: (T, T) -> bool)
    ensures multiset(Insert(x, s, before)) == multiset{x} + multiset(s)
  {
    if s != [] && before(s[0], x) {
      InsertKeeps(x, s[1..], before);
      assert s == [s[0]] + s[1..];
    }
  }

  lemma {:induction false} InsertOrders<T(!new)>(x: T, s: seq<T>, before: (T, T) -> bool)
    requires StrictWeak(before) && InOrder(s, before)
    ensures InOrder(Insert(x, s, before), before)
  {
    if s != [] {
      if before(s[0], x) {
        var rest := Insert(x, s[1..], before);
        InsertOrders(x, s[1..], before);
        InsertKeeps(x, s[1..], before);
        forall j | 0 <= j < |rest| ensures !before(rest[j], s[0]) {
          assert rest[j] in multiset(rest);
        }
        hide Insert;
      } else {
        forall j | 0 <= j < |s| ensures !before(s[j], x) {
        }
        hide Insert;
      }
    }
  }

  lemma {:induction false} SortKeeps<T(!new)>(s: seq<T>, before: (T, T) -> bool)
    ensures multiset(Sort(s, before)) == multiset(s)
  {
    if s != [] {
      SortKeeps(s[1..], before);
      InsertKeeps(s[0], Sort(s[1..], before), before);
      assert s == [s[0]] + s[1..];
    }
  }

  lemma {:induction false} SortOrders<T(!new)>(s: seq<T>, before: (T, T) -> bool)
    requires StrictWeak(before)
    ensures InOrder(Sort(s, before), before)
  {
    if s != [] {
      SortOrders(s[1..], before);
      InsertOrders(s[0], Sort(s[1..], before), before);
    }
  }

  /** No two different entries are equivalent in the order. */
  ghost predicate Separates<T>(s: seq<T>, before: (T, T) -> bool) {
    forall x, y :: x in s && y in s && !before(x, y) && !before(y, x) ==> x == y
  }

  lemma SameFirst<T(!new)>(a: seq<T>, b: seq<T>, before: (T, T) -> bool)
    requires a != [] && b != [] && InOrder(a, before) && InOrder(b, before)
    requires multiset(a) == multiset(b) && Separates(a, before)
    ensures a[0] == b[0]
  {
    assert a[0] in multiset(b) && b[0] in multiset(a);
    assert a[0] in b && b[0] in a;
    var i :| 0 <= i < |b| && b[i] == a[0];
    var j :| 0 <= j < |a| && a[j] == b[0];
    assert 0 < i ==> !before(b[i], b[0]);
    assert 0 < j ==> !before(a[j], a[0]);
  }

  lemma SameLength<T>(a: seq<T>, b: seq<T>)
    requires multiset(a) == multiset(b)
    ensures |a| == |b|
  {
    assert |multiset(a)| == |a| && |multiset(b)| == |b|;
  }

  lemma TailsMatch<T>(a: seq<T>, b: seq<T>)
    requires a != [] && b != [] && multiset(a) == multiset(b) && a[0] == b[0]
    ensures multiset(a[1..]) == multiset(b[1..])
  {
    TailMultiset(a);
    TailMultiset(b);
  }

  lemma TailOrdered<T>(s: seq<T>, before: (T, T) -> bool)
    requires s != []
    ensures InOrder(s, before) ==> InOrder(s[1..], before)
    ensures Separates(s, before) ==> Separates(s[1..], before)
  {
  }

  /** Ordered lists of the same entries are equal, if the order separates them. */
  lemma {:induction false} OrderedUnique<T(!new)>(a: seq<T>, b: seq<T>, before: (T, T) -> bool)
    requires StrictWeak(before) && InOrder(a, before) && InOrder(b, before)
    requires multiset(a) == multiset(b) && Separates(a, before)
    ensures a == b
  {
    hide *;
    SameLength(a, b);
    if a != [] {
      SameFirst(a, b, before);
      TailsMatch(a, b);
      TailOrdered(a, before);
      TailOrdered(b, before);
      OrderedUnique(a[1..], b[1..], before);
      assert a == [a[0]] + a[1..] && b == [b[0]] + b[1..];
    }
  }

  lemma TailMultiset<T>(s: seq<T>)
    requires s != []
    ensures multiset(s[1..]) == multiset(s) - multiset{s[0]}
  {
    assert s == [s[0]] + s[1..];
  }

  /** Sorting forgets the order of its input. */
  lemma SortForgets<T(!new)>(a: seq<T>, b: seq<T>, before: (T, T) -> bool)
    requires StrictWeak(before) && multiset(a) == multiset(b) && Separates(a, before)
    ensures Sort(a, before) == Sort(b, before)
  {
    SortKeeps(a, before);
    SortKeeps(b, before);
    SortOrders(a, before);
    SortOrders(b, before);
    forall x | x in Sort(a, before) ensures x in a {
      assert x in multiset(Sort(a, before));
    }
    OrderedUnique(Sort(a, before), Sort(b, before), before);
  }

  // ---------------------------------------------------------------------------------------
  // Numbers and strings.

  predicate NatBefore(m: nat, n: nat) {
    m < n
  }

  /** The order of strings by the first character in which they differ. */
  predicate Before(a: string, b: string) {
    b != "" && (a == "" || a[0] < b[0] || (a[0] == b[0] && Before(a[1..], b[1..])))
  }

  /** a and b agree up to k, where a ends or goes on with the smaller character. */
  predicate SmallerAt(a: string, b: string, k: nat) {
    k <= |a| && k < |b| && a[..k] == b[..k] && (k == |a| || a[k] < b[k])
  }

  /** One string comes before another if it continues as the other one up to a smaller character, or if
      the other one goes on where it ends. */
  lemma BeforeIff(a: string, b: string)
    ensures Before(a, b) <==> exists k :: SmallerAt(a, b, k)
  {
    if Before(a, b) {
      var k := WhereSmaller(a, b);
    }
    if k :| SmallerAt(a, b, k) {
      SmallerIsBefore(a, b, k);
    }
  }

  lemma {:induction false} WhereSmaller(a: string, b: string) returns (k: nat)
    requires Before(a, b)
    ensures SmallerAt(a, b, k)
  {
    if a != "" && a[0] == b[0] {
      k := WhereSmaller(a[1..], b[1..]);
      k := k + 1;
      assert a[..k] == [a[0]] + a[1..][..k - 1] && b[..k] == [b[0]] + b[1..][..k - 1];
    } else {
      k := 0;
    }
  }

  lemma {:induction false} SmallerIsBefore(a: string, b: string, k: nat)
    requires SmallerAt(a, b, k)
    ensures Before(a, b)
  {
    if 0 < k {
      assert a[0] == a[..k][0] == b[..k][0] == b[0];
      assert a[1..][..k - 1] == a[..k][1..] && b[1..][..k - 1] == b[..k][1..];
      SmallerIsBefore(a[1..], b[1..], k - 1);
    }
  }

  lemma {:induction false} BeforeAsymmetric(a: string, b: string)
    requires Before(a, b)
    ensures !Before(b, a) && a != b
  {
    if a != "" && a[0] == b[0] {
      BeforeAsymmetric(a[1..], b[1..]);
    }
  }

  lemma {:induction false} BeforeTotal(a: string, b: string)
    ensures Before(a, b) || a == b || Before(b, a)
  {
    if a != "" && b != "" && a[0] == b[0] {
      BeforeTotal(a[1..], b[1..]);
      assert a == [a[0]] + a[1..] && b == [b[0]] + b[1..];
    }
  }

  lemma {:induction false} BeforeTransitive(a: string, b: string, c: string)
    requires Before(a, b) && Before(b, c)
    ensures Before(a, c)
  {
    if a != "" && b != "" && a[0] == b[0] == c[0] {
      BeforeTransitive(a[1..], b[1..], c[1..]);
    }
  }

  // ---------------------------------------------------------------------------------------
  // Collecting.

  function Collect<T>(order: seq<string>, pick: string -> seq<T>): seq<T> {
    if order == [] then []
    else Collect(order[..|order| - 1], pick) + pick(order[|order| - 1])
  }

  lemma CollectSnoc<T>(init: seq<string>, k: string, pick: string -> seq<T>)
    ensures Collect(init + [k], pick) == Collect(init, pick) + pick(k)
  {
    assert (init + [k])[..|init|] == init;
  }

  lemma {:induction false} CollectConcat<T>(a: seq<string>, b: seq<string>, pick: string -> seq<T>)
    ensures Collect(a + b, pick) == Collect(a, pick) + Collect(b, pick)
  {
    if b == [] {
      assert a + b == a;
    } else {
      hide Collect;
      var init, k := b[..|b| - 1], b[|b| - 1];
      CollectConcat(a, init, pick);
      assert b == init + [k];
      Associative(a, init, [k]);
      CollectSnoc(a + init, k, pick);
      CollectSnoc(init, k, pick);
      Associative(Collect(a, pick), Collect(init, pick), pick(k));
    }
  }

  /** An entry can be moved to the end. */
  lemma CollectMoves<T>(left: seq<string>, k: string, right: seq<string>, pick: string -> seq<T>)
    ensures multiset(Collect(left + [k] + right, pick)) == multiset(Collect(left + right, pick)) + multiset(pick(k))
  {
    CollectConcat(left + [k], right, pick);
    CollectSnoc(left, k, pick);
    CollectConcat(left, right, pick);
    hide *;
  }

  lemma SplitAt(s: seq<string>, k: string) returns (left: seq<string>, right: seq<string>)
    requires k in multiset(s)
    ensures s == left + [k] + right
  {
    var i :| 0 <= i < |s| && s[i] == k;
    left, right := s[..i], s[i + 1..];
  }

  lemma RemoveOne(init: seq<string>, left: seq<string>, k: string, right: seq<string>)
    requires multiset(init + [k]) == multiset(left + [k] + right)
    ensures multiset(init) == multiset(left + right)
  {
    assert multiset(init + [k]) == multiset(init) + multiset{k};
    assert multiset(left + [k] + right) == multiset(left + right) + multiset{k};
    forall x ensures multiset(init)[x] == multiset(left + right)[x] {
      assert multiset(init + [k])[x] == multiset(left + [k] + right)[x];
    }
  }

  /** What is collected does not depend on the order, except for its own order. */
  lemma {:induction false} CollectPermutes<T>(a: seq<string>, b: seq<string>, pick: string -> seq<T>)
    requires multiset(a) == multiset(b)
    ensures multiset(Collect(a, pick)) == multiset(Collect(b, pick))
  {
    assert |multiset(a)| == |a| && |multiset(b)| == |b|;
    if a != [] {
      hide Collect;
      var init, k := a[..|a| - 1], a[|a| - 1];
      assert a == init + [k] && k in multiset(a);
      var left, right := SplitAt(b, k);
      RemoveOne(init, left, k, right);
      CollectPermutes(init, left + right, pick);
      CollectMoves(left, k, right, pick);
      CollectSnoc(init, k, pick);
    }
  }

  lemma {:induction false} CollectMembers<T>(order: seq<string>, pick: string -> seq<T>, x: T)
    ensures x in Collect(order, pick) <==> exists k :: k in order && x in pick(k)
  {
    if order != [] {
      var init, k := order[..|order| - 1], order[|order| - 1];
      CollectMembers(init, pick, x);
      assert order == init + [k];
      CollectSnoc(init, k, pick);
      if x in pick(k) {
        assert k in order;
      }
      hide Collect;
    }
  }

  /** No key contributes more than one entry, and different keys contribute different entries. */
  ghost predicate PicksApart<T(!new)>(pick: string -> seq<T>, order: seq<string>) {
    && (forall k :: k in order ==> |pick(k)| <= 1)
    && (forall j, k, x :: j in order && k in order && x in pick(j) && x in pick(k) ==> j == k)
  }

  lemma {:induction false} CollectDistinct<T(!new)>(order: seq<string>, pick: string -> seq<T>)
    requires Distinct(order) && PicksApart(pick, order)
    ensures Distinct(Collect(order, pick))
  {
    if order != [] {
      var init, k := order[..|order| - 1], order[|order| - 1];
      assert order == init + [k] && k in order;
      CollectDistinct(init, pick);
      CollectSnoc(init, k, pick);
      forall x | x in Collect(init, pick) ensures x !in pick(k) {
        CollectMembers(init, pick, x);
      }
      hide Collect;
      assert |pick(k)| <= 1;
      DistinctAppend(Collect(init, pick), pick(k));
    }
  }

  lemma {:induction false} DistinctMultiset<T>(s: seq<T>)
    requires Distinct(s)
    ensures forall x :: multiset(s)[x] == if x in s then 1 else 0
  {
    if s != [] {
      DistinctMultiset(s[1..]);
      assert s == [s[0]] + s[1..];
    }
  }

  lemma SameMembers<T>(a: seq<T>, b: seq<T>)
    requires Distinct(a) && Distinct(b) && forall x :: x in a <==> x in b
    ensures multiset(a) == multiset(b)
  {
    DistinctMultiset(a);
    DistinctMultiset(b);
  }
}
