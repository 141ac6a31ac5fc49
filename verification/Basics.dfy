/** Vocabulary shared by all modules: options, saturating subtraction, and strictly ascending
    sequences as canonical listings of finite sets of block numbers. */
module Basics {
  datatype Option<+T> = None | Some(value: T) {
    function GetOr(default: T): T {
      if Some? then value else default
    }
  }

  /** `u64::saturating_sub` on naturals. */
  function SatSub(a: nat, b: nat): nat {
    if a < b then 0 else a - b
  }

  function Max(a: nat, b: nat): nat {
    if a < b then b else a
  }

  function Elems<T>(s: seq<T>): set<T> {
    set x | x in s
  }

  ghost predicate Distinct<T>(s: seq<T>) {
    forall i, j :: 0 <= i < j < |s| ==> s[i] != s[j]
  }

  ghost predicate Ascending(s: seq<nat>) {
    forall i, j :: 0 <= i < j < |s| ==> s[i] < s[j]
  }

  /** The block numbers lo, lo + 1, ..., hi - 1. */
  function Range(lo: nat, hi: nat): (r: seq<nat>)
    ensures |r| == SatSub(hi, lo)
    ensures forall i :: 0 <= i < |r| ==> r[i] == lo + i
  {
    if hi <= lo then [] else seq(hi - lo, i requires 0 <= i => lo + i)
  }

  lemma RangeSplit(lo: nat, mid: nat, hi: nat)
    requires lo <= mid <= hi
    ensures Range(lo, hi) == Range(lo, mid) + Range(mid, hi)
  {
  }

  lemma {:induction false} LeastBelow(s: set<nat>, y: nat)
    requires y in s
    ensures exists m :: m in s && forall x :: x in s ==> m <= x
  {
    if x :| x in s && x < y {
      LeastBelow(s, x);
    }
  }

  lemma MinExists(s: set<nat>)
    requires s != {}
    ensures exists m :: m in s && forall x :: x in s ==> m <= x
  {
    var y :| y in s;
    LeastBelow(s, y);
  }

  lemma {:induction false} MaxExists(s: set<nat>)
    requires s != {}
    ensures exists m :: m in s && forall x :: x in s ==> x <= m
  {
    var y :| y in s;
    var above := s - {y};
    if above != {} {
      MaxExists(above);
      var m :| m in above && forall x :: x in above ==> x <= m;
      var greatest := Max(y, m);
      forall x | x in s ensures x <= greatest {
        assert x == y || x in above;
      }
      assert greatest in s;
    } else {
      forall x | x in s ensures x <= y {
        assert x !in above;
      }
    }
  }

  function MinOf(s: set<nat>): (m: nat)
    requires s != {}
    ensures m in s && forall x :: x in s ==> m <= x
  {
    MinExists(s);
    var m :| m in s && forall x :: x in s ==> m <= x;
    m
  }

  function MaxOf(s: set<nat>): (m: nat)
    requires s != {}
    ensures m in s && forall x :: x in s ==> x <= m
  {
    MaxExists(s);
    var m :| m in s && forall x :: x in s ==> x <= m;
    m
  }

  /** The listing of a finite set in ascending order. */
  function Sorted(s: set<nat>): (r: seq<nat>)
    ensures Ascending(r) && Elems(r) == s && |r| == |s|
  {
    if s == {} then []
    else
      var m := MinOf(s);
      var rest := Sorted(s - {m});
      PrependLeast(m, rest);
      assert {m} + (s - {m}) == s;
      [m] + rest
  }

  lemma PrependLeast(m: nat, rest: seq<nat>)
    requires Ascending(rest) && forall x :: x in Elems(rest) ==> m < x
    ensures Ascending([m] + rest)
    ensures Elems([m] + rest) == {m} + Elems(rest)
  {
    forall i | 0 <= i < |rest| ensures m < rest[i] {
      assert rest[i] in Elems(rest);
    }
  }

  lemma ElemsEmpty<T>(s: seq<T>)
    ensures Elems(s) == {} <==> s == []
  {
    if s != [] {
      assert s[0] in Elems(s);
    }
  }

  /** An ascending sequence is determined by the set of its elements. */
  lemma {:induction false} AscendingUnique(a: seq<nat>, b: seq<nat>)
    requires Ascending(a) && Ascending(b) && Elems(a) == Elems(b)
    ensures a == b
  {
    if |a| == 0 || |b| == 0 {
      ElemsEmpty(a);
      ElemsEmpty(b);
    } else {
      assert a[0] == b[0] by {
        assert a[0] in Elems(b) && b[0] in Elems(a);
      }
      assert Elems(a[1..]) == Elems(b[1..]) by {
        forall x ensures x in Elems(a[1..]) <==> x in Elems(b[1..]) {
          if x in a[1..] {
            assert x in Elems(b) && x != b[0];
          }
          if x in b[1..] {
            assert x in Elems(a) && x != a[0];
          }
        }
      }
      AscendingUnique(a[1..], b[1..]);
    }
  }

  lemma AscendingConcat(a: seq<nat>, b: seq<nat>)
    requires Ascending(a) && Ascending(b)
    requires forall x, y :: x in a && y in b ==> x < y
    ensures Ascending(a + b)
  {
    forall i, j | 0 <= i < j < |a + b| ensures (a + b)[i] < (a + b)[j] {
      if i < |a| <= j {
        assert a[i] in a && b[j - |a|] in b;
      }
    }
  }

  lemma Associative<T>(a: seq<T>, b: seq<T>, c: seq<T>)
    ensures (a + b) + c == a + (b + c)
  {
  }

  lemma ElemsConcat<T>(a: seq<T>, b: seq<T>)
    ensures Elems(a + b) == Elems(a) + Elems(b)
  {
  }

  lemma ElemsRange(lo: nat, hi: nat)
    ensures forall n :: n in Range(lo, hi) <==> lo <= n < hi
  {
    forall n | lo <= n < hi ensures n in Range(lo, hi) {
      assert Range(lo, hi)[n - lo] == n;
    }
  }

  lemma DistinctAppend<T>(s: seq<T>, last: seq<T>)
    requires Distinct(s) && |last| <= 1 && forall x :: x in s ==> x !in last
    ensures Distinct(s + last)
  {
    forall i, j | 0 <= i < j < |s + last| ensures (s + last)[i] != (s + last)[j] {
      assert i < |s| && (s + last)[i] in s;
      if |s| <= j {
        assert (s + last)[j] in last;
      }
    }
  }

  /** A distinct sequence has as many entries as elements. */
  lemma {:induction false} DistinctCard<T>(s: seq<T>)
    requires Distinct(s)
    ensures |Elems(s)| == |s|
  {
    if s != [] {
      DistinctCard(s[1..]);
      assert Elems(s) == Elems(s[1..]) + {s[0]};
    }
  }

  lemma SubsetCard<T>(a: set<T>, b: set<T>)
    requires a <= b
    ensures |a| <= |b|
  {
    assert b == a + (b - a);
  }

  lemma {:induction false} ElemsCard<T>(s: seq<T>)
    ensures |Elems(s)| <= |s|
  {
    if s != [] {
      ElemsCard(s[1..]);
      assert Elems(s) == Elems(s[1..]) + {s[0]};
    }
  }

  lemma DivBound(count: nat, size: nat, total: nat)
    requires 0 < size && count * size <= total
    ensures count <= total / size
  {
    var q := total / size;
    assert total < (q + 1) * size;
    assert q < count ==> (q + 1) * size <= count * size;
  }
}
