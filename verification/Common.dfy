/** Small vocabulary shared by every model: option and result types, sums over
    sequences, and the integer operators of Go where they differ from Dafny's. */
module Common {

  datatype Option<+T> = None | Some(value: T)

  datatype Result<+T, +E> = Ok(value: T) | Err(error: E)

  const MAX_INT64: int := 0x7fff_ffff_ffff_ffff
  const MIN_INT64: int := -0x8000_0000_0000_0000

  /** Go's integer division: truncates toward zero. */
  function GoDiv(a: int, b: int): (q: int)
    requires b > 0
    ensures a >= 0 ==> q == a / b
    ensures -b < a - q * b < b
  {
    if a >= 0 then a / b else -((-a) / b)
  }

  /** Go's remainder: takes the sign of the dividend. */
  function GoMod(a: int, b: int): (r: int)
    requires b > 0
    ensures -b < r < b
    ensures a >= 0 ==> r == a % b
  {
    a - GoDiv(a, b) * b
  }

  /** The elements of a sequence that satisfy a predicate, in order. */
  function Filter<T>(s: seq<T>, p: T -> bool): seq<T> {
    if s == [] then []
    else
      var front := Filter(s[..|s| - 1], p);
      if p(s[|s| - 1]) then front + [s[|s| - 1]] else front
  }

  lemma FilterLast<T>(s: seq<T>, x: T, p: T -> bool)
    ensures Filter(s + [x], p) == if p(x) then Filter(s, p) + [x] else Filter(s, p)
  {
    assert (s + [x])[..|s|] == s;
  }

  lemma {:induction false} FilterNone<T>(s: seq<T>, p: T -> bool)
    ensures Filter(s, p) == [] <==> forall x :: x in s ==> !p(x)
  {
    if s != [] {
      FilterNone(s[..|s| - 1], p);
      assert s == s[..|s| - 1] + [s[|s| - 1]];
    }
  }

  /** Filtering keeps every satisfying element as often as it occurs. */
  lemma {:induction false} FilterCounts<T>(s: seq<T>, p: T -> bool, x: T)
    ensures multiset(Filter(s, p))[x] == if p(x) then multiset(s)[x] else 0
  {
    if s != [] {
      var front, last := s[..|s| - 1], s[|s| - 1];
      FilterCounts(front, p, x);
      assert s == front + [last];
      FilterLast(front, last, p);
    }
  }

  lemma {:induction false} FilterHolds<T>(s: seq<T>, p: T -> bool)
    ensures forall x :: x in Filter(s, p) ==> x in s && p(x)
  {
    if s != [] {
      FilterHolds(s[..|s| - 1], p);
    }
  }

  /** Filtering keeps the order: the result is read off strictly increasing positions,
      which are all those that satisfy the predicate. */
  lemma {:induction false} FilterInOrder<T>(s: seq<T>, p: T -> bool) returns (at: seq<nat>)
    ensures |at| == |Filter(s, p)|
    ensures forall k :: 0 <= k < |at| ==> at[k] < |s| && p(s[at[k]]) && Filter(s, p)[k] == s[at[k]]
    ensures forall k, l :: 0 <= k < l < |at| ==> at[k] < at[l]
    ensures forall i :: 0 <= i < |s| && p(s[i]) ==> i in at
  {
    if s == [] {
      at := [];
    } else {
      var n := |s| - 1;
      at := FilterInOrder(s[..n], p);
      assert forall k :: 0 <= k < |at| ==> at[k] < n && s[..n][at[k]] == s[at[k]];
      ghost var before := at;
      assert forall i :: 0 <= i < n && p(s[i]) ==> s[..n][i] == s[i] && i in before;
      if p(s[n]) {
        at := at + [n];
        assert forall i :: i in before ==> i in at;
        assert at[|before|] == n;
      }
    }
  }

  function Bit(b: bool): nat { if b then 1 else 0 }

  function Pow(a: nat, n: nat): nat {
    if n == 0 then 1 else a * Pow(a, n - 1)
  }

  /** Of two finite sets, one inside the other, the inner one is no larger, and as
      large only when they are equal. */
  lemma SubsetSize<T>(a: set<T>, b: set<T>)
    requires a <= b
    ensures |a| <= |b|
    ensures |a| == |b| ==> a == b
  {
    assert b == a + (b - a);
    assert |b| == |a| + |b - a|;
    if |a| == |b| {
      assert b - a == {};
    }
  }

  /** The sum of a weight over the elements of a sequence. */
  ghost function Sum<T(!new)>(s: seq<T>, weight: T -> nat): nat {
    if s == [] then 0 else weight(s[0]) + Sum(s[1..], weight)
  }

  lemma {:induction false} SumUpdate<T(!new)>(s: seq<T>, i: nat, x: T, weight: T -> nat)
    requires i < |s|
    ensures Sum(s[i := x], weight) + weight(s[i]) == Sum(s, weight) + weight(x)
  {
    if i == 0 {
      assert s[0 := x][1..] == s[1..];
    } else {
      assert s[i := x][1..] == s[1..][i - 1 := x];
      SumUpdate(s[1..], i - 1, x, weight);
    }
  }

  lemma {:induction false} SumAppend<T(!new)>(s: seq<T>, x: T, weight: T -> nat)
    ensures Sum(s + [x], weight) == Sum(s, weight) + weight(x)
  {
    if s == [] {
      assert s + [x] == [x];
    } else {
      assert (s + [x])[1..] == s[1..] + [x];
      SumAppend(s[1..], x, weight);
    }
  }

  lemma {:induction false} SumAtLeast<T(!new)>(s: seq<T>, i: nat, weight: T -> nat)
    requires i < |s|
    ensures Sum(s, weight) >= weight(s[i])
  {
    if i > 0 {
      SumAtLeast(s[1..], i - 1, weight);
    }
  }

  lemma {:induction false} SumZero<T(!new)>(s: seq<T>, weight: T -> nat)
    ensures Sum(s, weight) == 0 <==> forall x :: x in s ==> weight(x) == 0
  {
    if s != [] {
      SumZero(s[1..], weight);
      assert forall x :: x in s <==> x == s[0] || x in s[1..];
    }
  }

  lemma {:induction false} SumAtMost<T(!new)>(s: seq<T>, weight: T -> nat, bound: nat)
    requires forall x :: x in s ==> weight(x) <= bound
    ensures Sum(s, weight) <= bound * |s|
  {
    if s != [] {
      SumAtMost(s[1..], weight, bound);
      var rest := |s| - 1;
      assert bound * (rest + 1) == bound * rest + bound;
    }
  }

  /** A finite set of naturals below n has at most n elements, and exactly n
      only when it holds every one of them. */
  lemma {:induction false} NaturalsBelow(s: set<nat>, n: nat)
    requires forall x :: x in s ==> x < n
    ensures |s| <= n
    ensures |s| == n ==> forall x: nat :: x < n ==> x in s
  {
    if n == 0 {
      assert s == {};
    } else {
      NaturalsBelow(s - {n - 1}, n - 1);
      if |s| == n {
        assert n - 1 in s;
        forall x: nat | x < n - 1 ensures x in s {
          assert x in s - {n - 1};
        }
      }
    }
  }
}
