/** Small helpers shared by the whole model: failure-compatible results and the few
    pieces of Python integer and list semantics the source relies on. */
module Support {

  datatype Option<+T> = None | Some(value: T)

  datatype Result<+R, +E> = Success(value: R) | Failure(error: E)

  /** The exceptions the Python code can raise on the modelled paths. */
  datatype PyException = ZeroDivisionError | ValueError | IndexError

  /** Python's `a // b` (floor division), defined for b != 0. */
  function FloorDiv(a: int, b: int): (q: int)
    requires b != 0
    ensures b * q <= a < b * q + b || b * q + b < a <= b * q
  {
    if b > 0 then a / b
    else if a % b == 0 then a / b
    else a / b - 1
  }

  /** `max(x, 0)`: how many times `range(x)` iterates. */
  function Max0(x: int): nat
  {
    if x > 0 then x else 0
  }

  /** Python's `xs[:n]`: a negative n counts from the end. */
  function PyPrefix<T>(xs: seq<T>, n: int): (r: seq<T>)
    ensures n >= 0 ==> |r| == if n < |xs| then n else |xs|
    ensures n < 0 ==> |r| == if |xs| + n > 0 then |xs| + n else 0
    ensures r <= xs
  {
    if n >= 0 then (if n < |xs| then xs[..n] else xs)
    else if |xs| + n > 0 then xs[..|xs| + n] else []
  }

  /** The elements of a sequence, as a set. */
  function Elems<T>(xs: seq<T>): set<T>
  {
    set x | x in xs
  }

  /** No element occurs twice. */
  predicate NoDuplicates<T(==)>(xs: seq<T>)
  {
    forall i, j :: 0 <= i < j < |xs| ==> xs[i] != xs[j]
  }

  /** Every value lies in [lo, hi]. */
  predicate AllInRange(xs: seq<int>, lo: int, hi: int)
  {
    forall i :: 0 <= i < |xs| ==> lo <= xs[i] <= hi
  }

  /** Strictly increasing: sorted and without repeated values. */
  predicate StrictlyIncreasing(xs: seq<int>)
  {
    forall i, j :: 0 <= i < j < |xs| ==> xs[i] < xs[j]
  }

  /** The integers lo, lo+1, ..., hi-1 (Python's `range(lo, hi)`). */
  function Range(lo: int, hi: int): (r: seq<int>)
    decreases hi - lo
    ensures |r| == if lo < hi then hi - lo else 0
    ensures forall i :: 0 <= i < |r| ==> r[i] == lo + i
  {
    if lo >= hi then [] else [lo] + Range(lo + 1, hi)
  }

  /** The integers of [lo, hi), as a set (Python's `set(range(lo, hi))`). */
  function Interval(lo: int, hi: int): (r: set<int>)
    ensures forall x :: x in r <==> lo <= x < hi
  {
    RangeMembers(lo, hi);
    Elems(Range(lo, hi))
  }

  lemma {:induction false} RangeMembers(lo: int, hi: int)
    ensures forall x :: x in Range(lo, hi) <==> lo <= x < hi
    ensures NoDuplicates(Range(lo, hi))
  {
    var r := Range(lo, hi);
    forall x | lo <= x < hi ensures x in r {
      assert r[x - lo] == x;
    }
  }

  lemma {:induction false} NoDuplicatesCard<T>(xs: seq<T>)
    requires NoDuplicates(xs)
    ensures |Elems(xs)| == |xs|
  {
    if xs != [] {
      var init := xs[..|xs| - 1];
      assert NoDuplicates(init);
      NoDuplicatesCard(init);
      assert Elems(xs) == Elems(init) + {xs[|xs| - 1]};
      assert xs[|xs| - 1] !in Elems(init);
    }
  }

  /** A sequence with as many distinct elements as positions has no repeats. */
  lemma {:induction false} CardNoDuplicates<T>(xs: seq<T>)
    requires |Elems(xs)| == |xs|
    ensures NoDuplicates(xs)
  {
    if xs != [] {
      var init := xs[..|xs| - 1];
      var last := xs[|xs| - 1];
      assert xs == init + [last];
      ElemsAppend(init, last);
      ElemsCardBound(init);
      CardNoDuplicates(init);
      NoDuplicatesAppend(init, last);
    }
  }

  lemma {:induction false} ElemsCardBound<T>(xs: seq<T>)
    ensures |Elems(xs)| <= |xs|
  {
    if xs != [] {
      var init := xs[..|xs| - 1];
      ElemsCardBound(init);
      assert Elems(xs) == Elems(init) + {xs[|xs| - 1]};
    }
  }

  lemma ElemsAppend<T>(xs: seq<T>, x: T)
    ensures Elems(xs + [x]) == Elems(xs) + {x}
  {
  }

  lemma NoDuplicatesAppend<T>(xs: seq<T>, x: T)
    requires NoDuplicates(xs) && x !in xs
    ensures NoDuplicates(xs + [x])
  {
    var ys := xs + [x];
    forall a, b | 0 <= a < b < |ys| ensures ys[a] != ys[b] {
      if b == |xs| {
        assert ys[a] == xs[a];
      }
    }
  }

  lemma IntervalCard(lo: int, hi: int)
    requires lo <= hi
    ensures |Interval(lo, hi)| == hi - lo
  {
    RangeMembers(lo, hi);
    NoDuplicatesCard(Range(lo, hi));
  }

  lemma SubsetCard<T>(a: set<T>, b: set<T>)
    requires a <= b
    ensures |a| <= |b|
  {
    assert b == a + (b - a);
    assert a * (b - a) == {};
  }
}
