/** `sorted(...)` applied to one sample: the ascending arrangement that turns a drawn sample
    into the canonical tuple the generator stores. */
module CardSorting {
  import opened Support

  predicate NonDecreasing(s: seq<int>)
  {
    forall i, j :: 0 <= i < j < |s| ==> s[i] <= s[j]
  }

  /** Inserts x before the first element that is not smaller than it. */
  function Insert(x: int, s: seq<int>): (r: seq<int>)
    ensures |r| == |s| + 1
    ensures multiset(r) == multiset(s) + multiset{x}
    ensures r[0] == x || (|s| > 0 && r[0] == s[0])
  {
    if s == [] then [x]
    else if x <= s[0] then [x] + s
    else
      assert s == [s[0]] + s[1..];
      [s[0]] + Insert(x, s[1..])
  }

  /** Inserting into an ascending sequence keeps it ascending. */
  lemma {:induction false} InsertKeepsOrder(x: int, s: seq<int>)
    requires NonDecreasing(s)
    ensures NonDecreasing(Insert(x, s))
  {
    if s != [] && x > s[0] {
      InsertKeepsOrder(x, s[1..]);
      var t := Insert(x, s[1..]);
      assert s[0] <= t[0] by {
        if |s| > 1 {
          assert s[1..][0] == s[1];
        }
      }
      assert Insert(x, s) == [s[0]] + t;
    }
  }

  /** Inserting a new value into a strictly increasing sequence keeps it strictly
      increasing. */
  lemma {:induction false} InsertKeepsStrictOrder(x: int, s: seq<int>)
    requires StrictlyIncreasing(s) && x !in s
    ensures StrictlyIncreasing(Insert(x, s))
  {
    if s != [] && x > s[0] {
      assert x !in s[1..];
      InsertKeepsStrictOrder(x, s[1..]);
      var t := Insert(x, s[1..]);
      assert s[0] < t[0] by {
        if |s| > 1 {
          assert s[1..][0] == s[1];
        }
      }
      assert Insert(x, s) == [s[0]] + t;
    }
  }

  /** Insertion sort: ascending, and a permutation of its input. */
  function SortAscending(s: seq<int>): (r: seq<int>)
    ensures |r| == |s|
    ensures multiset(r) == multiset(s)
    ensures NonDecreasing(r)
    ensures NoDuplicates(s) ==> StrictlyIncreasing(r)
  {
    if s == [] then []
    else
      var rest := SortAscending(s[1..]);
      assert s == [s[0]] + s[1..];
      InsertKeepsOrder(s[0], rest);
      SortStep(s, rest);
      Insert(s[0], rest)
  }

  /** The strict half of a sorting step: with no repeats the head is new to the sorted tail. */
  lemma SortStep(s: seq<int>, rest: seq<int>)
    requires s != [] && multiset(rest) == multiset(s[1..])
    requires NoDuplicates(s[1..]) ==> StrictlyIncreasing(rest)
    ensures NoDuplicates(s) ==> StrictlyIncreasing(Insert(s[0], rest))
  {
    if NoDuplicates(s) {
      assert NoDuplicates(s[1..]);
      assert s[0] !in multiset(s[1..]) by {
        forall k | 0 <= k < |s[1..]| ensures s[1..][k] != s[0] {
          assert s[1..][k] == s[k + 1];
        }
      }
      InsertKeepsStrictOrder(s[0], rest);
    }
  }

  /** Sorting keeps every value inside any range the input lies in. */
  lemma SortKeepsRange(s: seq<int>, lo: int, hi: int)
    requires AllInRange(s, lo, hi)
    ensures AllInRange(SortAscending(s), lo, hi)
  {
    var r := SortAscending(s);
    forall i | 0 <= i < |r| ensures lo <= r[i] <= hi {
      assert r[i] in multiset(r);
      assert r[i] in multiset(s);
    }
  }

  /** A sequence that is already strictly increasing is left as it is. */
  lemma {:induction false} SortIdentity(s: seq<int>)
    requires StrictlyIncreasing(s)
    ensures SortAscending(s) == s
  {
    if s != [] {
      SortIdentity(s[1..]);
      assert s == [s[0]] + s[1..];
    }
  }
}
