/** The combinatorics behind the feasibility check: the exact binomial coefficient that
    `math.comb` computes, and the fact that it counts the sorted k-tuples of distinct
    numbers drawn from 1..M. This is why "needed <= C(M, k)" is exactly the condition
    under which rejection sampling can ever collect the cards it needs. */
module Combinatorics {
  import opened Support

  /** C(n, k) by Pascal's rule; 0 when k > n, which is what `math.comb` returns. */
  function Binomial(n: nat, k: nat): nat
  {
    if k == 0 then 1
    else if n == 0 then 0
    else Binomial(n - 1, k - 1) + Binomial(n - 1, k)
  }

  /** A card as the generator stores it: k distinct numbers of 1..m in ascending order. */
  predicate IsCombination(s: seq<int>, k: int, m: int)
  {
    |s| == k && StrictlyIncreasing(s) && AllInRange(s, 1, m)
  }

  /** Every entry of the pool is a card of k numbers from 1..m. */
  predicate AllCombinations(pool: seq<seq<int>>, k: int, m: int)
  {
    forall i :: 0 <= i < |pool| ==> IsCombination(pool[i], k, m)
  }

  /** All strictly increasing sequences of length k with values in [lo, lo + n), listed in
      lexicographic order: those starting with lo, then those that do not. */
  function IncSeqs(lo: int, n: nat, k: nat): (r: seq<seq<int>>)
    decreases n
  {
    if k == 0 then [[]]
    else if n == 0 then []
    else PrependAll(lo, IncSeqs(lo + 1, n - 1, k - 1)) + IncSeqs(lo + 1, n - 1, k)
  }

  /** Each sequence of ss with x put in front. */
  function PrependAll(x: int, ss: seq<seq<int>>): (r: seq<seq<int>>)
    ensures |r| == |ss| && forall i :: 0 <= i < |ss| ==> r[i] == [x] + ss[i]
  {
    seq(|ss|, i requires 0 <= i < |ss| => [x] + ss[i])
  }

  lemma {:induction false} BinomialZeroAbove(n: nat, k: nat)
    requires k > n
    ensures Binomial(n, k) == 0
  {
    if n > 0 {
      BinomialZeroAbove(n - 1, k - 1);
      BinomialZeroAbove(n - 1, k);
    }
  }

  lemma {:induction false} BinomialPositive(n: nat, k: nat)
    requires k <= n
    ensures Binomial(n, k) >= 1
  {
    if k > 0 {
      BinomialPositive(n - 1, k - 1);
    }
  }

  /** Moving down the diagonal of Pascal's triangle never increases the value. */
  lemma {:induction false} BinomialDiagonal(n: nat, k: nat, j: nat)
    ensures Binomial(n + j, k + j) >= Binomial(n, k)
  {
    if j > 0 {
      BinomialDiagonal(n, k, j - 1);
      assert Binomial(n + j, k + j) == Binomial(n + j - 1, k + j - 1) + Binomial(n + j - 1, k + j);
    }
  }

  lemma {:induction false} BinomialOne(n: nat)
    ensures Binomial(n, 1) == n
  {
    if n > 0 {
      BinomialOne(n - 1);
    }
  }

  lemma {:induction false} BinomialTwo(n: nat)
    ensures 2 * Binomial(n, 2) == n * (n - 1)
  {
    if n > 0 {
      BinomialTwo(n - 1);
      BinomialOne(n - 1);
      assert 2 * Binomial(n, 2) == 2 * (n - 1) + (n - 1) * (n - 2);
    }
  }

  lemma {:induction false} BinomialThree(n: nat)
    ensures 6 * Binomial(n, 3) == n * (n - 1) * (n - 2)
  {
    if n > 0 {
      BinomialThree(n - 1);
      BinomialTwo(n - 1);
      var m := n - 1;
      assert Binomial(n, 3) == Binomial(m, 2) + Binomial(m, 3);
      CubeStep(m);
    }
  }

  /** Choosing ten of n + 7 is at least choosing three of n: the lower bound the capacity
      rule needs for cards of ten numbers. */
  lemma BinomialTenFromThree(n: nat)
    ensures 6 * Binomial(n + 7, 10) >= n * (n - 1) * (n - 2)
  {
    BinomialDiagonal(n, 3, 7);
    BinomialThree(n);
  }

  /** The Pascal step of BinomialThree in closed form. */
  lemma CubeStep(m: int)
    ensures 3 * (m * (m - 1)) + m * (m - 1) * (m - 2) == (m + 1) * m * (m - 1)
  {
  }

  /** s is strictly increasing, of length k, with values in [lo, hi]. */
  predicate IncIn(s: seq<int>, k: int, lo: int, hi: int)
  {
    |s| == k && StrictlyIncreasing(s) && AllInRange(s, lo, hi)
  }

  lemma PrependIncIn(x: int, t: seq<int>, k: nat, hi: int)
    requires IncIn(t, k, x + 1, hi) && x <= hi
    ensures IncIn([x] + t, k + 1, x, hi)
  {
    var s := [x] + t;
    assert forall i :: 1 <= i < |s| ==> s[i] == t[i - 1];
  }

  /** Every entry of IncSeqs(lo, n, k) is strictly increasing, of length k, in [lo, lo + n). */
  lemma {:induction false} IncSeqsSound(lo: int, n: nat, k: nat)
    ensures forall i :: 0 <= i < |IncSeqs(lo, n, k)| ==> IncIn(IncSeqs(lo, n, k)[i], k, lo, lo + n - 1)
    decreases n
  {
    if k > 0 && n > 0 {
      var a := IncSeqs(lo + 1, n - 1, k - 1);
      var b := IncSeqs(lo + 1, n - 1, k);
      var p := PrependAll(lo, a);
      var all := IncSeqs(lo, n, k);
      assert all == p + b;
      IncSeqsSound(lo + 1, n - 1, k - 1);
      IncSeqsSound(lo + 1, n - 1, k);
      forall i | 0 <= i < |all| ensures IncIn(all[i], k, lo, lo + n - 1) {
        if i < |p| {
          PrependIncIn(lo, a[i], k - 1, lo + n - 1);
        } else {
          assert all[i] == b[i - |p|];
        }
      }
    }
  }

  /** Conversely, every such sequence is an entry; j is its position. */
  lemma {:induction false} IncSeqsComplete(lo: int, n: nat, k: nat, s: seq<int>) returns (j: nat)
    requires IncIn(s, k, lo, lo + n - 1)
    ensures j < |IncSeqs(lo, n, k)| && IncSeqs(lo, n, k)[j] == s
    decreases n
  {
    if k == 0 {
      assert s == [];
      j := 0;
    } else {
      assert lo <= s[0] <= lo + n - 1;
      var a := IncSeqs(lo + 1, n - 1, k - 1);
      var b := IncSeqs(lo + 1, n - 1, k);
      var p := PrependAll(lo, a);
      assert IncSeqs(lo, n, k) == p + b;
      if s[0] == lo {
        var t := s[1..];
        assert forall i :: 0 <= i < |t| ==> t[i] == s[i + 1];
        var i := IncSeqsComplete(lo + 1, n - 1, k - 1, t);
        assert s == [lo] + t;
        j := i;
      } else {
        assert forall i :: 0 <= i < |s| ==> s[0] <= s[i];
        var i := IncSeqsComplete(lo + 1, n - 1, k, s);
        j := |p| + i;
      }
    }
  }

  /** C(n, k) counts the strictly increasing k-sequences over n consecutive values. */
  lemma {:induction false} IncSeqsCard(lo: int, n: nat, k: nat)
    ensures |IncSeqs(lo, n, k)| == Binomial(n, k)
    decreases n
  {
    if k > 0 && n > 0 {
      IncSeqsCard(lo + 1, n - 1, k - 1);
      IncSeqsCard(lo + 1, n - 1, k);
    }
  }

  /** No sequence is listed twice. */
  lemma {:induction false} IncSeqsDistinct(lo: int, n: nat, k: nat)
    ensures NoDuplicates(IncSeqs(lo, n, k))
    decreases n
  {
    if k > 0 && n > 0 {
      var a := IncSeqs(lo + 1, n - 1, k - 1);
      var b := IncSeqs(lo + 1, n - 1, k);
      var p := PrependAll(lo, a);
      IncSeqsDistinct(lo + 1, n - 1, k - 1);
      IncSeqsDistinct(lo + 1, n - 1, k);
      IncSeqsSound(lo + 1, n - 1, k);
      forall i, j | 0 <= i < j < |p| ensures p[i] != p[j] {
        assert p[i][1..] == a[i] && p[j][1..] == a[j];
      }
      forall i, j | 0 <= i < |p| && 0 <= j < |b| ensures p[i] != b[j] {
        assert p[i][0] == lo;
        assert IncIn(b[j], k, lo + 1, lo + n - 1);
      }
      AppendDistinct(p, b);
    }
  }

  /** Two lists without repeats and without a common entry join into one without repeats. */
  lemma AppendDistinct(p: seq<seq<int>>, b: seq<seq<int>>)
    requires NoDuplicates(p) && NoDuplicates(b)
    requires forall i, j :: 0 <= i < |p| && 0 <= j < |b| ==> p[i] != b[j]
    ensures NoDuplicates(p + b)
  {
    var c := p + b;
    forall i, j | 0 <= i < j < |c| ensures c[i] != c[j] {
      if j < |p| {
        assert c[i] == p[i] && c[j] == p[j];
      } else if i < |p| {
        assert c[i] == p[i] && c[j] == b[j - |p|];
      } else {
        assert c[i] == b[i - |p|] && c[j] == b[j - |p|];
      }
    }
  }

  /** The feasibility bound: a pool of pairwise distinct cards of k numbers from 1..m
      has at most C(m, k) entries. */
  lemma DistinctCombinationsBound(pool: seq<seq<int>>, k: nat, m: nat)
    requires NoDuplicates(pool)
    requires AllCombinations(pool, k, m)
    ensures |pool| <= Binomial(m, k)
  {
    var all := IncSeqs(1, m, k);
    forall s | s in Elems(pool) ensures s in Elems(all) {
      assert IncIn(s, k, 1, 1 + m - 1);
      var j := IncSeqsComplete(1, m, k, s);
    }
    NoDuplicatesCard(pool);
    IncSeqsDistinct(1, m, k);
    NoDuplicatesCard(all);
    IncSeqsCard(1, m, k);
    SubsetCard(Elems(pool), Elems(all));
  }

  /** The bound is tight: when needed <= C(m, k) there is a pool of that many distinct cards. */
  lemma EnoughCombinations(k: nat, m: nat, needed: nat) returns (pool: seq<seq<int>>)
    requires needed <= Binomial(m, k)
    ensures |pool| == needed && NoDuplicates(pool) && AllCombinations(pool, k, m)
  {
    var all := IncSeqs(1, m, k);
    IncSeqsCard(1, m, k);
    IncSeqsSound(1, m, k);
    IncSeqsDistinct(1, m, k);
    pool := all[..needed];
    forall i | 0 <= i < |pool| ensures IsCombination(pool[i], k, m) {
      assert pool[i] == all[i];
      assert IncIn(all[i], k, 1, 1 + m - 1);
    }
  }

  lemma {:induction false} SeqOfSet(ss: set<seq<int>>) returns (xs: seq<seq<int>>)
    ensures Elems(xs) == ss && NoDuplicates(xs) && |xs| == |ss|
  {
    if ss == {} {
      xs := [];
    } else {
      var e :| e in ss;
      var rest := SeqOfSet(ss - {e});
      xs := rest + [e];
      assert Elems(xs) == Elems(rest) + {e};
    }
  }
}
