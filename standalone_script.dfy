/** The first stand-alone generator: 1800 cards of 10 numbers from 1..60, collected by
    rejection sampling into a set and written one card per row with 1-based IDs. */
module StandaloneScript {
  import opened Support
  import opened Combinatorics
  import opened GeneratorService
  import AuditScript

  const CardCount := 1800
  const NumbersPerCard := 10
  const MaxNumber := 60

  datatype Export = NotEnoughSamples | Exported(cards: seq<seq<int>>, table: SimpleTable)

  /** 1800 distinct cards exist, so the loop can finish. */
  lemma CardCountFeasible()
    ensures CardCount <= Binomial(MaxNumber, NumbersPerCard)
  {
    AuditScript.CapacityBound();
  }

  /** The script: the sampling loop, then the table with ID i + 1 on card i. */
  method Run(draws: seq<seq<int>>) returns (e: Export)
    requires forall i :: 0 <= i < |draws| ==> IsSample(draws[i], NumbersPerCard, MaxNumber)
    ensures e.Exported? ==> (|e.cards| == CardCount && NoDuplicates(e.cards)
      && AllCombinations(e.cards, NumbersPerCard, MaxNumber))
    ensures e.Exported? ==> (|e.table.rows| == CardCount
      && forall i :: 0 <= i < CardCount ==> e.table.rows[i] == SimpleRow(i + 1, e.cards[i]))
    ensures e.NotEnoughSamples? <==> |Accepted(draws, |draws|)| < CardCount
  {
    var g := GenerateCombinations(draws, CardCount, NumbersPerCard, MaxNumber);
    if g.SamplesExhausted? {
      return NotEnoughSamples;
    }
    AcceptedGrows(draws, g.used, |draws|);
    NoDuplicatesCard(g.pool);
    var table := CreateSimple(g.pool, NumbersPerCard);
    return Exported(g.pool, table.value);
  }

  /** The set the loop fills never shrinks as more samples are drawn. */
  lemma {:induction false} AcceptedGrows(draws: seq<seq<int>>, n: nat, n': nat)
    requires n <= n' <= |draws|
    ensures Accepted(draws, n) <= Accepted(draws, n')
    ensures |Accepted(draws, n)| <= |Accepted(draws, n')|
    decreases n' - n
  {
    if n < n' {
      AcceptedStep(draws, n);
      AcceptedGrows(draws, n + 1, n');
    }
  }
}
