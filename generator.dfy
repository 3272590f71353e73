/** The generation service: configuration validation, rejection sampling of unique cards,
    the simple and the paired ("Corel") layouts, the six-check audit and the numbering
    summary, and the pipeline that runs them in that order. */
module GeneratorService {
  import opened Support
  import opened Combinatorics
  import opened CardSorting
  import opened SheetIds

  /** ConfiguracionBingo without the seed and the output naming (see README). */
  datatype Config = Config(sheets: int, numbersPerCard: int, maxNumber: int,
                           cardsPerSheet: int, sheetsPerRow: int)

  /** How many distinct cards a generation needs. */
  function Needed(c: Config): int
  {
    c.sheets * c.cardsPerSheet
  }

  /** `numero_de_bingos // bingos_por_fila`: the number of paired rows. */
  function CorelRows(c: Config): int
    requires c.sheetsPerRow != 0
  {
    FloorDiv(c.sheets, c.sheetsPerRow)
  }

  /** `numero_de_bingos // 2 + 1`: the number of the first right-hand sheet. */
  function RightStart(c: Config): int
  {
    FloorDiv(c.sheets, 2) + 1
  }

  // ---------------------------------------------------------------------------------
  // Validation
  // ---------------------------------------------------------------------------------

  datatype ConfigError =
    | SheetsNotPositive
    | NumbersNotPositive
    | MaximumNotPositive
    | NumbersAboveMaximum(numbers: int, maximum: int)
    | SheetsNotDivisible(sheets: int, perRow: int)
    | NotEnoughCombinations(needed: int, available: nat)

  /** The position of each rule in the validator. */
  function Rank(e: ConfigError): nat
  {
    match e
    case SheetsNotPositive => 0
    case NumbersNotPositive => 1
    case MaximumNotPositive => 2
    case NumbersAboveMaximum(_, _) => 3
    case SheetsNotDivisible(_, _) => 4
    case NotEnoughCombinations(_, _) => 5
  }

  /** What the validator returns, or the exception it raises before returning. */
  datatype Validation = Checked(ok: bool, errors: seq<ConfigError>) | Raised(exception: PyException)

  /** Every rule of the validator holds. */
  predicate ValidConfig(c: Config)
  {
    c.sheets > 0 && c.numbersPerCard > 0 && c.maxNumber > 0
    && c.numbersPerCard <= c.maxNumber
    && c.sheetsPerRow != 0 && c.sheets % c.sheetsPerRow == 0
    && Needed(c) <= Binomial(c.maxNumber, c.numbersPerCard)
  }

  /** The errors of the rules that fail, one per rule and in rule order. */
  function Violations(c: Config): seq<ConfigError>
    requires c.sheetsPerRow != 0 && c.maxNumber >= 0 && c.numbersPerCard >= 0
  {
    (if c.sheets <= 0 then [SheetsNotPositive] else [])
    + (if c.numbersPerCard <= 0 then [NumbersNotPositive] else [])
    + (if c.maxNumber <= 0 then [MaximumNotPositive] else [])
    + (if c.numbersPerCard > c.maxNumber then [NumbersAboveMaximum(c.numbersPerCard, c.maxNumber)] else [])
    + (if c.sheets % c.sheetsPerRow != 0 then [SheetsNotDivisible(c.sheets, c.sheetsPerRow)] else [])
    + (if Needed(c) > Binomial(c.maxNumber, c.numbersPerCard)
       then [NotEnoughCombinations(Needed(c), Binomial(c.maxNumber, c.numbersPerCard))] else [])
  }

  /** What validar_configuracion returns or raises: the divisibility test raises
      ZeroDivisionError for zero sheets per row, and math.comb raises ValueError for a
      negative argument; otherwise the pair (no errors, errors). */
  function ValidationOf(c: Config): Validation
  {
    if c.sheetsPerRow == 0 then Raised(ZeroDivisionError)
    else if c.maxNumber < 0 || c.numbersPerCard < 0 then Raised(ValueError)
    else Checked(Violations(c) == [], Violations(c))
  }

  /** validar_configuracion: appends one error per violated rule instead of stopping at
      the first. */
  method Validate(c: Config) returns (v: Validation)
    ensures v == ValidationOf(c)
  {
    var errors: seq<ConfigError> := [];
    if c.sheets <= 0 {
      errors := errors + [SheetsNotPositive];
    }
    if c.numbersPerCard <= 0 {
      errors := errors + [NumbersNotPositive];
    }
    if c.maxNumber <= 0 {
      errors := errors + [MaximumNotPositive];
    }
    if c.numbersPerCard > c.maxNumber {
      errors := errors + [NumbersAboveMaximum(c.numbersPerCard, c.maxNumber)];
    }
    if c.sheetsPerRow == 0 {
      return Raised(ZeroDivisionError);
    }
    assert errors == (if c.sheets <= 0 then [SheetsNotPositive] else [])
      + (if c.numbersPerCard <= 0 then [NumbersNotPositive] else [])
      + (if c.maxNumber <= 0 then [MaximumNotPositive] else [])
      + (if c.numbersPerCard > c.maxNumber then [NumbersAboveMaximum(c.numbersPerCard, c.maxNumber)] else []);
    if c.sheets % c.sheetsPerRow != 0 {
      errors := errors + [SheetsNotDivisible(c.sheets, c.sheetsPerRow)];
    }
    var needed := Needed(c);
    if c.maxNumber < 0 || c.numbersPerCard < 0 {
      return Raised(ValueError);
    }
    var available := Binomial(c.maxNumber, c.numbersPerCard);
    if needed > available {
      errors := errors + [NotEnoughCombinations(needed, available)];
    }
    assert errors == Violations(c);
    return Checked(errors == [], errors);
  }

  /** The validator raises only for zero sheets per row or a negative argument of C. */
  lemma ValidationRaises(c: Config)
    ensures ValidationOf(c).Raised? <==> c.sheetsPerRow == 0 || c.maxNumber < 0 || c.numbersPerCard < 0
    ensures ValidationOf(c) == Raised(ZeroDivisionError) <==> c.sheetsPerRow == 0
  {
  }

  /** Validation succeeds exactly when the error list is empty, which is exactly when
      every rule holds. */
  lemma ValidationOkIffNoErrors(c: Config)
    requires ValidationOf(c).Checked?
    ensures ValidationOf(c).ok <==> ValidationOf(c).errors == []
    ensures ValidationOf(c).ok <==> ValidConfig(c)
  {
  }

  /** The list made of es[i] for each i with b[i], in order. */
  function Listed(b: seq<bool>, es: seq<ConfigError>): seq<ConfigError>
    requires |b| == 6 && |es| == 6
  {
    Part(b, es, 0) + Part(b, es, 1) + Part(b, es, 2) + Part(b, es, 3) + Part(b, es, 4) + Part(b, es, 5)
  }

  function Part(b: seq<bool>, es: seq<ConfigError>, i: nat): seq<ConfigError>
    requires i < |b| == |es|
  {
    if b[i] then [es[i]] else []
  }

  /** The errors of the first k rules. */
  function Prefix(b: seq<bool>, es: seq<ConfigError>, k: nat): seq<ConfigError>
    requires |b| == 6 && |es| == 6 && k <= 6
  {
    if k == 0 then [] else Prefix(b, es, k - 1) + Part(b, es, k - 1)
  }

  /** When the six errors are one per rule, the first k rules list each of their errors
      exactly when its condition holds, nothing else, and in rule order. */
  lemma {:induction false} PrefixFacts(b: seq<bool>, es: seq<ConfigError>, k: nat)
    requires |b| == 6 && |es| == 6 && k <= 6
    requires forall i :: 0 <= i < 6 ==> Rank(es[i]) == i
    ensures var l := Prefix(b, es, k);
      (forall e :: e in l ==> e in es && Rank(e) < k)
      && (forall i :: 0 <= i < k ==> (es[i] in l <==> b[i]))
      && forall i, j :: 0 <= i < j < |l| ==> Rank(l[i]) < Rank(l[j])
  {
    if k > 0 {
      PrefixFacts(b, es, k - 1);
      var l := Prefix(b, es, k - 1);
      assert Prefix(b, es, k) == l + Part(b, es, k - 1);
      forall i | 0 <= i < k ensures es[i] in Prefix(b, es, k) <==> b[i] {
        if i < k - 1 {
          assert Rank(es[i]) != Rank(es[k - 1]);
        } else {
          assert es[i] !in l;
        }
      }
    }
  }

  /** The six rules' prefix is the whole list. */
  lemma PrefixSix(b: seq<bool>, es: seq<ConfigError>)
    requires |b| == 6 && |es| == 6
    ensures Prefix(b, es, 6) == Listed(b, es)
  {
    assert Prefix(b, es, 1) == Part(b, es, 0);
    assert Prefix(b, es, 2) == Part(b, es, 0) + Part(b, es, 1);
    assert Prefix(b, es, 3) == Part(b, es, 0) + Part(b, es, 1) + Part(b, es, 2);
    assert Prefix(b, es, 4) == Part(b, es, 0) + Part(b, es, 1) + Part(b, es, 2) + Part(b, es, 3);
    assert Prefix(b, es, 5) == Part(b, es, 0) + Part(b, es, 1) + Part(b, es, 2) + Part(b, es, 3) + Part(b, es, 4);
  }

  /** Each rule contributes its own error exactly when it is violated, with the offending
      values. */
  lemma ValidationReportsEachRule(c: Config)
    requires c.sheetsPerRow != 0 && c.maxNumber >= 0 && c.numbersPerCard >= 0
    ensures SheetsNotPositive in Violations(c) <==> c.sheets <= 0
    ensures NumbersNotPositive in Violations(c) <==> c.numbersPerCard <= 0
    ensures MaximumNotPositive in Violations(c) <==> c.maxNumber <= 0
    ensures NumbersAboveMaximum(c.numbersPerCard, c.maxNumber) in Violations(c) <==> c.numbersPerCard > c.maxNumber
    ensures SheetsNotDivisible(c.sheets, c.sheetsPerRow) in Violations(c) <==> c.sheets % c.sheetsPerRow != 0
    ensures NotEnoughCombinations(Needed(c), Binomial(c.maxNumber, c.numbersPerCard)) in Violations(c)
      <==> Needed(c) > Binomial(c.maxNumber, c.numbersPerCard)
    ensures forall e :: e in Violations(c) ==> e in PossibleErrors(c)
    ensures forall i, j :: 0 <= i < j < |Violations(c)| ==> Rank(Violations(c)[i]) < Rank(Violations(c)[j])
  {
    var b := [c.sheets <= 0, c.numbersPerCard <= 0, c.maxNumber <= 0, c.numbersPerCard > c.maxNumber,
              c.sheets % c.sheetsPerRow != 0, Needed(c) > Binomial(c.maxNumber, c.numbersPerCard)];
    var es := [SheetsNotPositive, NumbersNotPositive, MaximumNotPositive,
               NumbersAboveMaximum(c.numbersPerCard, c.maxNumber), SheetsNotDivisible(c.sheets, c.sheetsPerRow),
               NotEnoughCombinations(Needed(c), Binomial(c.maxNumber, c.numbersPerCard))];
    assert Violations(c) == Prefix(b, es, 6) by {
      assert Violations(c) == Listed(b, es);
      PrefixSix(b, es);
    }
    PrefixFacts(b, es, 6);
  }

  /** The six errors the validator can report for c. */
  function PossibleErrors(c: Config): set<ConfigError>
    requires c.maxNumber >= 0 && c.numbersPerCard >= 0
  {
    {SheetsNotPositive, NumbersNotPositive, MaximumNotPositive,
     NumbersAboveMaximum(c.numbersPerCard, c.maxNumber), SheetsNotDivisible(c.sheets, c.sheetsPerRow),
     NotEnoughCombinations(Needed(c), Binomial(c.maxNumber, c.numbersPerCard))}
  }

  // ---------------------------------------------------------------------------------
  // Rejection sampling
  // ---------------------------------------------------------------------------------

  /** One result of `random.sample(range(1, m + 1), k)`: k distinct numbers of 1..m. */
  predicate IsSample(s: seq<int>, k: int, m: int)
  {
    |s| == k && NoDuplicates(s) && AllInRange(s, 1, m)
  }

  /** The cards the first n samples contribute to the set. */
  function Accepted(draws: seq<seq<int>>, n: nat): set<seq<int>>
    requires n <= |draws|
  {
    set i | 0 <= i < n :: SortAscending(draws[i])
  }

  /** What the sampling loop ends with: the collected cards and how many samples it used,
      or the samples ran out first (the source would go on sampling for ever). */
  datatype Sampling = Collected(pool: seq<seq<int>>, used: nat) | SamplesExhausted

  /** The sets the loop accumulates in: the set grows by at most one card per sample. */
  lemma AcceptedStep(draws: seq<seq<int>>, n: nat)
    requires n < |draws|
    ensures Accepted(draws, n + 1) == Accepted(draws, n) + {SortAscending(draws[n])}
    ensures |Accepted(draws, n)| <= |Accepted(draws, n + 1)| <= |Accepted(draws, n)| + 1
  {
    var a := Accepted(draws, n);
    var b := Accepted(draws, n + 1);
    var card := SortAscending(draws[n]);
    forall x | x in b ensures x in a + {card} {
      var i :| 0 <= i < n + 1 && x == SortAscending(draws[i]);
      if i < n {
        assert x in a;
      }
    }
    forall x | x in a ensures x in b {
      var i :| 0 <= i < n && x == SortAscending(draws[i]);
      assert SortAscending(draws[i]) in b;
    }
    assert card in b;
    assert b == a + {card};
    SubsetCard(a, b);
  }

  lemma SortedSample(s: seq<int>, k: int, m: int)
    requires IsSample(s, k, m)
    ensures IsCombination(SortAscending(s), k, m)
  {
    SortKeepsRange(s, 1, m);
  }

  /** generar_combinaciones: draws samples in order, sorts each, and keeps it when it is
      new, until `needed` distinct cards are held. The list keeps insertion order. */
  method GenerateCombinations(draws: seq<seq<int>>, needed: int, k: int, m: int) returns (g: Sampling)
    requires forall i :: 0 <= i < |draws| ==> IsSample(draws[i], k, m)
    ensures g.Collected? ==> |g.pool| == Max0(needed) && NoDuplicates(g.pool) && AllCombinations(g.pool, k, m)
    ensures g.Collected? ==> g.used <= |draws| && Elems(g.pool) == Accepted(draws, g.used)
    ensures g.Collected? && g.used > 0 ==> |Accepted(draws, g.used - 1)| < needed
    ensures g.SamplesExhausted? ==> |Accepted(draws, |draws|)| < needed
  {
    var pool: seq<seq<int>> := [];
    var i := 0;
    while |pool| < needed
      invariant SampledSoFar(draws, i, pool, needed, k, m)
      decreases |draws| - i
    {
      if i == |draws| {
        NoDuplicatesCard(pool);
        return SamplesExhausted;
      }
      var card := SortAscending(draws[i]);
      SampleTurn(draws, i, pool, needed, k, m);
      if card !in pool {
        pool := pool + [card];
      }
      i := i + 1;
    }
    return Collected(pool, i);
  }

  /** The sampling loop after i samples: the pool holds, without repeats, exactly the cards
      those samples gave; it never exceeds the target; and before the last sample the target
      had not been reached. */
  ghost predicate SampledSoFar(draws: seq<seq<int>>, i: nat, pool: seq<seq<int>>, needed: int, k: int, m: int)
  {
    i <= |draws| && NoDuplicates(pool) && AllCombinations(pool, k, m)
    && Elems(pool) == Accepted(draws, i) && |pool| <= Max0(needed)
    && (i > 0 ==> |Accepted(draws, i - 1)| < needed)
  }

  /** A turn of the sampling loop below the target keeps its state: the sorted sample is
      appended exactly when it is new. */
  lemma SampleTurn(draws: seq<seq<int>>, i: nat, pool: seq<seq<int>>, needed: int, k: int, m: int)
    requires i < |draws| && IsSample(draws[i], k, m)
    requires SampledSoFar(draws, i, pool, needed, k, m) && |pool| < needed
    ensures var card := SortAscending(draws[i]);
      SampledSoFar(draws, i + 1, if card in pool then pool else pool + [card], needed, k, m)
  {
    NoDuplicatesCard(pool);
    var card := SortAscending(draws[i]);
    if card in pool {
      SampleSeen(draws, i, pool);
    } else {
      SampleNew(draws, i, pool, k, m);
    }
  }

  /** One turn of the sampling loop keeps the pool equal to the accepted set: a sorted
      sample already held changes nothing ... */
  lemma SampleSeen(draws: seq<seq<int>>, i: nat, pool: seq<seq<int>>)
    requires i < |draws| && Elems(pool) == Accepted(draws, i) && SortAscending(draws[i]) in pool
    ensures Elems(pool) == Accepted(draws, i + 1)
  {
    AcceptedStep(draws, i);
  }

  /** ... and a new one is appended. */
  lemma SampleNew(draws: seq<seq<int>>, i: nat, pool: seq<seq<int>>, k: int, m: int)
    requires i < |draws| && IsSample(draws[i], k, m)
    requires NoDuplicates(pool) && AllCombinations(pool, k, m) && Elems(pool) == Accepted(draws, i)
    requires SortAscending(draws[i]) !in pool
    ensures NoDuplicates(pool + [SortAscending(draws[i])])
    ensures AllCombinations(pool + [SortAscending(draws[i])], k, m)
    ensures Elems(pool + [SortAscending(draws[i])]) == Accepted(draws, i + 1)
  {
    var card := SortAscending(draws[i]);
    SortedSample(draws[i], k, m);
    AcceptedStep(draws, i);
    ElemsAppend(pool, card);
    NoDuplicatesAppend(pool, card);
    CombinationsAppend(pool, card, k, m);
  }

  lemma CombinationsAppend(pool: seq<seq<int>>, card: seq<int>, k: int, m: int)
    requires AllCombinations(pool, k, m) && IsCombination(card, k, m)
    ensures AllCombinations(pool + [card], k, m)
  {
    var next := pool + [card];
    forall a | 0 <= a < |next| ensures IsCombination(next[a], k, m) {
      if a < |pool| {
        assert next[a] == pool[a];
      }
    }
  }

  /** No choice of samples can collect more distinct cards than C(m, k). */
  lemma AcceptedBounded(draws: seq<seq<int>>, n: nat, k: nat, m: nat)
    requires n <= |draws|
    requires forall i :: 0 <= i < |draws| ==> IsSample(draws[i], k, m)
    ensures |Accepted(draws, n)| <= Binomial(m, k)
  {
    var xs := SeqOfSet(Accepted(draws, n));
    forall i | 0 <= i < |xs| ensures IsCombination(xs[i], k, m) {
      assert xs[i] in Accepted(draws, n);
      var j :| 0 <= j < n && xs[i] == SortAscending(draws[j]);
      SortedSample(draws[j], k, m);
    }
    DistinctCombinationsBound(xs, k, m);
  }

  /** Sampling can only ever finish when needed <= C(m, k), and then some sequence of
      samples does finish: the capacity rule of the validator is exactly right. */
  lemma CompletionPossibleIffCapacity(needed: nat, k: nat, m: nat)
    ensures needed <= Binomial(m, k) <==>
      exists draws: seq<seq<int>> ::
        (forall i :: 0 <= i < |draws| ==> IsSample(draws[i], k, m)) && |Accepted(draws, |draws|)| >= needed
  {
    if needed <= Binomial(m, k) {
      var draws := EnoughCombinations(k, m, needed);
      forall i | 0 <= i < |draws| ensures IsSample(draws[i], k, m) && SortAscending(draws[i]) == draws[i] {
        SortIdentity(draws[i]);
      }
      assert Accepted(draws, |draws|) == Elems(draws);
      NoDuplicatesCard(draws);
    } else {
      forall draws: seq<seq<int>> | forall i :: 0 <= i < |draws| ==> IsSample(draws[i], k, m)
        ensures |Accepted(draws, |draws|)| < needed
      {
        AcceptedBounded(draws, |draws|, k, m);
      }
    }
  }

  // ---------------------------------------------------------------------------------
  // Simple layout
  // ---------------------------------------------------------------------------------

  /** One row of the simple layout: ID_Carton and Num_1..Num_k. */
  datatype SimpleRow = SimpleRow(id: int, numbers: seq<int>)

  datatype SimpleTable = SimpleTable(width: nat, rows: seq<SimpleRow>)

  /** pandas accepts the k column names: every card has k numbers, and an empty pool only
      fits an empty header. */
  predicate FitsColumns(pool: seq<seq<int>>, k: int)
  {
    (forall i :: 0 <= i < |pool| ==> |pool[i]| == Max0(k)) && (|pool| > 0 || k <= 0)
  }

  /** crear_dataframe_simple: one row per card, with 1-based IDs. */
  function CreateSimple(pool: seq<seq<int>>, k: int): (r: Result<SimpleTable, PyException>)
    ensures r.Success? <==> FitsColumns(pool, k)
    ensures r.Failure? ==> r.error == ValueError
    ensures r.Success? ==> r.value.width == Max0(k) && |r.value.rows| == |pool|
    ensures r.Success? ==> forall i :: 0 <= i < |pool| ==> r.value.rows[i].id == i + 1
  {
    if FitsColumns(pool, k) then
      Success(SimpleTable(Max0(k), seq(|pool|, i requires 0 <= i < |pool| => SimpleRow(i + 1, pool[i]))))
    else Failure(ValueError)
  }

  /** The card a simple table holds under a given ID. */
  ghost function CardWithId(t: SimpleTable, id: int): Option<seq<int>>
  {
    if exists i :: 0 <= i < |t.rows| && t.rows[i].id == id then
      var i :| 0 <= i < |t.rows| && t.rows[i].id == id;
      Some(t.rows[i].numbers)
    else None
  }

  /** Reading the simple layout back: ID i + 1 holds pool[i], and no other ID is used. */
  lemma SimpleRoundTrip(pool: seq<seq<int>>, k: int, id: int)
    requires FitsColumns(pool, k)
    ensures CardWithId(CreateSimple(pool, k).value, id) ==
      if 1 <= id <= |pool| then Some(pool[id - 1]) else None
  {
    var t := CreateSimple(pool, k).value;
    if 1 <= id <= |pool| {
      assert t.rows[id - 1].id == id;
    }
  }

  // ---------------------------------------------------------------------------------
  // Paired ("Corel") layout
  // ---------------------------------------------------------------------------------

  /** One printed row: the left sheet's number and cards A, B, C, then the right sheet's
      number and cards D, E, F, each card's numbers in order. A sheet number is written
      as SheetIdText (four digits, zero padded). */
  datatype CorelRow = CorelRow(leftSheet: int, left: seq<int>, rightSheet: int, right: seq<int>)

  /** The row's cells as read back from the file: the zero-padded sheet numbers parse to
      integers and the card numbers are integers already. */
  function ReadBack(row: CorelRow): seq<int>
  {
    SheetIdRoundTrip(row.leftSheet);
    SheetIdRoundTrip(row.rightSheet);
    [ParseInteger(SheetIdText(row.leftSheet))] + row.left + [ParseInteger(SheetIdText(row.rightSheet))] + row.right
  }

  /** Writing a row and reading it back gives its numbers unchanged. */
  lemma ReadBackExact(row: CorelRow)
    ensures ReadBack(row) == [row.leftSheet] + row.left + [row.rightSheet] + row.right
  {
    SheetIdRoundTrip(row.leftSheet);
    SheetIdRoundTrip(row.rightSheet);
  }

  /** The numbers of a run of cards, card after card. */
  function Flatten(cards: seq<seq<int>>): seq<int>
  {
    if cards == [] then [] else Flatten(cards[..|cards| - 1]) + cards[|cards| - 1]
  }

  /** Pool index of card i of the left or the right sheet of row j. */
  function CardIndex(rows: int, cps: int, j: int, right: bool, i: int): int
  {
    (if right then rows + j else j) * cps + i
  }

  /** Every index the row loops read lies inside the pool. */
  predicate IndicesInRange(size: int, rows: int, cps: int)
  {
    rows <= 0 || cps <= 0 || 2 * rows * cps <= size
  }

  lemma MulMono(a: int, b: int, c: nat)
    requires a <= b
    ensures a * c <= b * c
  {
  }

  /** Cards base .. base + count - 1 of the pool, or none when that run leaves the pool. */
  function CardRun(pool: seq<seq<int>>, base: int, count: nat): seq<seq<int>>
  {
    if 0 <= base && base + count <= |pool| then pool[base..base + count] else []
  }

  /** Row j of the paired layout, in closed form. */
  function CorelRowAt(pool: seq<seq<int>>, rows: int, rightStart: int, cps: nat, j: int): CorelRow
  {
    CorelRow(j + 1, Flatten(CardRun(pool, CardIndex(rows, cps, j, false, 0), cps)),
      rightStart + j, Flatten(CardRun(pool, CardIndex(rows, cps, j, true, 0), cps)))
  }

  /** Width of the header: two number columns and k columns for each of six cards. */
  function HeaderWidth(k: int): nat
  {
    2 + 6 * Max0(k)
  }

  predicate MatchesHeader(layout: seq<CorelRow>, k: int)
  {
    forall j :: 0 <= j < |layout| ==> 2 + |layout[j].left| + |layout[j].right| == HeaderWidth(k)
  }

  lemma RowsInRange(rows: int, cps: nat, size: int, j: int)
    requires 0 <= j < rows && 2 * rows * cps <= size
    ensures (rows + j + 1) * cps <= size
  {
    MulMono(rows + j + 1, 2 * rows, cps);
  }

  /** The paired layout crear_dataframe_corel builds, or the exception it raises. */
  function CorelLayout(pool: seq<seq<int>>, c: Config): Result<seq<CorelRow>, PyException>
  {
    if c.sheetsPerRow == 0 then Failure(ZeroDivisionError)
    else
      var rows := CorelRows(c);
      var cps := Max0(c.cardsPerSheet);
      if !IndicesInRange(|pool|, rows, cps) then Failure(IndexError)
      else
        var layout := seq(Max0(rows), j => CorelRowAt(pool, rows, RightStart(c), cps, j));
        if MatchesHeader(layout, c.numbersPerCard) then Success(layout) else Failure(ValueError)
  }

  lemma FlattenSnoc(pool: seq<seq<int>>, base: int, i: int)
    requires 0 <= base && 0 <= i && base + i < |pool|
    ensures Flatten(pool[base..base + i + 1]) == Flatten(pool[base..base + i]) + pool[base + i]
  {
    assert pool[base..base + i + 1][..i] == pool[base..base + i];
  }

  /** The inner `extend` loop: the numbers of cards base .. base + count - 1, or false when
      one of those indices is past the end of the pool (IndexError). */
  method ReadCards(pool: seq<seq<int>>, base: nat, count: int) returns (cells: seq<int>, ok: bool)
    ensures ok <==> count <= 0 || base + count <= |pool|
    ensures ok ==> cells == Flatten(CardRun(pool, base, Max0(count)))
  {
    cells := [];
    if count <= 0 {
      assert CardRun(pool, base, Max0(count)) == [];
      return cells, true;
    }
    if base >= |pool| {
      return cells, false;
    }
    var i := 0;
    while i < count
      invariant 0 <= i <= count
      invariant base + i <= |pool|
      invariant cells == Flatten(pool[base..base + i])
    {
      if base + i >= |pool| {
        return cells, false;
      }
      FlattenSnoc(pool, base, i);
      cells := cells + pool[base + i];
      i := i + 1;
    }
    return cells, true;
  }

  /** Row j's reads stay inside the pool whenever all of the layout's reads do; the left
      read ends no later than the right one. */
  lemma RowReads(rows: int, cps: nat, size: int, j: int)
    requires 0 <= j < rows && 0 <= size
    ensures j * cps + cps <= (rows + j) * cps + cps
    ensures IndicesInRange(size, rows, cps) ==> (rows + j) * cps + cps <= size
    ensures (rows + j) * cps + cps == (rows + j + 1) * cps
  {
    MulMono(j, rows + j, cps);
    if IndicesInRange(size, rows, cps) && cps > 0 {
      RowsInRange(rows, cps, size, j);
    }
  }

  lemma RowOverrun(rows: int, cps: nat, size: int, j: int)
    requires 0 <= j < rows && 0 <= size && (rows + j + 1) * cps > size
    ensures !IndicesInRange(size, rows, cps)
  {
    RowReads(rows, cps, size, j);
  }

  lemma AllRowsFit(rows: int, cps: nat, size: int)
    requires rows > 0 ==> (rows + rows) * cps <= size
    ensures IndicesInRange(size, rows, cps)
  {
    if rows > 0 {
      assert (rows + rows) * cps == 2 * rows * cps;
    }
  }

  /** A sequence of rows that agrees with CorelRowAt everywhere is the layout, provided the
      header accepts it. */
  lemma CorelLayoutFrom(pool: seq<seq<int>>, c: Config, layout: seq<CorelRow>)
    requires c.sheetsPerRow != 0
    requires IndicesInRange(|pool|, CorelRows(c), Max0(c.cardsPerSheet))
    requires |layout| == Max0(CorelRows(c))
    requires forall j :: 0 <= j < |layout| ==>
      layout[j] == CorelRowAt(pool, CorelRows(c), RightStart(c), Max0(c.cardsPerSheet), j)
    ensures CorelLayout(pool, c) == if MatchesHeader(layout, c.numbersPerCard) then Success(layout) else Failure(ValueError)
  {
    var rows := CorelRows(c);
    var cps := Max0(c.cardsPerSheet);
    var expected := seq(Max0(rows), j => CorelRowAt(pool, rows, RightStart(c), cps, j));
    assert expected == layout;
  }

  /** The body of the row loop: the left sheet's number and cards, then the right sheet's,
      or false when a read runs past the end of the pool. */
  method BuildRow(pool: seq<seq<int>>, rows: int, count: int, fila: int, idCarton1: int, idCarton2: int,
      ghost rightStart: int)
      returns (row: CorelRow, ok: bool)
    requires 0 <= fila < rows && idCarton1 == fila + 1 && idCarton2 == rightStart + fila
    ensures ok <==> (rows + fila + 1) * Max0(count) <= |pool|
    ensures ok ==> row == CorelRowAt(pool, rows, rightStart, Max0(count), fila)
  {
    var cps := Max0(count);
    RowReads(rows, cps, |pool|, fila);
    row := CorelRow(0, [], 0, []);
    var left, okLeft := ReadCards(pool, fila * cps, count);
    if !okLeft {
      return row, false;
    }
    var right, okRight := ReadCards(pool, (rows + fila) * cps, count);
    if !okRight {
      return row, false;
    }
    row := CorelRow(idCarton1, left, idCarton2, right);
    return row, true;
  }

  /** The row loop of crear_dataframe_corel with its two sheet counters: all rows, or
      false when some read runs past the end of the pool. */
  method BuildRows(pool: seq<seq<int>>, rows: int, rightStart: int, count: int)
      returns (layout: seq<CorelRow>, ok: bool)
    ensures ok <==> IndicesInRange(|pool|, rows, Max0(count))
    ensures ok ==> |layout| == Max0(rows) && forall j :: 0 <= j < |layout| ==>
      layout[j] == CorelRowAt(pool, rows, rightStart, Max0(count), j)
  {
    var cps := Max0(count);
    layout := [];
    var idCarton1 := 1;
    var idCarton2 := rightStart;
    var fila := 0;
    while fila < rows
      invariant 0 <= fila <= Max0(rows)
      invariant idCarton1 == fila + 1 && idCarton2 == rightStart + fila
      invariant fila > 0 ==> (rows + fila) * cps <= |pool|
      invariant |layout| == fila && RowsSoFar(layout, pool, rows, rightStart, cps)
    {
      var row, rowOk := BuildRow(pool, rows, count, fila, idCarton1, idCarton2, rightStart);
      if !rowOk {
        RowOverrun(rows, cps, |pool|, fila);
        return layout, false;
      }
      RowsSoFarAppend(layout, pool, rows, rightStart, cps);
      layout := layout + [row];
      idCarton1 := idCarton1 + 1;
      idCarton2 := idCarton2 + 1;
      fila := fila + 1;
    }
    AllRowsFit(rows, cps, |pool|);
    return layout, true;
  }

  /** Each row built so far is the layout's row at its position. */
  predicate RowsSoFar(layout: seq<CorelRow>, pool: seq<seq<int>>, rows: int, rightStart: int, cps: nat)
  {
    forall j {:trigger layout[j]} :: 0 <= j < |layout| ==> layout[j] == CorelRowAt(pool, rows, rightStart, cps, j)
  }

  lemma RowsSoFarAppend(layout: seq<CorelRow>, pool: seq<seq<int>>, rows: int, rightStart: int, cps: nat)
    requires RowsSoFar(layout, pool, rows, rightStart, cps)
    ensures RowsSoFar(layout + [CorelRowAt(pool, rows, rightStart, cps, |layout|)], pool, rows, rightStart, cps)
  {
    var next := layout + [CorelRowAt(pool, rows, rightStart, cps, |layout|)];
    forall j | 0 <= j < |next| ensures next[j] == CorelRowAt(pool, rows, rightStart, cps, j) {
      if j < |layout| {
        assert next[j] == layout[j];
      }
    }
  }

  /** crear_dataframe_corel: the zero-padded sheet numbers and the cards of both halves of
      the pool, then the header; the result is exactly CorelLayout. */
  method CreateCorel(pool: seq<seq<int>>, c: Config) returns (r: Result<seq<CorelRow>, PyException>)
    ensures r == CorelLayout(pool, c)
  {
    if c.sheetsPerRow == 0 {
      return Failure(ZeroDivisionError);
    }
    var rows := FloorDiv(c.sheets, c.sheetsPerRow);
    var rightStart := FloorDiv(c.sheets, 2) + 1;
    var layout, ok := BuildRows(pool, rows, rightStart, c.cardsPerSheet);
    if !ok {
      return Failure(IndexError);
    }
    CorelLayoutFrom(pool, c, layout);
    if !MatchesHeader(layout, c.numbersPerCard) {
      return Failure(ValueError);
    }
    return Success(layout);
  }

  /** A successful paired layout has one row per pair, each given by CorelRowAt. */
  lemma CorelLayoutShape(pool: seq<seq<int>>, c: Config)
    requires CorelLayout(pool, c).Success?
    ensures c.sheetsPerRow != 0
    ensures IndicesInRange(|pool|, CorelRows(c), Max0(c.cardsPerSheet))
    ensures |CorelLayout(pool, c).value| == Max0(CorelRows(c))
    ensures forall j :: 0 <= j < |CorelLayout(pool, c).value| ==>
      CorelLayout(pool, c).value[j] == CorelRowAt(pool, CorelRows(c), RightStart(c), Max0(c.cardsPerSheet), j)
  {
  }

  /** Both card runs of row j lie inside the pool when all of the layout's reads do. */
  lemma RowRunsInside(pool: seq<seq<int>>, rows: int, rightStart: int, cps: nat, j: int)
    requires 0 <= j < rows && IndicesInRange(|pool|, rows, cps)
    ensures var l := CardIndex(rows, cps, j, false, 0);
      var r := CardIndex(rows, cps, j, true, 0);
      0 <= l <= l + cps <= |pool| && 0 <= r <= r + cps <= |pool|
      && CorelRowAt(pool, rows, rightStart, cps, j).left == Flatten(pool[l..l + cps])
      && CorelRowAt(pool, rows, rightStart, cps, j).right == Flatten(pool[r..r + cps])
  {
    RowReads(rows, cps, |pool|, j);
    var l := CardIndex(rows, cps, j, false, 0);
    var r := CardIndex(rows, cps, j, true, 0);
    MulMono(0, j, cps);
    assert 0 <= l <= r;
    assert CardRun(pool, l, cps) == pool[l..l + cps];
    assert CardRun(pool, r, cps) == pool[r..r + cps];
  }

  /** Row j carries sheet numbers j + 1 and sheets // 2 + 1 + j (as read back from the
      zero-padded text), and the flattened cards c*j .. c*j + c - 1 and
      c*(rows + j) .. c*(rows + j) + c - 1 of the pool. */
  lemma CorelRowContents(pool: seq<seq<int>>, c: Config, j: int)
    requires CorelLayout(pool, c).Success?
    requires 0 <= j < |CorelLayout(pool, c).value|
    ensures c.sheetsPerRow != 0 && |CorelLayout(pool, c).value| == Max0(CorelRows(c))
    ensures var row := CorelLayout(pool, c).value[j];
      row.leftSheet == j + 1 && row.rightSheet == RightStart(c) + j
    ensures var row := CorelLayout(pool, c).value[j];
      var cps := Max0(c.cardsPerSheet);
      var l := CardIndex(CorelRows(c), cps, j, false, 0);
      var r := CardIndex(CorelRows(c), cps, j, true, 0);
      0 <= l <= l + cps <= |pool| && 0 <= r <= r + cps <= |pool|
      && row.left == Flatten(pool[l..l + cps]) && row.right == Flatten(pool[r..r + cps])
  {
    CorelLayoutShape(pool, c);
    RowRunsInside(pool, CorelRows(c), RightStart(c), Max0(c.cardsPerSheet), j);
  }

  /** Splitting a pool index of the two halves into (row, side, position). */
  lemma SplitIndex(rows: int, cps: int, p: int) returns (j: int, right: bool, i: int)
    requires rows > 0 && cps > 0 && 0 <= p < 2 * rows * cps
    ensures 0 <= j < rows && 0 <= i < cps && CardIndex(rows, cps, j, right, i) == p
  {
    var q := p / cps;
    i := p % cps;
    assert p == q * cps + i;
    assert q < 2 * rows by {
      if q >= 2 * rows {
        MulMono(2 * rows, q, cps);
      }
    }
    if q < rows {
      j, right := q, false;
    } else {
      j, right := q - rows, true;
    }
  }

  /** No pool index is read twice by the layout. */
  lemma IndexUnique(rows: int, cps: int, j1: int, r1: bool, i1: int, j2: int, r2: bool, i2: int)
    requires 0 <= j1 < rows && 0 <= i1 < cps && 0 <= j2 < rows && 0 <= i2 < cps
    requires CardIndex(rows, cps, j1, r1, i1) == CardIndex(rows, cps, j2, r2, i2)
    ensures j1 == j2 && r1 == r2 && i1 == i2
  {
    var a1 := if r1 then rows + j1 else j1;
    var a2 := if r2 then rows + j2 else j2;
    DivModUnique(a1, i1, a2, i2, cps);
  }

  /** With two sheets per row, the layout reads every card of the pool exactly once: each
      pool index is the index of exactly one (row, side, position). */
  lemma TwoPerRowUsesEachCardOnce(c: Config, p: int)
    requires c.sheetsPerRow == 2 && c.sheets > 0 && c.sheets % 2 == 0 && c.cardsPerSheet > 0
    requires 0 <= p < Needed(c)
    ensures exists j, right, i :: (0 <= j < CorelRows(c) && 0 <= i < c.cardsPerSheet
      && CardIndex(CorelRows(c), c.cardsPerSheet, j, right, i) == p)
    ensures forall j1, r1, i1, j2, r2, i2 ::
      0 <= j1 < CorelRows(c) && 0 <= i1 < c.cardsPerSheet
      && 0 <= j2 < CorelRows(c) && 0 <= i2 < c.cardsPerSheet
      && CardIndex(CorelRows(c), c.cardsPerSheet, j1, r1, i1) == p
      && CardIndex(CorelRows(c), c.cardsPerSheet, j2, r2, i2) == p
      ==> j1 == j2 && r1 == r2 && i1 == i2
  {
    var rows := CorelRows(c);
    var cps := c.cardsPerSheet;
    assert 2 * rows == c.sheets;
    assert Needed(c) == 2 * rows * cps;
    var j, right, i := SplitIndex(rows, cps, p);
    forall j1, r1, i1, j2, r2, i2 |
      0 <= j1 < rows && 0 <= i1 < cps && 0 <= j2 < rows && 0 <= i2 < cps
      && CardIndex(rows, cps, j1, r1, i1) == p && CardIndex(rows, cps, j2, r2, i2) == p
      ensures j1 == j2 && r1 == r2 && i1 == i2
    {
      IndexUnique(rows, cps, j1, r1, i1, j2, r2, i2);
    }
  }

  lemma DivModUnique(a1: int, i1: int, a2: int, i2: int, m: int)
    requires 0 <= a1 && 0 <= a2 && 0 <= i1 < m && 0 <= i2 < m
    requires a1 * m + i1 == a2 * m + i2
    ensures a1 == a2 && i1 == i2
  {
    if a1 < a2 {
      MulMono(a1 + 1, a2, m);
    } else if a2 < a1 {
      MulMono(a2 + 1, a1, m);
    }
  }

  /** One sheet per row passes validation, but the right half then starts past the end of
      the pool, so building the layout raises IndexError. */
  lemma OnePerRowOverrunsPool(pool: seq<seq<int>>, c: Config)
    requires c.sheetsPerRow == 1 && c.sheets > 0 && c.cardsPerSheet > 0 && |pool| == Needed(c)
    ensures CorelLayout(pool, c) == Failure(IndexError)
  {
    assert CorelRows(c) == c.sheets;
    DoubleExceeds(c.sheets, c.cardsPerSheet);
    assert !IndicesInRange(|pool|, CorelRows(c), Max0(c.cardsPerSheet));
  }

  lemma DoubleExceeds(s: int, cps: int)
    requires s > 0 && cps > 0
    ensures 2 * s * cps > s * cps
  {
    MulMono(1, s, cps);
  }

  /** The header is made for three cards per sheet: any other positive count passes
      validation but makes every row wider or narrower than the header. */
  lemma OtherCardCountsMismatchHeader(pool: seq<seq<int>>, c: Config)
    requires ValidConfig(c) && c.sheetsPerRow >= 2 && c.cardsPerSheet > 0 && c.cardsPerSheet != 3
    requires |pool| == Needed(c) && forall i :: 0 <= i < |pool| ==> |pool[i]| == c.numbersPerCard
    ensures CorelLayout(pool, c) == Failure(ValueError)
  {
    var rows := CorelRows(c);
    RowsPositive(c);
    PairedRowsFit(c);
    FirstRowMismatch(pool, c);
    var layout := seq(Max0(rows), j => CorelRowAt(pool, rows, RightStart(c), c.cardsPerSheet, j));
    assert layout[0] == CorelRowAt(pool, rows, RightStart(c), c.cardsPerSheet, 0);
  }

  /** With a card count other than three the first paired row is not as wide as the header. */
  lemma FirstRowMismatch(pool: seq<seq<int>>, c: Config)
    requires ValidConfig(c) && c.sheetsPerRow >= 2 && c.cardsPerSheet > 0 && c.cardsPerSheet != 3
    requires |pool| == Needed(c) && forall i :: 0 <= i < |pool| ==> |pool[i]| == c.numbersPerCard
    requires CorelRows(c) > 0 && IndicesInRange(|pool|, CorelRows(c), c.cardsPerSheet)
    ensures var row := CorelRowAt(pool, CorelRows(c), RightStart(c), c.cardsPerSheet, 0);
      2 + |row.left| + |row.right| != HeaderWidth(c.numbersPerCard)
  {
    var rows := CorelRows(c);
    var cps := c.cardsPerSheet;
    var k := c.numbersPerCard;
    var row := CorelRowAt(pool, rows, RightStart(c), cps, 0);
    RowRunsInside(pool, rows, RightStart(c), cps, 0);
    var l := CardIndex(rows, cps, 0, false, 0);
    var r := CardIndex(rows, cps, 0, true, 0);
    FlattenLength(pool[l..l + cps], k);
    FlattenLength(pool[r..r + cps], k);
    WidthMismatch(cps, k);
  }

  lemma WidthMismatch(cps: int, k: int)
    requires cps > 0 && cps != 3 && k > 0
    ensures 2 + cps * k + cps * k != HeaderWidth(k)
  {
    if cps < 3 {
      MulMono(cps, 2, k);
    } else {
      MulMono(4, cps, k);
    }
  }

  lemma {:induction false} FlattenLength(cards: seq<seq<int>>, k: int)
    requires forall i :: 0 <= i < |cards| ==> |cards[i]| == k
    ensures |Flatten(cards)| == |cards| * k
  {
    if cards != [] {
      var init := cards[..|cards| - 1];
      FlattenLength(init, k);
      assert |Flatten(cards)| == |init| * k + k;
      assert |init| * k + k == (|init| + 1) * k;
    }
  }

  /** A valid configuration has at least one paired row when sheetsPerRow >= 2 ... */
  lemma RowsPositive(c: Config)
    requires ValidConfig(c) && c.sheetsPerRow >= 2
    ensures 1 <= CorelRows(c) && c.sheetsPerRow * CorelRows(c) == c.sheets
  {
  }

  /** ... and both halves of its paired layout fit in a pool of the needed size. */
  lemma PairedRowsFit(c: Config)
    requires ValidConfig(c) && c.sheetsPerRow >= 2 && c.cardsPerSheet > 0
    ensures 2 * CorelRows(c) * c.cardsPerSheet <= Needed(c)
  {
    RowsPositive(c);
    MulMono(2, c.sheetsPerRow, CorelRows(c));
    MulMono(2 * CorelRows(c), c.sheets, c.cardsPerSheet);
  }

  /** With three cards per sheet and at least two sheets per row, a pool of the needed size
      with k numbers per card always yields the paired layout, with one row per pair. */
  lemma ThreePerSheetLayoutSucceeds(pool: seq<seq<int>>, c: Config)
    requires ValidConfig(c) && c.sheetsPerRow >= 2 && c.cardsPerSheet == 3
    requires |pool| == Needed(c) && forall i :: 0 <= i < |pool| ==> |pool[i]| == c.numbersPerCard
    ensures CorelLayout(pool, c).Success? && |CorelLayout(pool, c).value| == CorelRows(c)
  {
    var rows := CorelRows(c);
    var k := c.numbersPerCard;
    RowsPositive(c);
    PairedRowsFit(c);
    assert IndicesInRange(|pool|, rows, 3);
    var layout := seq(Max0(rows), j => CorelRowAt(pool, rows, RightStart(c), 3, j));
    forall j | 0 <= j < rows
      ensures 2 + |layout[j].left| + |layout[j].right| == HeaderWidth(k)
    {
      ThreeCardRowWidth(pool, rows, RightStart(c), j, k);
    }
    assert MatchesHeader(layout, k);
  }

  /** A row of three k-number cards per sheet is as wide as the header. */
  lemma ThreeCardRowWidth(pool: seq<seq<int>>, rows: int, rightStart: int, j: int, k: int)
    requires 0 <= j < rows && IndicesInRange(|pool|, rows, 3) && k >= 0
    requires forall i :: 0 <= i < |pool| ==> |pool[i]| == k
    ensures 2 + |CorelRowAt(pool, rows, rightStart, 3, j).left|
      + |CorelRowAt(pool, rows, rightStart, 3, j).right| == HeaderWidth(k)
  {
    RowRunsInside(pool, rows, rightStart, 3, j);
    var l := CardIndex(rows, 3, j, false, 0);
    var r := CardIndex(rows, 3, j, true, 0);
    FlattenLength(pool[l..l + 3], k);
    FlattenLength(pool[r..r + 3], k);
  }

  // ---------------------------------------------------------------------------------
  // Audit
  // ---------------------------------------------------------------------------------

  datatype CheckName =
    | CombinationCount | NumbersPerCard | UniqueCombinations
    | NumberRange | NoInternalRepeats | CorelRowCount

  /** The order in which the audit reports its checks. */
  const AuditOrder: seq<CheckName> :=
    [CombinationCount, NumbersPerCard, UniqueCombinations, NumberRange, NoInternalRepeats, CorelRowCount]

  datatype Check = Check(name: CheckName, ok: bool)

  datatype AuditReport = AuditReport(allOk: bool, checks: seq<Check>)

  /** The cards of a simple table, in row order. */
  function TableCards(t: SimpleTable): seq<seq<int>>
  {
    seq(|t.rows|, i requires 0 <= i < |t.rows| => t.rows[i].numbers)
  }

  /** What each check demands of the simple table and the number of paired rows. The range
      check needs at least one cell, since the minimum of an empty table is NaN. */
  predicate CheckPasses(name: CheckName, t: SimpleTable, corelRows: int, c: Config)
    requires c.sheetsPerRow != 0
  {
    match name
    case CombinationCount => |t.rows| == Needed(c)
    case NumbersPerCard => t.width == c.numbersPerCard
    case UniqueCombinations => NoDuplicates(TableCards(t))
    case NumberRange =>
      |t.rows| > 0 && t.width > 0 && forall i :: 0 <= i < |t.rows| ==> AllInRange(t.rows[i].numbers, 1, c.maxNumber)
    case NoInternalRepeats => forall i :: 0 <= i < |t.rows| ==> NoDuplicates(t.rows[i].numbers)
    case CorelRowCount => corelRows == CorelRows(c)
  }

  /** Two rows of the table are equal exactly when two cards of TableCards are. */
  lemma UniqueRows(t: SimpleTable)
    ensures (forall i, j :: 0 <= i < j < |t.rows| ==> t.rows[i].numbers != t.rows[j].numbers)
      <==> NoDuplicates(TableCards(t))
  {
    assert |TableCards(t)| == |t.rows|;
    assert forall i :: 0 <= i < |t.rows| ==> TableCards(t)[i] == t.rows[i].numbers;
  }

  /** The checks the audit reports, each with its verdict. */
  function AuditChecks(t: SimpleTable, corelRows: int, c: Config): seq<Check>
    requires c.sheetsPerRow != 0
  {
    seq(|AuditOrder|, i requires 0 <= i < |AuditOrder| => Check(AuditOrder[i], CheckPasses(AuditOrder[i], t, corelRows, c)))
  }

  /** ejecutar_auditoria: the six checks in their fixed order, and whether all passed. The
      number of paired rows is computed first, which raises for zero sheets per row. */
  method Audit(t: SimpleTable, corel: seq<CorelRow>, c: Config) returns (r: Result<AuditReport, PyException>)
    ensures r.Failure? <==> c.sheetsPerRow == 0
    ensures r.Failure? ==> r.error == ZeroDivisionError
    ensures r.Success? ==> r.value.checks == AuditChecks(t, |corel|, c)
    ensures r.Success? ==> (r.value.allOk <==>
      forall i :: 0 <= i < |AuditOrder| ==> CheckPasses(AuditOrder[i], t, |corel|, c))
    ensures r.Success? ==> (r.value.allOk <==> forall i :: 0 <= i < |r.value.checks| ==> r.value.checks[i].ok)
  {
    if c.sheetsPerRow == 0 {
      return Failure(ZeroDivisionError);
    }
    var checks := RunChecks(t, corel, c);
    var allOk := AllPassed(checks);
    assert |checks| == |AuditOrder|;
    assert forall i :: 0 <= i < |checks| ==> checks[i].ok == CheckPasses(AuditOrder[i], t, |corel|, c);
    return Success(AuditReport(allOk, checks));
  }

  /** The six verdicts, computed one by one and listed in report order. */
  method RunChecks(t: SimpleTable, corel: seq<CorelRow>, c: Config) returns (checks: seq<Check>)
    requires c.sheetsPerRow != 0
    ensures checks == AuditChecks(t, |corel|, c)
  {
    var needed := c.sheets * c.cardsPerSheet;
    var rows := FloorDiv(c.sheets, c.sheetsPerRow);
    var countOk := |t.rows| == needed;
    var widthOk := t.width == c.numbersPerCard;
    var unique := forall i, j :: 0 <= i < j < |t.rows| ==> t.rows[i].numbers != t.rows[j].numbers;
    UniqueRows(t);
    var inRange := |t.rows| > 0 && t.width > 0
      && forall i :: 0 <= i < |t.rows| ==> AllInRange(t.rows[i].numbers, 1, c.maxNumber);
    var noRepeats := forall i :: 0 <= i < |t.rows| ==> NoDuplicates(t.rows[i].numbers);
    var rowsOk := |corel| == rows;
    checks := [Check(CombinationCount, countOk), Check(NumbersPerCard, widthOk),
      Check(UniqueCombinations, unique), Check(NumberRange, inRange),
      Check(NoInternalRepeats, noRepeats), Check(CorelRowCount, rowsOk)];
  }

  /** `all(...)` over the verdicts. */
  method AllPassed(checks: seq<Check>) returns (allOk: bool)
    ensures allOk <==> forall i :: 0 <= i < |checks| ==> checks[i].ok
  {
    allOk := true;
    var k := 0;
    while k < |checks|
      invariant 0 <= k <= |checks|
      invariant allOk <==> forall i :: 0 <= i < k ==> checks[i].ok
    {
      allOk := allOk && checks[k].ok;
      k := k + 1;
    }
  }

  /** A valid configuration fed the generator's own output passes all six checks, provided
      the paired layout is the one the header describes (two or more sheets per row and
      three cards per sheet). */
  lemma GeneratedOutputPassesAudit(pool: seq<seq<int>>, c: Config)
    requires ValidConfig(c) && c.sheetsPerRow >= 2 && c.cardsPerSheet == 3
    requires |pool| == Needed(c) && NoDuplicates(pool) && AllCombinations(pool, c.numbersPerCard, c.maxNumber)
    ensures CreateSimple(pool, c.numbersPerCard).Success? && CorelLayout(pool, c).Success?
    ensures forall i :: 0 <= i < |AuditOrder| ==>
      CheckPasses(AuditOrder[i], CreateSimple(pool, c.numbersPerCard).value, |CorelLayout(pool, c).value|, c)
  {
    RowsPositive(c);
    MulMono(1, c.sheets, 3);
    ThreePerSheetLayoutSucceeds(pool, c);
    var t := CreateSimple(pool, c.numbersPerCard).value;
    assert TableCards(t) == pool;
    assert t.rows[0].numbers == pool[0];
    forall i | 0 <= i < |t.rows| ensures NoDuplicates(t.rows[i].numbers) {
      assert t.rows[i].numbers == pool[i];
      assert StrictlyIncreasing(pool[i]);
    }
  }

  // ---------------------------------------------------------------------------------
  // Numbering summary
  // ---------------------------------------------------------------------------------

  /** The counts and sheet-number ranges generar_metadatos reports: the cards generated,
      left sheets 1..rows and right sheets sheets // 2 + 1 .. sheets. */
  datatype Numbering = Numbering(combinations: int, leftFirst: int, leftLast: int, rightFirst: int, rightLast: int)

  function SheetNumbering(c: Config): Numbering
    requires c.sheetsPerRow != 0
  {
    Numbering(Needed(c), 1, CorelRows(c), RightStart(c), c.sheets)
  }

  /** The ranges in the summary are the sheet numbers of the layout: the left sheets run
      from leftFirst to leftLast, the right ones start at rightFirst. With two sheets per
      row and an even sheet count the right ones end at rightLast and the two ranges
      together number 1..sheets with no gap and no overlap. */
  lemma NumberingMatchesLayout(pool: seq<seq<int>>, c: Config)
    requires CorelLayout(pool, c).Success? && |CorelLayout(pool, c).value| > 0
    ensures c.sheetsPerRow != 0
    ensures var layout := CorelLayout(pool, c).value;
      var n := SheetNumbering(c);
      layout[0].leftSheet == n.leftFirst
      && layout[|layout| - 1].leftSheet == n.leftLast
      && layout[0].rightSheet == n.rightFirst
    ensures var layout := CorelLayout(pool, c).value;
      var n := SheetNumbering(c);
      c.sheetsPerRow == 2 && c.sheets % 2 == 0 ==>
        layout[|layout| - 1].rightSheet == n.rightLast && n.leftLast + 1 == n.rightFirst
  {
    var layout := CorelLayout(pool, c).value;
    CorelRowContents(pool, c, 0);
    CorelRowContents(pool, c, |layout| - 1);
  }

  // ---------------------------------------------------------------------------------
  // The pipeline
  // ---------------------------------------------------------------------------------

  datatype Outcome =
    | Rejected(errors: seq<ConfigError>)
    | Crashed(exception: PyException)
    | Incomplete
    | Completed(pool: seq<seq<int>>, simple: SimpleTable, corel: seq<CorelRow>, report: AuditReport)

  /** The second half of generar_bingos: both layouts of a collected pool, then the audit. */
  method LayOutAndAudit(pool: seq<seq<int>>, c: Config) returns (o: Outcome)
    requires ValidConfig(c) && |pool| == Max0(Needed(c)) && NoDuplicates(pool)
    requires AllCombinations(pool, c.numbersPerCard, c.maxNumber)
    ensures o.Crashed? || o.Completed?
    ensures o.Completed? ==> (o.pool == pool
      && CreateSimple(pool, c.numbersPerCard) == Success(o.simple)
      && CorelLayout(pool, c) == Success(o.corel)
      && (o.report.allOk <==> forall i :: 0 <= i < |AuditOrder| ==> CheckPasses(AuditOrder[i], o.simple, |o.corel|, c)))
    ensures c.sheetsPerRow >= 2 && c.cardsPerSheet == 3 ==> o.Completed? && o.report.allOk
  {
    if c.sheetsPerRow >= 2 && c.cardsPerSheet == 3 {
      MulMono(1, c.sheets, 3);
      GeneratedOutputPassesAudit(pool, c);
    }
    var simple := CreateSimple(pool, c.numbersPerCard);
    if simple.Failure? {
      return Crashed(simple.error);
    }
    var corel := CreateCorel(pool, c);
    if corel.Failure? {
      return Crashed(corel.error);
    }
    var audit := Audit(simple.value, corel.value, c);
    return Completed(pool, simple.value, corel.value, audit.value);
  }

  /** generar_bingos without the files: validate, sample, lay out both ways, audit. */
  method GenerateBingos(c: Config, draws: seq<seq<int>>) returns (o: Outcome)
    requires forall i :: 0 <= i < |draws| ==> IsSample(draws[i], c.numbersPerCard, c.maxNumber)
    ensures o.Rejected? ==> o.errors != [] && !ValidConfig(c)
    ensures ValidConfig(c) ==> !o.Rejected?
    ensures o.Incomplete? ==> |Accepted(draws, |draws|)| < Needed(c)
    ensures o.Completed? ==> (ValidConfig(c) && |o.pool| == Max0(Needed(c)) && NoDuplicates(o.pool)
      && AllCombinations(o.pool, c.numbersPerCard, c.maxNumber))
    ensures o.Completed? ==> (CreateSimple(o.pool, c.numbersPerCard) == Success(o.simple)
      && CorelLayout(o.pool, c) == Success(o.corel)
      && (o.report.allOk <==> forall i :: 0 <= i < |AuditOrder| ==> CheckPasses(AuditOrder[i], o.simple, |o.corel|, c)))
    ensures (ValidConfig(c) && c.sheetsPerRow >= 2 && c.cardsPerSheet == 3
      && |Accepted(draws, |draws|)| >= Needed(c)) ==> o.Completed? && o.report.allOk
  {
    var v := Validate(c);
    ValidationRaises(c);
    if v.Raised? {
      return Crashed(v.exception);
    }
    ValidationOkIffNoErrors(c);
    if !v.ok {
      return Rejected(v.errors);
    }
    var g := GenerateCombinations(draws, Needed(c), c.numbersPerCard, c.maxNumber);
    if g.SamplesExhausted? {
      return Incomplete;
    }
    o := LayOutAndAudit(g.pool, c);
  }
}
