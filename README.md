# Bingo generator, simulator and live game — a Dafny model

This project models the core of a bingo system. The system has four parts:

- **Generator.** It generates unique bingo cards ("cartones"): k distinct numbers from 1..M, stored in ascending order. It groups them three to a physical sheet ("bingo") and writes two layouts:
  - a *simple* table, one card per row with 1-based IDs;
  - a *paired* ("Corel") table, with two sheets side by side per row. The left sheet takes its cards A, B, C from the first half of the pool. The right sheet takes D, E, F from the second half and is numbered from `sheets // 2 + 1`.
  
  Before generating, it validates the configuration. Afterwards, it audits its own output with six checks.
- **Simulators.** A service and a command-line script read a paired table back into single cards. They play games on shuffled draw orders of the balls 1..60. Each game stops at the first ball that completes one or more cards. Both compute integer statistics over the games.
- **Live game.** An interactive game keeps the called balls, the available balls, each card's hits, the winners and a finished flag. It supports call, undo, ranking and reset, and a registry keeps the games in progress by ID.
- **Stand-alone scripts.** Two scripts repeat the generation:
  - one generates, lays out both ways, audits and counts the passed checks;
  - an earlier one only samples 1800 cards and numbers them.

## Model structure

The modules follow the source files:

| module | file | models |
|---|---|---|
| `Support` | `support.dfy` | Python floor division, `xs[:n]`, `range`, and result types |
| `Combinatorics` | `combinatorics.dfy` | the exact binomial that `math.comb` computes, and that it counts the possible cards |
| `CardSorting` | `card_sorting.dfy` | `sorted(...)` of one sample |
| `SheetIds` | `sheet_ids.dfy` | the four-digit sheet number text, `str`, `zfill`, and reading the text back |
| `GeneratorService` | `generator.dfy` | `services/generador_service.py` |
| `AuditScript` | `audit_script.dfy` | `generationBingosRandomAudit.py` |
| `StandaloneScript` | `standalone_script.dfy` | `generationBingosRandom.py` |
| `CorelLoader` | `corel_loader.dfy` | the row-to-cards slicing shared by the three loaders |
| `DrawEngine` | `draw_engine.dfy` | `simular_jugada` and the ball shuffle |
| `Statistics` | `statistics.dfy` | `calcular_estadisticas`, integer parts |
| `Simulation` | `simulation.dfy` | `ejecutar_simulacion` of both simulators |
| `LiveGame` | `live_game.dfy` | `services/bingo_live_service.py` |

**Loops and mutable state.** Code that loops or mutates is imperative Dafny. Each loop becomes a `method` proved against a specification function:
- the sampling loop, the paired-row loop, the audit and the draw loop;
- the loaders, the statistics gathering and the game loop.

The live game is a `Game` class whose methods modify the game and its `Card` objects. Their effect is stated over ghost views of the cards.

**Randomness.** Random choices are inputs:
- `random.sample` is a sequence of samples, each k distinct numbers of 1..M;
- `random.shuffle` is the sequence of positions the Fisher–Yates exchange picks.

**Source quirks kept as written:**
- **Win threshold.** The live game wins at `>= 10` hits. The command-line simulator wins at `== 10`. The service simulator wins at `== numeros_por_carton`.
- **Right-sheet number.** It is `sheets // 2 + 1`, whatever the number of sheets per row.
- **Loader columns.** The loaders read fixed ten-column slices, whatever the card size the generator was configured with. The model follows the code here, not the intent to handle any card size.
- **Sheet IDs in the simulators.** The simulators' loaders keep a sheet ID as `str` of the integer pandas read, so sheet 1 is `"1"`, not `"0001"` (services/simulador_service.py:101-102, simuladorBingos.py:144-145). The loader's own documentation shows `"0001"`. Only the live game zero-fills the ID (services/bingo_live_service.py:88-89). The model follows the code with two ID styles, `AsRead` and `ZeroFilled`.
- **Paired header.** The header always has room for three cards per sheet. With one sheet per row, or a card count per sheet other than three, validation passes but building the paired table fails. The lemmas `OnePerRowOverrunsPool` and `OtherCardCountsMismatchHeader` state this.

## Model

| member | source | states |
|---|---|---|
| Support.FloorDiv | services/generador_service.py:102-103 | `a // b` is the floor of a/b: b*q <= a < b*q + b for positive b, and the mirror image for negative b |
| Support.PyPrefix | services/simulador_service.py:161 | `xs[:n]` is a prefix of xs, of length min(n, len) for n >= 0 and max(len + n, 0) for negative n |
| Support.Interval | services/bingo_live_service.py:67 | `set(range(lo, hi))` holds exactly the integers lo <= x < hi |
| Support.IntervalCard | services/bingo_live_service.py:67 | `set(range(lo, hi))` has hi - lo elements |
| Support.NoDuplicatesCard | services/generador_service.py:78-83 | a list without repeats has as many distinct elements as entries |
| Support.CardNoDuplicates | services/generador_service.py:88 | a list with as many distinct elements as entries has no repeats |
| SheetIds.Decimal | services/simulador_service.py:101 | `str(n)` of a natural number is a non-empty string of digits |
| SheetIds.ZeroPad | services/generador_service.py:116 | zero padding to width w gives length max(len, w) |
| SheetIds.ZFill | services/bingo_live_service.py:88-89 | `s.zfill(w)` has length max(len, w) |
| SheetIds.DecimalValue | services/simulador_service.py:101 | the digits of n read back as n |
| SheetIds.ZeroPadValue | services/generador_service.py:116 | leading zeros do not change the value read back |
| SheetIds.SheetIdRoundTrip | services/generador_service.py:116 | the text `f"{n:04d}"` of any sheet number n is an integer cell that reads back as n |
| SheetIds.SheetIdWidth | services/generador_service.py:121 | sheet numbers 0..9999 are written with exactly four characters |
| SheetIds.ZFillIsSheetIdText | services/bingo_live_service.py:88-89 | the live game's `str(x).zfill(4)` of a read-back sheet number is exactly the generator's `f"{x:04d}"` |
| SheetIds.IntTextRoundTrip | services/simulador_service.py:101-102 | `str(n)` reads back as n |
| Combinatorics.PrependAll | services/generador_service.py:64 | prefixes every listed sequence with x, keeping order and count |
| Combinatorics.BinomialZeroAbove | services/generador_service.py:64 | `comb(n, k)` is 0 when k > n |
| Combinatorics.BinomialPositive | services/generador_service.py:64 | `comb(n, k)` is at least 1 when k <= n |
| Combinatorics.BinomialDiagonal | generationBingosRandomAudit.py:89 | C(n + j, k + j) >= C(n, k) |
| Combinatorics.BinomialOne | generationBingosRandomAudit.py:89 | C(n, 1) = n |
| Combinatorics.BinomialTwo | generationBingosRandomAudit.py:89 | 2 C(n, 2) = n(n - 1) |
| Combinatorics.BinomialThree | generationBingosRandomAudit.py:89 | 6 C(n, 3) = n(n - 1)(n - 2) |
| Combinatorics.IncSeqsSound | services/generador_service.py:63-70 | every listed sequence is strictly increasing, of length k, within the range |
| Combinatorics.IncSeqsComplete | services/generador_service.py:63-70 | every strictly increasing k-sequence in the range is listed |
| Combinatorics.IncSeqsCard | services/generador_service.py:63-70 | there are exactly C(n, k) such sequences |
| Combinatorics.IncSeqsDistinct | services/generador_service.py:63-70 | none of them is listed twice |
| Combinatorics.DistinctCombinationsBound | services/generador_service.py:63-70 | a pool of pairwise distinct cards of k numbers from 1..M has at most C(M, k) entries |
| Combinatorics.EnoughCombinations | services/generador_service.py:63-70 | when needed <= C(M, k) a pool of that many distinct cards exists, so the bound is tight |
| Combinatorics.SeqOfSet | services/generador_service.py:88 | `list(set)` lists each element of the set once |
| CardSorting.Insert | services/generador_service.py:82 | insertion adds exactly one occurrence of x and keeps the rest |
| CardSorting.InsertKeepsOrder | services/generador_service.py:82 | inserting into an ascending list keeps it ascending |
| CardSorting.InsertKeepsStrictOrder | services/generador_service.py:82 | inserting a new value into a strictly increasing list keeps it strictly increasing |
| CardSorting.SortAscending | services/generador_service.py:82 | `sorted(sample)` is an ascending permutation of the sample, strictly increasing when the sample has no repeats |
| CardSorting.SortStep | services/generador_service.py:82 | a sorting step of a repeat-free list stays strictly increasing |
| CardSorting.SortKeepsRange | services/generador_service.py:82 | sorting keeps every value in the range 1..M |
| CardSorting.SortIdentity | services/generador_service.py:82 | an already sorted card is left as it is |
| GeneratorService.Validate | services/generador_service.py:46-72 | the validator's loop returns exactly ValidationOf: (no errors, the errors of the violated rules in rule order); ZeroDivisionError for zero sheets per row; ValueError for a negative argument of `comb` |
| GeneratorService.ValidationRaises | services/generador_service.py:60-64 | the validator raises exactly for zero sheets per row (ZeroDivisionError) or a negative argument of `comb` |
| GeneratorService.ValidationOkIffNoErrors | services/generador_service.py:72 | validation succeeds iff the error list is empty iff every rule holds |
| GeneratorService.PrefixFacts | services/generador_service.py:50-70 | the first k rules list each of their errors exactly when its condition holds, in rule order |
| GeneratorService.PrefixSix | services/generador_service.py:50-70 | after all six rules the list is the whole error list |
| GeneratorService.ValidationReportsEachRule | services/generador_service.py:50-70 | each rule adds its own error, with the offending values, iff violated: positivity of the three values, k <= M, divisibility by sheets per row, and needed <= C(M, k); only these errors, in rule order |
| GeneratorService.AcceptedStep | services/generador_service.py:81-83 | each sample adds its sorted card to the set, so the set grows by at most one and never shrinks |
| GeneratorService.SortedSample | services/generador_service.py:82 | a sorted sample of k distinct numbers of 1..M is a card |
| GeneratorService.GenerateCombinations | services/generador_service.py:75-88 | the sampling loop returns exactly `sheets * cards_per_sheet` pairwise distinct cards, each strictly increasing, of length k, within 1..M, equal to the set of the samples used, and stops as soon as it has them |
| GeneratorService.SampleTurn | services/generador_service.py:81-83 | one turn below the target keeps the loop invariant: the sorted sample is appended exactly when new |
| GeneratorService.SampleSeen | services/generador_service.py:83 | a sample already held changes nothing |
| GeneratorService.SampleNew | services/generador_service.py:83 | a new sample is appended and keeps the pool repeat-free, valid and equal to the accepted set |
| GeneratorService.CombinationsAppend | services/generador_service.py:83 | appending a valid card keeps every card valid |
| GeneratorService.AcceptedBounded | services/generador_service.py:81-83 | no choice of samples collects more than C(M, k) distinct cards |
| GeneratorService.CompletionPossibleIffCapacity | services/generador_service.py:63-70 | some sequence of samples reaches `needed` distinct cards iff needed <= C(M, k): the capacity rule is exactly right |
| GeneratorService.CreateSimple | services/generador_service.py:91-97 | the simple table exists iff every card has k numbers (else ValueError); it has width k, one row per card, and row i has ID i + 1 |
| GeneratorService.SimpleRoundTrip | services/generador_service.py:93-96 | ID i + 1 holds pool[i] and no other ID is used |
| GeneratorService.ReadBackExact | services/generador_service.py:116-123 | a paired row read back gives its sheet numbers and card numbers unchanged |
| GeneratorService.RowsInRange | services/generador_service.py:111 | the right run of row j ends inside a pool of 2 * rows * c cards |
| GeneratorService.FlattenSnoc | services/generador_service.py:117-118 | one more `extend` appends the next card's numbers |
| GeneratorService.ReadCards | services/generador_service.py:117-118 | the `extend` loop yields the flattened cards base .. base + count - 1, and fails (IndexError) iff that run leaves the pool |
| GeneratorService.RowReads | services/generador_service.py:110-111 | row j's left run ends before its right run, inside the pool whenever all reads are |
| GeneratorService.RowOverrun | services/generador_service.py:111 | a right run that leaves the pool means the layout overruns it |
| GeneratorService.AllRowsFit | services/generador_service.py:109-111 | if the last right run fits, all reads fit |
| GeneratorService.BuildRow | services/generador_service.py:110-125 | the loop body yields row j in closed form: left number j + 1, right number `sheets // 2 + 1 + j`, left cards from `j * c`, right cards from `(rows + j) * c`; it fails iff the right run leaves the pool |
| GeneratorService.BuildRows | services/generador_service.py:105-127 | the row loop with its two counters yields one row per pair, each the closed-form row, or fails iff some read leaves the pool |
| GeneratorService.RowsSoFarAppend | services/generador_service.py:125 | appending the next closed-form row keeps the loop invariant |
| GeneratorService.CorelLayoutFrom | services/generador_service.py:129-137 | rows that agree with the closed form are the layout if the header accepts them, else ValueError |
| GeneratorService.CreateCorel | services/generador_service.py:100-137 | `crear_dataframe_corel` returns exactly CorelLayout: the rows, IndexError on an overrun, ValueError on a header mismatch, ZeroDivisionError for zero sheets per row |
| GeneratorService.CorelLayoutShape | services/generador_service.py:102-127 | a built layout has `sheets // sheets_per_row` rows, each the closed-form row |
| GeneratorService.RowRunsInside | services/generador_service.py:110-123 | both card runs of row j lie inside the pool and are the row's left and right numbers |
| GeneratorService.CorelRowContents | services/generador_service.py:102-127 | row r has left number r + 1 and right number `sheets // 2 + 1 + r`; its left cards are pool[r*c .. r*c + c - 1] and its right cards pool[(rows + r)*c .. (rows + r)*c + c - 1], flattened in order |
| GeneratorService.SplitIndex | services/generador_service.py:110-111 | every pool index below 2 * rows * c is read by some (row, side, position) |
| GeneratorService.IndexUnique | services/generador_service.py:110-111 | no two (row, side, position) read the same pool index |
| GeneratorService.TwoPerRowUsesEachCardOnce | services/generador_service.py:109-125 | with two sheets per row, every pool index is used by exactly one (row, side, position) |
| GeneratorService.OnePerRowOverrunsPool | services/generador_service.py:103-123 | one sheet per row passes validation, but the layout raises IndexError |
| GeneratorService.OtherCardCountsMismatchHeader | services/generador_service.py:117-137 | a positive card count per sheet other than three passes validation, but the layout raises ValueError |
| GeneratorService.FirstRowMismatch | services/generador_service.py:117-137 | with such a count, the first row is not as wide as the header |
| GeneratorService.WidthMismatch | services/generador_service.py:129-135 | 2 + 2ck differs from the header width 2 + 6k when c != 3 |
| GeneratorService.FlattenLength | services/generador_service.py:117-118 | c cards of k numbers flatten to c * k numbers |
| GeneratorService.RowsPositive | services/generador_service.py:102 | a valid configuration with two or more sheets per row has at least one row, and the rows times sheets per row give the sheets |
| GeneratorService.PairedRowsFit | services/generador_service.py:110-111 | both halves of the layout fit in a pool of the needed size |
| GeneratorService.ThreePerSheetLayoutSucceeds | services/generador_service.py:100-137 | with three cards per sheet and two or more sheets per row, a pool of the needed size yields the layout, with one row per pair |
| GeneratorService.ThreeCardRowWidth | services/generador_service.py:129-137 | a row of three-card sheets is as wide as the header |
| GeneratorService.UniqueRows | services/generador_service.py:162-168 | no two rows hold the same numbers iff the table's cards have no repeats, which is what comparing with `drop_duplicates` measures |
| GeneratorService.RunChecks | services/generador_service.py:146-194 | the six checks are computed in report order: count, numbers per card, uniqueness, range, no internal repeats, paired row count |
| GeneratorService.AllPassed | services/generador_service.py:196 | `all(...)` is true iff every check passed |
| GeneratorService.Audit | services/generador_service.py:140-197 | the audit returns exactly six checks in a fixed order, with overall ok iff all six pass; it raises ZeroDivisionError for zero sheets per row |
| GeneratorService.GeneratedOutputPassesAudit | services/generador_service.py:140-197 | a valid configuration fed the generator's own output, with three cards per sheet and two or more sheets per row, passes all six checks |
| GeneratorService.NumberingMatchesLayout | services/generador_service.py:202-222 | the summary's numbering is the layout's: the first and last left sheet and the first right sheet are those of the first and last rows; with two sheets per row and an even count the last right sheet is the summary's last and the right numbers follow the left ones without gap |
| GeneratorService.LayOutAndAudit | services/generador_service.py:268-282 | a collected pool either crashes or yields both layouts and an audit report that passes iff all six checks hold; with three cards per sheet and two or more sheets per row it always completes and passes |
| GeneratorService.GenerateBingos | services/generador_service.py:232-297 | rejected (with errors) only for an invalid configuration and never for a valid one; incomplete only when the samples hold fewer distinct cards than needed; a completed run holds the needed number of distinct cards, both layouts and an audit that passes iff all six checks hold; with three cards per sheet, two or more per row and enough samples it completes and passes |
| AuditScript.DerivedConstants | generationBingosRandomAudit.py:47-49 | the derived constants are 3600 combinations, 600 paired rows and right sheets from 601: the generator's own quantities |
| AuditScript.ValidateOrRaiseIffInvalid | generationBingosRandomAudit.py:68-103 | the script continues iff every rule holds; otherwise it raises ValueError with a non-empty error list |
| AuditScript.SettingsAreValid | generationBingosRandomAudit.py:26-34 | the fixed settings pass validation |
| AuditScript.CapacityBound | generationBingosRandomAudit.py:89-90 | `comb(60, 10)` is at least the 3600 combinations the script needs, so its capacity rule holds |
| AuditScript.CountPassed | generationBingosRandomAudit.py:290-346 | the passed count never exceeds the number of checks |
| AuditScript.CountPassedAll | generationBingosRandomAudit.py:290-346 | the count equals the number of checks iff every check passed |
| AuditScript.CountAudit | generationBingosRandomAudit.py:284-346 | the audit returns (passed, 6) with 0 <= passed <= 6; each passing check adds exactly one |
| AuditScript.Verdict | generationBingosRandomAudit.py:354 | the status is PASADA iff passed == total |
| AuditScript.VerdictIffAllChecksPass | generationBingosRandomAudit.py:346-354 | the script's verdict is PASADA iff all six checks pass |
| AuditScript.RunAuditScript | generationBingosRandomAudit.py:382-409 | the script's steps yield 3600 distinct valid cards, both layouts and a PASADA verdict, unless the samples run out |
| StandaloneScript.CardCountFeasible | generationBingosRandom.py:5-7 | 1800 <= C(60, 10), so the loop can finish |
| StandaloneScript.Run | generationBingosRandom.py:10-20 | the loop ends with exactly 1800 distinct sorted cards of 10 values in 1..60; row i + 1 holds card i; the samples running out is the only other outcome |
| StandaloneScript.AcceptedGrows | generationBingosRandom.py:12-14 | the set never shrinks as samples are drawn |
| CorelLoader.ILoc | services/simulador_service.py:106 | `iloc[lo:hi]` has at most hi - lo cells |
| CorelLoader.LoadCards | services/simulador_service.py:86-122 | the loader's loops return exactly LoadAll: six cards per row, or IndexError at the first row without column 31 |
| CorelLoader.LoadAllGrows | services/simulador_service.py:100-120 | a full row appends its six cards |
| CorelLoader.LoadAllFailsAt | services/simulador_service.py:102 | a row without column 31 makes the load raise IndexError |
| CorelLoader.LoadAllFailsFrom | services/simulador_service.py:100-102 | a failure in the first rows is the failure of the whole load |
| CorelLoader.LoadAllSucceeds | services/bingo_live_service.py:87-107 | loading succeeds iff every row reaches column 31, and then yields six cards per row |
| CorelLoader.LoadAllLength | simuladorBingos.py:143-165 | a successful load has six cards per row |
| CorelLoader.LoadAllCard | simuladorBingos.py:143-165 | card 6i + s is slot s of row i: A, B, C with the sheet number of column 0, then D, E, F with that of column 31, each the set of its fixed column slice |
| CorelLoader.LoadAllRowAt | services/simulador_service.py:100-120 | card 6i + s is card s of row i's six |
| CorelLoader.LoadAllPrefix | services/simulador_service.py:100-120 | loading the first m rows loads a prefix of all the cards |
| DrawEngine.WinnersAt | services/simulador_service.py:143-151 | the winners of one ball are at most one per card |
| DrawEngine.BallsFrom | services/simulador_service.py:140-154 | the balls drawn lie between the current ball and the end of the order |
| DrawEngine.PlayGame | services/simulador_service.py:125-162 | the draw loop returns exactly Game: the balls drawn, the winners of the deciding ball, their number and the drawn prefix |
| DrawEngine.GameEndsAt | services/simulador_service.py:153-154 | the first ball with a winner ends the game and gives its winners |
| DrawEngine.GameRunsOut | services/simulador_service.py:140-162 | a game without winners draws every ball |
| DrawEngine.DrawBall | services/simulador_service.py:143-151 | one ball marks every card that holds it and collects, in card order, the cards it brings to the threshold |
| DrawEngine.HitsStep | services/simulador_service.py:144-145 | a card's hits grow by the ball exactly when it holds the ball |
| DrawEngine.WinnersAtMembers | services/simulador_service.py:143-151 | a winner is recorded for a ball iff the ball completes that card |
| DrawEngine.CompletedIsListed | services/simulador_service.py:147-151 | a card the ball completes is among its winners |
| DrawEngine.GameShape | services/simulador_service.py:156-162 | the balls drawn are between 1 and N, `orden_bolillas` is the prefix of that length, and `cantidad_ganadores == len(ganadores)` |
| DrawEngine.StopsAtFirstWin | services/simulador_service.py:153-154 | the game stops at the first ball with a winner |
| DrawEngine.NoEarlierWinner | simuladorBingos.py:206-223 | no ball before the deciding one has a winner, and a game without winners has drawn every ball |
| DrawEngine.BelowThreshold | simuladorBingos.py:210-215 | while no card has won, every card has fewer hits than the threshold |
| DrawEngine.WinnersHoldThreshold | services/simulador_service.py:143-151 | in a game with winners and a positive threshold, a card is listed iff a card equal to it has exactly the threshold of hits in the drawn prefix; a card of exactly the threshold of numbers that reaches it has all its numbers drawn |
| DrawEngine.Swap | simuladorBingos.py:178 | an exchange keeps the length |
| DrawEngine.ShuffleDown | simuladorBingos.py:178 | the shuffle keeps the length |
| DrawEngine.SwapKeeps | simuladorBingos.py:178 | an exchange keeps the values and their distinctness |
| DrawEngine.ShuffleDownKeeps | simuladorBingos.py:178 | the shuffle keeps the values and their distinctness |
| DrawEngine.BallOrderIsPermutation | simuladorBingos.py:175-179 | `generar_orden_bolillas` returns a permutation of 1..60 for any choices of the shuffle |
| Simulation.RunGames | simuladorBingos.py:241-246 | the game loop returns exactly `num_jugadas` results, result i numbered i + 1 and played on order i |
| Simulation.Orders | services/simulador_service.py:127-128 | one draw order per game |
| Simulation.SimulatedGamesFacts | simuladorBingos.py:193-230 | every simulated game draws between 1 and 60 distinct balls, records exactly those balls, agrees with its winner count, and no earlier ball completed a card |
| Simulation.RunServiceSimulation | services/simulador_service.py:354-391 | a load error gives a failed result; zero games make the statistics raise ValueError; otherwise the numbered games and their statistics |
| Simulation.RunCliSimulation | simuladorBingos.py:232-254 | `num_jugadas` results numbered 1.., each the game on its shuffle, with winner counts that agree with the winner lists |
| Statistics.Bump | services/simulador_service.py:178 | counting one more value adds at most one entry |
| Statistics.BumpCounts | services/simulador_service.py:178 | counting x raises x's count by one and the total by one |
| Statistics.BumpKeys | services/simulador_service.py:178 | counting keeps keys unique and counts positive, and adds x as a key |
| Statistics.HeadAndRest | services/simulador_service.py:178 | a counter's keys are its first key and the rest's keys |
| Statistics.TallyCounts | services/simulador_service.py:178-179 | `Counter(xs)` gives each value its number of occurrences, totals len(xs), and has exactly the values of xs as keys |
| Statistics.FirstMax | services/simulador_service.py:181-182 | `most_common(1)` picks an entry of maximal count, the first of equal maxima |
| Statistics.Top | services/simulador_service.py:195-196 | ('N/A', 0) for an empty counter; otherwise an entry with maximal count |
| Statistics.TopIsMode | services/simulador_service.py:181-196 | the top entry is ('N/A', 0) iff the list is empty; otherwise a value of the list whose count is its number of occurrences and is at least every value's |
| Statistics.MinOf | services/simulador_service.py:185 | `min` is an element no larger than any |
| Statistics.MaxOf | services/simulador_service.py:186 | `max` is an element no smaller than any |
| Statistics.BallCounts | services/simulador_service.py:167 | `bolillas` is each game's ball count |
| Statistics.WinnerCounts | services/simulador_service.py:168 | `cantidades` is each game's winner count |
| Statistics.WinnerListsLength | services/simulador_service.py:170-176 | both winner lists have one entry per winner of every game, which is the sum of `cantidad_ganadores` |
| Statistics.CollectWinners | services/simulador_service.py:173-176 | the gathering loops list every winner's sheet ID and slot, game by game |
| Statistics.CalculateServiceStats | services/simulador_service.py:165-197 | the statistics function returns exactly ServiceStatsOf, raising ValueError on no games |
| Statistics.ServiceStatsFacts | services/simulador_service.py:165-197 | raises iff there are no games; otherwise min <= max of balls, the max winners, the frequency totals and the top entries as below |
| Statistics.BallsRange | services/simulador_service.py:185-191 | `bolillas_min <= bolillas_max` are attained by games and bound every game; `ganadores_max` is the largest winner count |
| Statistics.FrequencyTotals | services/simulador_service.py:178-192 | the distribution sums to the number of games; the sheet and slot frequencies each sum to the total winners, which is the sum of `cantidad_ganadores` |
| Statistics.TallyTotal | services/simulador_service.py:192 | a counter's counts sum to the list's length |
| Statistics.TopSheetFacts | services/simulador_service.py:195 | `top_bingo` is ('N/A', 0) iff there is no winner; otherwise a sheet with maximal wins |
| Statistics.TopSlotFacts | services/simulador_service.py:196 | `top_carton` is ('N/A', 0) iff there is no winner; otherwise a slot with maximal wins |
| Statistics.KeyedCount | services/simulador_service.py:178 | a key's count is the count stored in its entry |
| Statistics.AbsentCount | services/simulador_service.py:178 | an absent key counts 0 |
| Statistics.EntryBounds | services/simulador_service.py:181-182 | a bound on every entry bounds every key's count |
| Statistics.CalculateCliStats | simuladorBingos.py:260-292 | the command-line statistics function returns exactly CliStatsOf, raising ValueError on no games |
| Statistics.CliMatchesService | simuladorBingos.py:275-291 | the command-line statistics agree with the service's on every shared field, and the distribution sums to `total_jugadas` |
| LiveGame.Marked | services/bingo_live_service.py:36-37 | the hits gain n exactly when the card holds n |
| LiveGame.Card.constructor | services/bingo_live_service.py:14-20 | a new card has the given sheet, slot and numbers, and no hits |
| LiveGame.Card.Mark | services/bingo_live_service.py:34-39 | `marcar_numero` adds n to the hits iff n is on the card, returns whether it did, and keeps the hits inside the numbers |
| LiveGame.Card.Unmark | services/bingo_live_service.py:41-46 | `desmarcar_numero` removes n and returns whether it was marked; nothing else changes |
| LiveGame.View | services/bingo_live_service.py:48-57 | a card's report: `es_ganador` iff at least ten hits |
| LiveGame.Views | services/bingo_live_service.py:134 | one view per card |
| LiveGame.MarkedViews | services/bingo_live_service.py:134-135 | one view per card, each with the ball marked |
| LiveGame.UnmarkedViews | services/bingo_live_service.py:172-173 | one view per card, each with the ball unmarked |
| LiveGame.ViewsConsistent | services/bingo_live_service.py:22-28 | every card's hit count and winner flag agree with its hits |
| LiveGame.MarkKeepsHits | services/bingo_live_service.py:133-135 | marking a called ball keeps every card's hits equal to the called balls it holds |
| LiveGame.UnmarkKeepsHits | services/bingo_live_service.py:171-173 | unmarking the ball taken back keeps every card's hits equal to the called balls it holds |
| LiveGame.UnmarkUndoesMark | services/bingo_live_service.py:129-173 | unmarking a ball that was not called before marking it restores every card's view |
| LiveGame.SameCardIsSameView | services/bingo_live_service.py:142 | two cards are equal as dataclasses iff their views are |
| LiveGame.CollectedAt | services/bingo_live_service.py:142-143 | the winners a call collects are cards that have won |
| LiveGame.WinningAt | services/bingo_live_service.py:176 | the winners after an undo are cards that have won |
| LiveGame.Pick | services/bingo_live_service.py:176 | one card per position |
| LiveGame.WinningAtExactly | services/bingo_live_service.py:176 | after an undo the winners are exactly the winning cards, in card order |
| LiveGame.CollectedAtDistinct | services/bingo_live_service.py:142-143 | after a call the winners have no duplicates and are in card order |
| LiveGame.CollectedAtCovers | services/bingo_live_service.py:142-143 | every winning card equals a collected winner at or before it |
| LiveGame.CollectedAtExtends | services/bingo_live_service.py:134-143 | one more card only appends to the collected winners |
| LiveGame.CoveredPrefix | services/bingo_live_service.py:142 | a covered card stays covered |
| LiveGame.CoveredLast | services/bingo_live_service.py:142-143 | the last card, if it won, is covered |
| LiveGame.WinnersFound | services/bingo_live_service.py:146-147 | both ways of collecting winners find one iff some card has won |
| LiveGame.NewHitsOf | services/bingo_live_service.py:133-139 | at most one entry per card |
| LiveGame.NewHitsOfMembers | services/bingo_live_service.py:133-139 | `aciertos_nuevos` holds, for each card holding the ball, its ID and hit count, and nothing else |
| LiveGame.Entry | services/bingo_live_service.py:196-202 | a ranking entry carries the card's ID and hit count |
| LiveGame.RankEntries | services/bingo_live_service.py:196-202 | one entry per card |
| LiveGame.WithHitsBelow | services/bingo_live_service.py:190-194 | no entry has h hits when all have fewer |
| LiveGame.WithHitsAppend | services/bingo_live_service.py:190-194 | the entries with h hits of a concatenation are those of each part |
| LiveGame.InsertBounded | services/bingo_live_service.py:190-194 | inserting keeps a bound on the hits |
| LiveGame.InsertSorted | services/bingo_live_service.py:190-194 | inserting keeps the descending order |
| LiveGame.InsertPermutes | services/bingo_live_service.py:190-194 | inserting adds exactly the entry |
| LiveGame.InsertWithHits | services/bingo_live_service.py:190-194 | the inserted entry goes after every entry with equal hits |
| LiveGame.InsertBehind | services/bingo_live_service.py:190-194 | an entry going behind the head keeps ties in order |
| LiveGame.InsertInFront | services/bingo_live_service.py:190-194 | an entry going in front keeps ties in order |
| LiveGame.SortByHitsIsStable | services/bingo_live_service.py:190-194 | the sort is a permutation, descending by hits, and keeps card order among equal hits |
| LiveGame.SortByHitsOrders | services/bingo_live_service.py:190-194 | the sort is descending by hits |
| LiveGame.SortByHitsPermutes | services/bingo_live_service.py:190-194 | the sort is a permutation |
| LiveGame.SortByHitsKeepsTies | services/bingo_live_service.py:190-194 | the sort keeps card order among equal hits |
| LiveGame.TopRankedFacts | services/bingo_live_service.py:188-202 | `obtener_ranking(n)` returns min(n, #cards) entries, the first of the stable descending sort |
| LiveGame.UnmarkedPlayState | services/bingo_live_service.py:63-72 | a new game has all 60 balls available, none called and no winners |
| LiveGame.CallKeepsPlayState | services/bingo_live_service.py:128-147 | a call keeps the invariant: called and available balls split 1..60, hits are the called balls each card holds, finished iff there are winners |
| LiveGame.UndoKeepsPlayState | services/bingo_live_service.py:167-177 | an undo keeps the same invariant, with the winners recomputed |
| LiveGame.CallThenUndo | services/bingo_live_service.py:129-173 | a call followed by an undo restores the called balls, the available balls and every card's hits, with no winner |
| LiveGame.DescribesIsView | services/bingo_live_service.py:48-57 | a view describes a card iff it is the card's view |
| LiveGame.SyncedIsViews | services/bingo_live_service.py:48-57 | views that describe the cards are the cards' views |
| LiveGame.PickViews | services/bingo_live_service.py:156 | the views at the given positions |
| LiveGame.PickedViews | services/bingo_live_service.py:156 | the winners' reports are the views at their positions |
| LiveGame.LoadedViews | services/bingo_live_service.py:94-107 | one unmarked view per loaded card |
| LiveGame.NewCards | services/bingo_live_service.py:94-107 | one new, unmarked card per loaded card, in order |
| LiveGame.LoadedSynced | services/bingo_live_service.py:94-107 | new cards are described by the loaded views |
| LiveGame.Game.ValidFacts | services/bingo_live_service.py:60-72 | in a valid game no ball is called twice, every card's hits are the called balls it holds, and every winner is a card that has won |
| LiveGame.Game.constructor | services/bingo_live_service.py:63-72 | a new game holds the loaded cards in order, unmarked, with all 60 balls available, none called, no winners |
| LiveGame.Game.RankingOfViews | services/bingo_live_service.py:188-202 | the ranking reads the cards' views and changes nothing |
| LiveGame.Game.Call | services/bingo_live_service.py:109-157 | a finished game or a ball already called changes nothing and reports why; otherwise the ball is appended to the called list and leaves the available set, every card marks it, the winners are the winning cards without repeats in card order, the game is finished iff there is one, and the result reports the count, the new hits, the top-20 ranking and the winners |
| LiveGame.Game.Undo | services/bingo_live_service.py:159-186 | with nothing called nothing changes; otherwise the last ball returns to the available set, every card unmarks it, the winners are all winning cards in card order, and finished iff there is one |
| LiveGame.Game.Reset | services/bingo_live_service.py:223-232 | the same cards, unmarked; no ball called, all 60 available, no winners, not finished |
| LiveGame.Game.Store | services/bingo_live_service.py:129-130 | records a new state of play |
| LiveGame.MarkCards | services/bingo_live_service.py:133-143 | the marking loop marks the ball on every card, reports the new hits, and collects the winners |
| LiveGame.MarkOne | services/bingo_live_service.py:134-143 | one card marks the ball; it is reported if it holds the ball, and collected if it won and no equal card was |
| LiveGame.MarkedAfter | services/bingo_live_service.py:134-143 | the marking loop invariant is restored after one card |
| LiveGame.CollectStep | services/bingo_live_service.py:142-143 | one more card is collected iff it won and no equal card was collected |
| LiveGame.PickAppend | services/bingo_live_service.py:143 | collecting one more position appends its card |
| LiveGame.NewHitsStep | services/bingo_live_service.py:135-139 | one more card adds its entry iff it holds the ball |
| LiveGame.CollectedBefore | services/bingo_live_service.py:142 | `carton not in self.ganadores` compares cards by value |
| LiveGame.UnmarkCards | services/bingo_live_service.py:172-173 | every card unmarks the ball |
| LiveGame.UnmarkedSynced | services/bingo_live_service.py:172-173 | cards that lost the ball are described by the unmarked views |
| LiveGame.ClearedViews | services/bingo_live_service.py:231-232 | one view per card |
| LiveGame.ClearCards | services/bingo_live_service.py:231-232 | every card's hits are emptied |
| LiveGame.MarkedCalled | services/bingo_live_service.py:36-37 | marking a called ball keeps hits = numbers ∩ called |
| LiveGame.UnmarkedCalled | services/bingo_live_service.py:43-44 | unmarking the ball taken back keeps hits = numbers ∩ called |
| LiveGame.MoveBall | services/bingo_live_service.py:129-130 | a call keeps the called and available balls disjoint, with the same union |
| LiveGame.ReturnBall | services/bingo_live_service.py:168-169 | an undo keeps them disjoint, with the same union |
| LiveGame.UndoLast | services/bingo_live_service.py:168 | popping the last ball removes exactly it from the called set |
| LiveGame.Registry.constructor | services/bingo_live_service.py:236 | no game is active at first |
| LiveGame.Registry.Start | services/bingo_live_service.py:239-253 | a load error stores nothing; otherwise a new game over the loaded cards (IDs zero-filled to four digits), unmarked with all 60 balls available, is stored under the ID, replacing any game there; afterwards `obtener_jugada(id)` returns it and every other ID returns what it did before |
| LiveGame.Registry.Get | services/bingo_live_service.py:251-253 | the game stored under the ID, or none |
| LiveGame.Registry.Delete | services/bingo_live_service.py:256-259 | the game under the ID is forgotten and the others stay |

## Left out

- **Files.** File and library I/O is not modelled: pandas `read_csv` and `to_csv`, writing the metadata file, creating folders, `verificar_archivos_existentes` (an interactive prompt), `buscar_archivo_corel` (a glob sorted by modification time), `obtener_generaciones_existentes` and `obtener_simulaciones_existentes`, and `exportar_resultados_csv`. The loaders are modelled on rows that are already sequences of integers. A cell that is not an integer, so that `int(x)` raises, is not modelled.
- **Web layer.** The Flask application in `app.py` is not part of this model.
- **Randomness.** Seeding and the random generator are not modelled. The samples and the shuffle choices are parameters.
- GeneratorService.GenerateCombinations: loops only while samples remain. Running out of samples is the `SamplesExhausted` outcome. For attainable settings it stands in for a loop that could go on sampling for ever.
- GeneratorService.GenerateCombinations: does not model the ValueError `random.sample` raises when the card size is negative or above the maximum number. Such samples cannot exist, so the draws are empty and the outcome is `SamplesExhausted`. The generator never reaches the loop with these settings, because validation rejects them first.
- GeneratorService.CreateSimple: does not model pandas padding rows of different lengths with NaN. A pool whose cards differ in length is a ValueError here. The generator's pools always hold cards of exactly k numbers, so the difference cannot show.
- GeneratorService.CreateCorel: does not model NaN padding either. Rows of different widths fail the header check with a ValueError, where pandas would accept them when the widest row fits the header. The rows of one layout always have the same width, so the difference cannot show.
- GeneratorService.GenerateCombinations: returns the cards in insertion order. `list(set)` returns them in an order Python leaves unspecified, so the model fixes one of the possible orders.
- **Floats.** Floating-point values are left out: the mean, median and standard deviation of the balls, the mean winners, the usage percentage, and all chart data and plots.
- **Console and clock.** Printing, progress callbacks and `argparse` are left out, as is every name built from the date. In `iniciar_jugada`, the game ID that defaults to the current time is a parameter.
- Statistics.ServiceStatsFacts: the counters are entry lists in first-insertion order. `most_common(1)` is modelled as the first entry of maximal count, which is what CPython returns.
- LiveGame.View: `to_dict` lists the numbers and hits sorted. The view keeps them as sets.
- LiveGame.Registry.Start: returns the game itself, not the report `obtener_estado` builds from it. `obtener_estado` and `obtener_carton_detalle` are read-only reports and are not modelled.
- **Registry concurrency.** The module-level dictionary of active games has no concurrency control. It is modelled as a sequential map.
- **Audit layout.** The paired table is handed to the audit as its list of rows. The header check of pandas is modelled by `CorelLayout`.
