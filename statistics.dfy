/** The integer part of both simulators' statistics: minimum and maximum balls per game and
    winners per game, the distribution of winner counts, how often each sheet and each slot
    won, and (in the service) the most frequent sheet and slot. `Counter` is modelled as its
    entries in first-insertion order, which is the order a Python dict keeps. */
module Statistics {
  import opened Support
  import opened CorelLoader
  import opened DrawEngine

  /** resultados: one game with its 1-based number (jugada_num). */
  datatype Played = Played(number: int, game: GameResult)

  /** One key of a `Counter` and its count. */
  datatype Entry<K> = Entry(key: K, count: nat)

  /** The count of key x (0 when absent). */
  function CountOf<K(==)>(entries: seq<Entry<K>>, x: K): nat
  {
    if entries == [] then 0
    else (if entries[0].key == x then entries[0].count else 0) + CountOf(entries[1..], x)
  }

  /** The sum of all counts (`sum(counter.values())`). */
  function Total<K>(entries: seq<Entry<K>>): nat
  {
    if entries == [] then 0 else entries[0].count + Total(entries[1..])
  }

  function Keys<K>(entries: seq<Entry<K>>): seq<K>
  {
    seq(|entries|, i requires 0 <= i < |entries| => entries[i].key)
  }

  /** A well-formed counter: every key once, every count positive. */
  predicate WellFormed<K(==)>(entries: seq<Entry<K>>)
  {
    NoDuplicates(Keys(entries)) && forall i :: 0 <= i < |entries| ==> entries[i].count > 0
  }

  /** Counting one more x: its entry goes up by one, or a new entry is added at the end. */
  function Bump<K(==)>(entries: seq<Entry<K>>, x: K): (r: seq<Entry<K>>)
    ensures |r| == |entries| || |r| == |entries| + 1
  {
    if entries == [] then [Entry(x, 1)]
    else if entries[0].key == x then [Entry(x, entries[0].count + 1)] + entries[1..]
    else [entries[0]] + Bump(entries[1..], x)
  }

  /** `Counter(xs)`. */
  function Tally<K(==)>(xs: seq<K>): seq<Entry<K>>
  {
    if xs == [] then [] else Bump(Tally(xs[..|xs| - 1]), xs[|xs| - 1])
  }

  lemma {:induction false} BumpCounts<K>(entries: seq<Entry<K>>, x: K, y: K)
    ensures CountOf(Bump(entries, x), y) == CountOf(entries, y) + (if x == y then 1 else 0)
    ensures Total(Bump(entries, x)) == Total(entries) + 1
  {
    if entries != [] && entries[0].key != x {
      BumpCounts(entries[1..], x, y);
      assert Bump(entries, x)[1..] == Bump(entries[1..], x);
    } else if entries != [] {
      assert Bump(entries, x)[1..] == entries[1..];
    }
  }

  lemma {:induction false} BumpKeys<K>(entries: seq<Entry<K>>, x: K)
    requires WellFormed(entries)
    ensures WellFormed(Bump(entries, x))
    ensures forall y :: y in Keys(Bump(entries, x)) <==> y in Keys(entries) || y == x
  {
    var r := Bump(entries, x);
    if entries == [] {
      assert Keys(r) == [x];
    } else {
      var rest := entries[1..];
      HeadAndRest(entries);
      HeadAndRest(r);
      if entries[0].key == x {
        assert Keys(r) == Keys(entries);
      } else {
        BumpKeys(rest, x);
        assert r[1..] == Bump(rest, x);
        assert forall i :: 1 <= i < |r| ==> Keys(r)[i] == Keys(Bump(rest, x))[i - 1];
        forall a, b | 0 <= a < b < |r| ensures Keys(r)[a] != Keys(r)[b] {
          if a == 0 {
            assert Keys(r)[b] in Keys(Bump(rest, x));
          }
        }
      }
    }
  }

  /** The keys of a counter are its first key followed by the keys of the rest; in a
      well-formed counter the first key does not occur again. */
  lemma HeadAndRest<K>(entries: seq<Entry<K>>)
    requires entries != []
    ensures Keys(entries) == [entries[0].key] + Keys(entries[1..])
    ensures WellFormed(entries) ==> WellFormed(entries[1..]) && entries[0].key !in Keys(entries[1..])
  {
    var rest := entries[1..];
    assert Keys(entries) == [entries[0].key] + Keys(rest);
    if WellFormed(entries) {
      forall i | 0 <= i < |rest| ensures Keys(rest)[i] != entries[0].key {
        assert Keys(entries)[i + 1] == Keys(rest)[i] && Keys(entries)[0] == entries[0].key;
      }
      forall a, b | 0 <= a < b < |rest| ensures Keys(rest)[a] != Keys(rest)[b] {
        assert Keys(entries)[a + 1] == Keys(rest)[a] && Keys(entries)[b + 1] == Keys(rest)[b];
      }
    }
  }

  /** A counter counts: each key's count is its number of occurrences, the counts add up to
      the number of values, every key occurs once and every value has a key. */
  lemma {:induction false} TallyCounts<K>(xs: seq<K>)
    ensures forall x :: CountOf(Tally(xs), x) == multiset(xs)[x]
    ensures Total(Tally(xs)) == |xs|
    ensures WellFormed(Tally(xs))
    ensures forall x :: x in Keys(Tally(xs)) <==> x in xs
  {
    if xs != [] {
      var init := xs[..|xs| - 1];
      var last := xs[|xs| - 1];
      TallyCounts(init);
      assert xs == init + [last];
      forall x ensures CountOf(Tally(xs), x) == multiset(xs)[x] {
        BumpCounts(Tally(init), last, x);
      }
      BumpCounts(Tally(init), last, last);
      BumpKeys(Tally(init), last);
    }
  }

  /** Python's `max(entries, key=count)`, which keeps the first of equal maxima: the index of
      the first entry with the largest count. */
  function FirstMax<K>(entries: seq<Entry<K>>): (j: nat)
    requires entries != []
    ensures j < |entries|
    ensures forall i :: 0 <= i < |entries| ==> entries[i].count <= entries[j].count
    ensures forall i :: 0 <= i < j ==> entries[i].count < entries[j].count
  {
    if |entries| == 1 then 0
    else
      var j := FirstMax(entries[1..]);
      if entries[0].count >= entries[j + 1].count then 0 else j + 1
  }

  /** `counter.most_common(1)[0] if ... else ('N/A', 0)` for a counter with string keys. */
  function Top(entries: seq<Entry<string>>): (t: (string, nat))
    ensures entries == [] ==> t == ("N/A", 0)
    ensures entries != [] ==> exists j :: (0 <= j < |entries| && t == (entries[j].key, entries[j].count)
      && (forall i :: 0 <= i < |entries| ==> entries[i].count <= t.1)
      && (forall i :: 0 <= i < j ==> entries[i].count < t.1))
  {
    if entries == [] then ("N/A", 0)
    else
      var j := FirstMax(entries);
      (entries[j].key, entries[j].count)
  }

  /** `min(xs)`; the callers raise ValueError on an empty list. */
  function MinOf(xs: seq<int>): (m: int)
    requires xs != []
    ensures m in xs && forall i :: 0 <= i < |xs| ==> m <= xs[i]
  {
    if |xs| == 1 then xs[0]
    else
      var m := MinOf(xs[1..]);
      assert xs[1..][0] in xs[1..];
      if xs[0] <= m then xs[0] else m
  }

  /** `max(xs)`. */
  function MaxOf(xs: seq<int>): (m: int)
    requires xs != []
    ensures m in xs && forall i :: 0 <= i < |xs| ==> xs[i] <= m
  {
    if |xs| == 1 then xs[0]
    else
      var m := MaxOf(xs[1..]);
      assert xs[1..][0] in xs[1..];
      if xs[0] >= m then xs[0] else m
  }

  /** `bolillas`: the balls needed in each game. */
  function BallCounts(results: seq<Played>): (b: seq<int>)
    ensures |b| == |results|
    ensures forall i :: 0 <= i < |results| ==> b[i] == results[i].game.ballsDrawn
  {
    seq(|results|, i requires 0 <= i < |results| => results[i].game.ballsDrawn)
  }

  /** `cantidades`: the number of winners of each game. */
  function WinnerCounts(results: seq<Played>): (c: seq<int>)
    ensures |c| == |results|
    ensures forall i :: 0 <= i < |results| ==> c[i] == results[i].game.winnerCount
  {
    seq(|results|, i requires 0 <= i < |results| => results[i].game.winnerCount)
  }

  /** `bingos_ganadores`: every winner's sheet ID, game by game, in winner order. */
  function WinnerSheetIds(results: seq<Played>): seq<string>
  {
    if results == [] then []
    else
      var w := results[|results| - 1].game.winners;
      WinnerSheetIds(results[..|results| - 1]) + seq(|w|, k requires 0 <= k < |w| => w[k].sheetId)
  }

  /** `cartones_ganadores`: every winner's slot letter, in the same order. */
  function WinnerSlots(results: seq<Played>): seq<string>
  {
    if results == [] then []
    else
      var w := results[|results| - 1].game.winners;
      WinnerSlots(results[..|results| - 1]) + seq(|w|, k requires 0 <= k < |w| => SlotName(w[k].slot))
  }

  /** The total of the games' winner lists. */
  function WinnersTotal(results: seq<Played>): nat
  {
    if results == [] then 0
    else WinnersTotal(results[..|results| - 1]) + |results[|results| - 1].game.winners|
  }

  /** The total of the games' `cantidad_ganadores`. */
  function WinnerCountTotal(results: seq<Played>): int
  {
    if results == [] then 0
    else WinnerCountTotal(results[..|results| - 1]) + results[|results| - 1].game.winnerCount
  }

  /** Each game's `cantidad_ganadores` is the length of its winner list, as simular_jugada
      returns it. */
  predicate CountsAgree(results: seq<Played>)
  {
    forall i :: 0 <= i < |results| ==> results[i].game.winnerCount == |results[i].game.winners|
  }

  /** The two winner lists have one entry per winner, so their length is the total number of
      winners; with consistent counts that is also the sum of `cantidad_ganadores`. */
  lemma {:induction false} WinnerListsLength(results: seq<Played>)
    ensures |WinnerSheetIds(results)| == WinnersTotal(results) == |WinnerSlots(results)|
    ensures CountsAgree(results) ==> WinnerCountTotal(results) == WinnersTotal(results)
  {
    if results != [] {
      var init := results[..|results| - 1];
      WinnerListsLength(init);
      assert CountsAgree(results) ==> CountsAgree(init);
    }
  }

  /** The two gathering loops of calcular_estadisticas (both simulators). */
  method CollectWinners(results: seq<Played>) returns (ids: seq<string>, slots: seq<string>)
    ensures ids == WinnerSheetIds(results) && slots == WinnerSlots(results)
  {
    ids, slots := [], [];
    var i := 0;
    while i < |results|
      invariant 0 <= i <= |results|
      invariant ids == WinnerSheetIds(results[..i]) && slots == WinnerSlots(results[..i])
    {
      assert results[..i + 1][..i] == results[..i];
      var w := results[i].game.winners;
      var k := 0;
      ghost var ids0, slots0 := ids, slots;
      while k < |w|
        invariant 0 <= k <= |w|
        invariant ids == ids0 + seq(k, m requires 0 <= m < k => w[m].sheetId)
        invariant slots == slots0 + seq(k, m requires 0 <= m < k => SlotName(w[m].slot))
      {
        ids := ids + [w[k].sheetId];
        slots := slots + [SlotName(w[k].slot)];
        k := k + 1;
      }
      i := i + 1;
    }
    assert results[..i] == results;
  }

  /** EstadisticasSimulacion without the float fields. */
  datatype ServiceStats = ServiceStats(
    ballsMin: int, ballsMax: int, winnersMax: int,
    distribution: seq<Entry<int>>,
    sheetFrequency: seq<Entry<string>>, slotFrequency: seq<Entry<string>>,
    topSheet: (string, nat), topSlot: (string, nat))

  /** The service's calcular_estadisticas: `min` of an empty list raises ValueError. */
  function ServiceStatsOf(results: seq<Played>): Result<ServiceStats, PyException>
  {
    if results == [] then Failure(ValueError)
    else
      var sheets := Tally(WinnerSheetIds(results));
      var slots := Tally(WinnerSlots(results));
      Success(ServiceStats(
        MinOf(BallCounts(results)), MaxOf(BallCounts(results)), MaxOf(WinnerCounts(results)),
        Tally(WinnerCounts(results)), sheets, slots, Top(sheets), Top(slots)))
  }

  method CalculateServiceStats(results: seq<Played>) returns (r: Result<ServiceStats, PyException>)
    ensures r == ServiceStatsOf(results)
  {
    if results == [] {
      return Failure(ValueError);
    }
    var ids, slots := CollectWinners(results);
    var sheetFreq := Tally(ids);
    var slotFreq := Tally(slots);
    r := Success(ServiceStats(
      MinOf(BallCounts(results)), MaxOf(BallCounts(results)), MaxOf(WinnerCounts(results)),
      Tally(WinnerCounts(results)), sheetFreq, slotFreq, Top(sheetFreq), Top(slotFreq)));
  }

  /** The service's statistics, when the simulation played at least one game: the minimum and
      maximum are balls needed by some game and bound all games, the distribution has one
      count per game, and both frequency tables add up to the total number of winners. */
  lemma ServiceStatsFacts(results: seq<Played>)
    ensures ServiceStatsOf(results).Failure? <==> results == []
    ensures results == [] ==> ServiceStatsOf(results).error == ValueError
    ensures results != [] ==> (
      var s := ServiceStatsOf(results).value;
      (exists i :: 0 <= i < |results| && s.ballsMin == results[i].game.ballsDrawn)
      && (exists i :: 0 <= i < |results| && s.ballsMax == results[i].game.ballsDrawn)
      && s.ballsMin <= s.ballsMax
      && (forall i :: 0 <= i < |results| ==> s.ballsMin <= results[i].game.ballsDrawn <= s.ballsMax)
      && (forall i :: 0 <= i < |results| ==> results[i].game.winnerCount <= s.winnersMax)
      && Total(s.distribution) == |results|
      && Total(s.sheetFrequency) == WinnersTotal(results)
      && Total(s.slotFrequency) == WinnersTotal(results))
    ensures results != [] && CountsAgree(results) ==>
      Total(ServiceStatsOf(results).value.sheetFrequency) == WinnerCountTotal(results)
  {
    if results != [] {
      BallsRange(results);
      FrequencyTotals(results);
    }
  }

  /** The ball and winner extremes of the service's statistics. */
  lemma BallsRange(results: seq<Played>)
    requires results != []
    ensures var s := ServiceStatsOf(results).value;
      (exists i :: 0 <= i < |results| && s.ballsMin == results[i].game.ballsDrawn)
      && (exists i :: 0 <= i < |results| && s.ballsMax == results[i].game.ballsDrawn)
      && s.ballsMin <= s.ballsMax
      && (forall i :: 0 <= i < |results| ==> s.ballsMin <= results[i].game.ballsDrawn <= s.ballsMax)
      && (forall i :: 0 <= i < |results| ==> results[i].game.winnerCount <= s.winnersMax)
  {
    var s := ServiceStatsOf(results).value;
    var b := BallCounts(results);
    assert s.ballsMin == MinOf(b) && s.ballsMax == MaxOf(b);
    assert s.winnersMax == MaxOf(WinnerCounts(results));
    var i :| 0 <= i < |b| && b[i] == MinOf(b);
    var j :| 0 <= j < |b| && b[j] == MaxOf(b);
    assert results[i].game.ballsDrawn == s.ballsMin && results[j].game.ballsDrawn == s.ballsMax;
    forall k | 0 <= k < |results|
      ensures s.ballsMin <= results[k].game.ballsDrawn <= s.ballsMax
      ensures results[k].game.winnerCount <= s.winnersMax
    {
      assert b[k] == results[k].game.ballsDrawn;
      assert WinnerCounts(results)[k] == results[k].game.winnerCount;
    }
  }

  /** The totals of the service's three tables. */
  lemma FrequencyTotals(results: seq<Played>)
    requires results != []
    ensures Total(ServiceStatsOf(results).value.distribution) == |results|
    ensures Total(ServiceStatsOf(results).value.sheetFrequency) == WinnersTotal(results)
    ensures Total(ServiceStatsOf(results).value.slotFrequency) == WinnersTotal(results)
    ensures CountsAgree(results) ==>
      Total(ServiceStatsOf(results).value.sheetFrequency) == WinnerCountTotal(results)
  {
    TallyTotal(WinnerCounts(results));
    TallyTotal(WinnerSheetIds(results));
    TallyTotal(WinnerSlots(results));
    WinnerListsLength(results);
  }

  lemma TallyTotal<K>(xs: seq<K>)
    ensures Total(Tally(xs)) == |xs|
  {
    TallyCounts(xs);
  }

  /** top_bingo is ('N/A', 0) exactly when no game had a winner; otherwise it is a sheet with
      the largest number of wins (the first such sheet to win), with that number. */
  lemma TopSheetFacts(results: seq<Played>)
    requires results != []
    ensures ServiceStatsOf(results).value.topSheet == ("N/A", 0) <==> WinnersTotal(results) == 0
    ensures WinnersTotal(results) > 0 ==> (
      var t := ServiceStatsOf(results).value.topSheet;
      t.0 in WinnerSheetIds(results) && t.1 == multiset(WinnerSheetIds(results))[t.0]
      && forall x :: multiset(WinnerSheetIds(results))[x] <= t.1)
  {
    TopIsMode(WinnerSheetIds(results));
    WinnerListsLength(results);
  }

  /** top_carton, likewise for slots. */
  lemma TopSlotFacts(results: seq<Played>)
    requires results != []
    ensures ServiceStatsOf(results).value.topSlot == ("N/A", 0) <==> WinnersTotal(results) == 0
    ensures WinnersTotal(results) > 0 ==> (
      var t := ServiceStatsOf(results).value.topSlot;
      t.0 in WinnerSlots(results) && t.1 == multiset(WinnerSlots(results))[t.0]
      && forall x :: multiset(WinnerSlots(results))[x] <= t.1)
  {
    TopIsMode(WinnerSlots(results));
    WinnerListsLength(results);
  }

  /** `Counter(xs).most_common(1)`, with ('N/A', 0) for an empty list: an element of xs
      occurring at least as often as any other, with its number of occurrences. */
  lemma TopIsMode(xs: seq<string>)
    ensures Top(Tally(xs)) == ("N/A", 0) <==> xs == []
    ensures xs != [] ==> (var t := Top(Tally(xs));
      t.0 in xs && t.1 == multiset(xs)[t.0] && forall x :: multiset(xs)[x] <= t.1)
  {
    var f := Tally(xs);
    TallyCounts(xs);
    if xs != [] {
      assert xs[0] in Keys(f);
      var t := Top(f);
      var j :| 0 <= j < |f| && t == (f[j].key, f[j].count)
        && (forall i :: 0 <= i < |f| ==> f[i].count <= t.1);
      assert Keys(f)[j] == f[j].key;
      KeyedCount(f, j);
      forall x ensures multiset(xs)[x] <= t.1 {
        EntryBounds(f, x, t.1);
      }
    }
  }

  /** In a well-formed counter the count of a key is the count stored in its entry. */
  lemma {:induction false} KeyedCount<K>(entries: seq<Entry<K>>, j: int)
    requires WellFormed(entries) && 0 <= j < |entries|
    ensures CountOf(entries, entries[j].key) == entries[j].count
  {
    var rest := entries[1..];
    HeadAndRest(entries);
    if j == 0 {
      AbsentCount(rest, entries[0].key);
    } else {
      KeyedCount(rest, j - 1);
      assert Keys(entries)[0] != Keys(entries)[j];
    }
  }

  lemma {:induction false} AbsentCount<K>(entries: seq<Entry<K>>, x: K)
    requires x !in Keys(entries)
    ensures CountOf(entries, x) == 0
  {
    if entries != [] {
      HeadAndRest(entries);
      AbsentCount(entries[1..], x);
    }
  }

  /** A bound on every entry bounds every key's count. */
  lemma {:induction false} EntryBounds<K>(entries: seq<Entry<K>>, x: K, m: nat)
    requires WellFormed(entries)
    requires forall i :: 0 <= i < |entries| ==> entries[i].count <= m
    ensures CountOf(entries, x) <= m
  {
    if x in Keys(entries) {
      var j :| 0 <= j < |entries| && Keys(entries)[j] == x;
      KeyedCount(entries, j);
    } else {
      AbsentCount(entries, x);
    }
  }

  /** The command-line simulator's statistics without the float fields. */
  datatype CliStats = CliStats(
    ballsMin: int, ballsMax: int, winnersMin: int, winnersMax: int,
    distribution: seq<Entry<int>>,
    sheetFrequency: seq<Entry<string>>, slotFrequency: seq<Entry<string>>,
    totalGames: nat)

  function CliStatsOf(results: seq<Played>): Result<CliStats, PyException>
  {
    if results == [] then Failure(ValueError)
    else
      Success(CliStats(
        MinOf(BallCounts(results)), MaxOf(BallCounts(results)),
        MinOf(WinnerCounts(results)), MaxOf(WinnerCounts(results)),
        Tally(WinnerCounts(results)), Tally(WinnerSheetIds(results)), Tally(WinnerSlots(results)),
        |results|))
  }

  /** calcular_estadisticas of the command-line simulator. */
  method CalculateCliStats(results: seq<Played>) returns (r: Result<CliStats, PyException>)
    ensures r == CliStatsOf(results)
  {
    if results == [] {
      return Failure(ValueError);
    }
    var ids, slots := CollectWinners(results);
    var b := BallCounts(results);
    var c := WinnerCounts(results);
    r := Success(CliStats(MinOf(b), MaxOf(b), MinOf(c), MaxOf(c), Tally(c), Tally(ids), Tally(slots),
      |results|));
  }

  /** The command-line statistics agree with the service's on every field they share, the
      winner counts range from their minimum to their maximum, and the distribution counts
      add up to total_jugadas. */
  lemma CliMatchesService(results: seq<Played>)
    ensures CliStatsOf(results).Failure? <==> ServiceStatsOf(results).Failure?
    ensures results != [] ==> (
      var cli := CliStatsOf(results).value;
      var svc := ServiceStatsOf(results).value;
      cli.ballsMin == svc.ballsMin && cli.ballsMax == svc.ballsMax
      && cli.winnersMax == svc.winnersMax && cli.distribution == svc.distribution
      && cli.sheetFrequency == svc.sheetFrequency && cli.slotFrequency == svc.slotFrequency
      && cli.winnersMin <= cli.winnersMax
      && Total(cli.distribution) == cli.totalGames)
  {
    if results != [] {
      TallyCounts(WinnerCounts(results));
      var c := WinnerCounts(results);
      assert MinOf(c) <= c[0] <= MaxOf(c);
    }
  }
}
