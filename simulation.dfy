/** Whole simulations: the cards are read from the paired table's rows, a number of games is
    played, each on its own shuffled order of the balls 1..60, and the statistics are
    computed. The shuffle's choices for each game are inputs. */
module Simulation {
  import opened Support
  import opened CorelLoader
  import opened DrawEngine
  import opened Statistics

  /** `bolillas_totales` / BOLILLAS_TOTALES. */
  const TotalBalls := 60
  /** `numeros_por_carton` / NUMEROS_POR_CARTON: the hits that win. */
  const WinningHits := 10

  /** The choices of one shuffle per game. */
  predicate ValidShuffles(picks: seq<seq<int>>)
  {
    forall i :: 0 <= i < |picks| ==> ValidPicks(picks[i], TotalBalls)
  }

  /** The loop of ejecutar_simulacion (both simulators): `range(games)` games, game i played on
      order i and numbered i + 1. */
  method RunGames(cards: seq<LoadedCard>, orders: seq<seq<int>>, games: int, threshold: int)
    returns (results: seq<Played>)
    requires |orders| >= Max0(games)
    ensures |results| == Max0(games)
    ensures forall i :: 0 <= i < |results| ==>
      results[i] == Played(i + 1, Game(cards, orders[i], threshold))
  {
    results := [];
    var i := 0;
    while i < games
      invariant 0 <= i <= Max0(games)
      invariant |results| == i
      invariant forall k :: 0 <= k < i ==> results[k] == Played(k + 1, Game(cards, orders[k], threshold))
    {
      var g := PlayGame(cards, orders[i], threshold);
      results := results + [Played(i + 1, g)];
      i := i + 1;
    }
  }

  /** The draw order of each game, from its shuffle choices. */
  function Orders(picks: seq<seq<int>>, games: int): (orders: seq<seq<int>>)
    requires ValidShuffles(picks) && |picks| >= Max0(games)
    ensures |orders| == Max0(games)
  {
    seq(Max0(games), i requires 0 <= i < Max0(games) => BallOrder(TotalBalls, picks[i]))
  }

  /** Every game of a simulation draws between 1 and 60 balls, records exactly the balls it
      drew, agrees with its winner count, and stops at the first ball completing a card. */
  lemma SimulatedGamesFacts(cards: seq<LoadedCard>, picks: seq<seq<int>>, games: int, i: int)
    requires ValidShuffles(picks) && |picks| >= Max0(games) && 0 <= i < Max0(games)
    ensures var g := Game(cards, Orders(picks, games)[i], WinningHits);
      1 <= g.ballsDrawn <= TotalBalls
      && g.drawn == Orders(picks, games)[i][..g.ballsDrawn]
      && g.winnerCount == |g.winners|
      && NoDuplicates(g.drawn)
      && (forall s :: 0 <= s < g.ballsDrawn - 1 ==> WinnersAt(cards, Orders(picks, games)[i], s, WinningHits) == [])
  {
    var order := Orders(picks, games)[i];
    BallOrderIsPermutation(TotalBalls, picks[i]);
    GameShape(cards, order, WinningHits);
    NoEarlierWinner(cards, order, WinningHits);
    var g := Game(cards, order, WinningHits);
    assert forall a, b :: 0 <= a < b < |g.drawn| ==> g.drawn[a] == order[a] && g.drawn[b] == order[b];
  }

  /** ResultadoSimulacion: a load error is reported as a failed result; an empty simulation
      makes the statistics raise, which ejecutar_simulacion does not catch. */
  datatype ServiceRun =
    | LoadFailed(error: PyException)
    | Raised(error: PyException)
    | Completed(totalGames: int, stats: ServiceStats, results: seq<Played>)

  /** ejecutar_simulacion of the service, without the files and the chart data. */
  method RunServiceSimulation(rows: seq<seq<int>>, games: int, picks: seq<seq<int>>) returns (r: ServiceRun)
    requires ValidShuffles(picks) && |picks| >= Max0(games)
    ensures r.LoadFailed? <==> LoadAll(rows, AsRead).Failure?
    ensures r.LoadFailed? ==> r.error == LoadAll(rows, AsRead).error
    ensures r.Raised? <==> LoadAll(rows, AsRead).Success? && games <= 0
    ensures r.Raised? ==> r.error == ValueError
    ensures r.Completed? ==> (
      r.totalGames == games && |r.results| == games
      && (forall i :: 0 <= i < games ==>
            r.results[i] == Played(i + 1, Game(LoadAll(rows, AsRead).value, Orders(picks, games)[i], WinningHits)))
      && ServiceStatsOf(r.results) == Success(r.stats))
  {
    var loaded := LoadCards(rows, AsRead);
    if loaded.Failure? {
      return LoadFailed(loaded.error);
    }
    var results := RunGames(loaded.value, Orders(picks, games), games, WinningHits);
    var stats := CalculateServiceStats(results);
    if stats.Failure? {
      return Raised(stats.error);
    }
    return Completed(games, stats.value, results);
  }

  /** ejecutar_simulacion of the command-line simulator: the games only. */
  method RunCliSimulation(cards: seq<LoadedCard>, games: int, picks: seq<seq<int>>) returns (results: seq<Played>)
    requires ValidShuffles(picks) && |picks| >= Max0(games)
    ensures |results| == Max0(games)
    ensures forall i :: 0 <= i < |results| ==> results[i].number == i + 1
    ensures forall i :: 0 <= i < |results| ==>
      results[i].game == Game(cards, Orders(picks, games)[i], WinningHits)
    ensures CountsAgree(results)
  {
    results := RunGames(cards, Orders(picks, games), games, WinningHits);
  }
}
