/** One simulated game: balls are drawn in a given order, every card that holds the ball
    records a hit, and the game stops after the first ball that brings one or more cards to
    the winning number of hits. The random order is an input: either given directly or
    produced from the choices `random.shuffle` makes. */
module DrawEngine {
  import opened Support
  import opened CorelLoader

  /** A winning card, as the simulators record it. */
  datatype Winner = Winner(sheetId: string, slot: Slot)

  /** simular_jugada's result: the balls drawn until the first win, the winners of that ball,
      their number and the balls drawn, in order. */
  datatype GameResult = GameResult(ballsDrawn: nat, winners: seq<Winner>, winnerCount: nat, drawn: seq<int>)

  /** A card's hits once the given balls have been drawn. */
  function Hits(c: LoadedCard, drawn: seq<int>): set<int>
  {
    c.numbers * Elems(drawn)
  }

  /** Ball t is the one that brings card c to `threshold` hits. */
  predicate Completes(c: LoadedCard, order: seq<int>, t: nat, threshold: int)
    requires t < |order|
  {
    order[t] in c.numbers && |Hits(c, order[..t + 1])| == threshold
  }

  function WinnerOf(c: LoadedCard): Winner
  {
    Winner(c.sheetId, c.slot)
  }

  /** The cards that ball t completes, in card order. */
  function WinnersAt(cards: seq<LoadedCard>, order: seq<int>, t: nat, threshold: int): (w: seq<Winner>)
    requires t < |order|
    ensures |w| <= |cards|
  {
    if cards == [] then []
    else
      var last := cards[|cards| - 1];
      WinnersAt(cards[..|cards| - 1], order, t, threshold)
        + (if Completes(last, order, t, threshold) then [WinnerOf(last)] else [])
  }

  /** How many balls are drawn when the balls before t completed no card. */
  function BallsFrom(cards: seq<LoadedCard>, order: seq<int>, threshold: int, t: nat): (b: nat)
    requires t <= |order|
    ensures t <= b <= |order|
    decreases |order| - t
  {
    if t == |order| then |order|
    else if WinnersAt(cards, order, t, threshold) != [] then t + 1
    else BallsFrom(cards, order, threshold, t + 1)
  }

  /** The game as a function of the cards and the draw order. */
  function Game(cards: seq<LoadedCard>, order: seq<int>, threshold: int): GameResult
  {
    var b := BallsFrom(cards, order, threshold, 0);
    var w := if b == 0 then [] else WinnersAt(cards, order, b - 1, threshold);
    GameResult(b, w, |w|, order[..b])
  }

  /** simular_jugada: for each ball, count it, mark it on every card that holds it and record
      every card whose hit count becomes exactly `threshold`; stop once some card won. The
      service passes `numeros_por_carton` as the threshold, the command-line simulator 10. */
  method PlayGame(cards: seq<LoadedCard>, order: seq<int>, threshold: int) returns (g: GameResult)
    ensures g == Game(cards, order, threshold)
  {
    var hits: seq<set<int>> := seq(|cards|, k => {});
    var balls := 0;
    assert order[..0] == [];
    while balls < |order|
      invariant 0 <= balls <= |order|
      invariant HitsTracked(cards, hits, order[..balls])
      invariant balls > 0 ==> WinnersAt(cards, order, balls - 1, threshold) == []
      invariant BallsFrom(cards, order, threshold, 0) == BallsFrom(cards, order, threshold, balls)
    {
      var winners;
      hits, winners := DrawBall(cards, hits, order, balls, threshold);
      if winners != [] {
        GameEndsAt(cards, order, threshold, balls);
        return GameResult(balls + 1, winners, |winners|, order[..balls + 1]);
      }
      assert BallsFrom(cards, order, threshold, balls) == BallsFrom(cards, order, threshold, balls + 1);
      balls := balls + 1;
    }
    GameRunsOut(cards, order, threshold);
    return GameResult(balls, [], 0, order[..balls]);
  }

  /** A game whose first win comes with ball t draws t + 1 balls and reports that ball's
      winners. */
  lemma GameEndsAt(cards: seq<LoadedCard>, order: seq<int>, threshold: int, t: nat)
    requires t < |order| && WinnersAt(cards, order, t, threshold) != []
    requires BallsFrom(cards, order, threshold, 0) == BallsFrom(cards, order, threshold, t)
    ensures Game(cards, order, threshold) == GameResult(t + 1, WinnersAt(cards, order, t, threshold),
      |WinnersAt(cards, order, t, threshold)|, order[..t + 1])
  {
    assert BallsFrom(cards, order, threshold, t) == t + 1;
  }

  /** A game in which no ball but possibly the last one was reached without a win draws
      every ball and reports no winners. */
  lemma GameRunsOut(cards: seq<LoadedCard>, order: seq<int>, threshold: int)
    requires BallsFrom(cards, order, threshold, 0) == BallsFrom(cards, order, threshold, |order|)
    requires |order| > 0 ==> WinnersAt(cards, order, |order| - 1, threshold) == []
    ensures Game(cards, order, threshold) == GameResult(|order|, [], 0, order[..|order|])
  {
  }

  /** The hit sets kept beside the cards: each card's hits among the given balls. */
  ghost predicate HitsTracked(cards: seq<LoadedCard>, hits: seq<set<int>>, drawn: seq<int>)
  {
    |hits| == |cards| && forall k :: 0 <= k < |cards| ==> hits[k] == Hits(cards[k], drawn)
  }

  /** One iteration of simular_jugada's ball loop: ball t is marked on every card holding it,
      in card order, and the cards it completes are collected. */
  method DrawBall(cards: seq<LoadedCard>, hits: seq<set<int>>, order: seq<int>, t: nat, threshold: int)
    returns (hits': seq<set<int>>, winners: seq<Winner>)
    requires t < |order| && HitsTracked(cards, hits, order[..t])
    ensures HitsTracked(cards, hits', order[..t + 1])
    ensures winners == WinnersAt(cards, order, t, threshold)
  {
    var ball := order[t];
    hits' := hits;
    winners := [];
    var k := 0;
    while k < |cards|
      invariant 0 <= k <= |cards|
      invariant |hits'| == |cards|
      invariant forall j :: 0 <= j < k ==> hits'[j] == Hits(cards[j], order[..t + 1])
      invariant forall j :: k <= j < |cards| ==> hits'[j] == hits[j]
      invariant winners == WinnersAt(cards[..k], order, t, threshold)
    {
      assert cards[..k + 1][..k] == cards[..k];
      HitsStep(cards[k], order, t);
      if ball in cards[k].numbers {
        hits' := hits'[k := hits'[k] + {ball}];
        if |hits'[k]| == threshold {
          winners := winners + [Winner(cards[k].sheetId, cards[k].slot)];
        }
      }
      k := k + 1;
    }
    assert cards[..k] == cards;
  }

  /** Drawing one more ball adds it to the hits of a card exactly when the card holds it. */
  lemma HitsStep(c: LoadedCard, order: seq<int>, t: nat)
    requires t < |order|
    ensures Hits(c, order[..t + 1]) ==
      if order[t] in c.numbers then Hits(c, order[..t]) + {order[t]} else Hits(c, order[..t])
  {
    assert order[..t + 1] == order[..t] + [order[t]];
  }

  /** A card is among the winners of ball t exactly when ball t completes it. */
  lemma {:induction false} WinnersAtMembers(cards: seq<LoadedCard>, order: seq<int>, t: nat, threshold: int)
    requires t < |order|
    ensures forall w :: w in WinnersAt(cards, order, t, threshold) <==>
      exists i :: 0 <= i < |cards| && Completes(cards[i], order, t, threshold) && w == WinnerOf(cards[i])
  {
    if cards != [] {
      var init := cards[..|cards| - 1];
      WinnersAtMembers(init, order, t, threshold);
      assert forall i :: 0 <= i < |init| ==> init[i] == cards[i];
    }
  }

  /** A card that ball t completes is listed among that ball's winners. */
  lemma {:induction false} CompletedIsListed(cards: seq<LoadedCard>, order: seq<int>, t: nat, threshold: int, i: int)
    requires t < |order| && 0 <= i < |cards|
    ensures Completes(cards[i], order, t, threshold) ==> WinnerOf(cards[i]) in WinnersAt(cards, order, t, threshold)
  {
    if i < |cards| - 1 {
      var init := cards[..|cards| - 1];
      CompletedIsListed(init, order, t, threshold, i);
      assert init[i] == cards[i];
    }
  }

  /** The number of balls drawn lies between 1 and the length of the order (when there is at
      least one ball), and the recorded balls are the prefix of that length. */
  lemma GameShape(cards: seq<LoadedCard>, order: seq<int>, threshold: int)
    ensures Game(cards, order, threshold).ballsDrawn <= |order|
    ensures |order| > 0 ==> Game(cards, order, threshold).ballsDrawn >= 1
    ensures Game(cards, order, threshold).drawn == order[..Game(cards, order, threshold).ballsDrawn]
    ensures Game(cards, order, threshold).winnerCount == |Game(cards, order, threshold).winners|
  {
    if |order| > 0 {
      assert BallsFrom(cards, order, threshold, 0) >= 1;
    }
  }

  /** The game stops at the first ball that completes some card: the balls before it complete
      none, and if it stops early the last ball completes one. */
  lemma {:induction false} StopsAtFirstWin(cards: seq<LoadedCard>, order: seq<int>, threshold: int, t: nat)
    requires t <= |order|
    requires forall s :: 0 <= s < t ==> WinnersAt(cards, order, s, threshold) == []
    ensures forall s :: 0 <= s < BallsFrom(cards, order, threshold, t) - 1 ==>
      WinnersAt(cards, order, s, threshold) == []
    ensures BallsFrom(cards, order, threshold, t) < |order| ==>
      WinnersAt(cards, order, BallsFrom(cards, order, threshold, t) - 1, threshold) != []
    decreases |order| - t
  {
    var b := BallsFrom(cards, order, threshold, t);
    if t == |order| {
      assert b == t;
    } else if WinnersAt(cards, order, t, threshold) != [] {
      assert b == t + 1;
    } else {
      assert b == BallsFrom(cards, order, threshold, t + 1);
      StopsAtFirstWin(cards, order, threshold, t + 1);
    }
  }

  /** Besides the last ball, no ball of the game completes a card; a game that uses up the
      order without a winner ends with no winners. */
  lemma NoEarlierWinner(cards: seq<LoadedCard>, order: seq<int>, threshold: int)
    ensures forall s :: 0 <= s < Game(cards, order, threshold).ballsDrawn - 1 ==>
      WinnersAt(cards, order, s, threshold) == []
    ensures Game(cards, order, threshold).winners == [] ==>
      Game(cards, order, threshold).ballsDrawn == |order|
  {
    StopsAtFirstWin(cards, order, threshold, 0);
  }

  /** With a positive threshold, hit counts grow one ball at a time, so while no ball has
      completed a card every card stays below the threshold. */
  lemma {:induction false} BelowThreshold(cards: seq<LoadedCard>, order: seq<int>, threshold: int, t: nat, i: int)
    requires threshold >= 1 && t <= |order| && 0 <= i < |cards|
    requires forall s :: 0 <= s < t ==> WinnersAt(cards, order, s, threshold) == []
    ensures |Hits(cards[i], order[..t])| < threshold
  {
    if t == 0 {
      assert Hits(cards[i], order[..0]) == {};
    } else {
      BelowThreshold(cards, order, threshold, t - 1, i);
      HitsStep(cards[i], order, t - 1);
      CompletedIsListed(cards, order, t - 1, threshold, i);
      if order[t - 1] in cards[i].numbers {
        SubsetCard(Hits(cards[i], order[..t]), Hits(cards[i], order[..t - 1]) + {order[t - 1]});
      }
    }
  }

  /** With a positive threshold the winners of a game are exactly the cards that hold
      `threshold` of the drawn balls; when a card has exactly `threshold` numbers, winning
      means all of them were drawn. */
  lemma WinnersHoldThreshold(cards: seq<LoadedCard>, order: seq<int>, threshold: int, i: int)
    requires threshold >= 1 && 0 <= i < |cards|
    requires Game(cards, order, threshold).winners != []
    ensures WinnerOf(cards[i]) in Game(cards, order, threshold).winners <==>
      exists j :: 0 <= j < |cards| && WinnerOf(cards[j]) == WinnerOf(cards[i])
        && |Hits(cards[j], Game(cards, order, threshold).drawn)| == threshold
    ensures (|cards[i].numbers| == threshold
        && |Hits(cards[i], Game(cards, order, threshold).drawn)| == threshold) ==>
      cards[i].numbers <= Elems(Game(cards, order, threshold).drawn)
  {
    var g := Game(cards, order, threshold);
    var b := g.ballsDrawn;
    NoEarlierWinner(cards, order, threshold);
    WinnersAtMembers(cards, order, b - 1, threshold);
    assert g.drawn == order[..b];
    forall j | 0 <= j < |cards|
      ensures Completes(cards[j], order, b - 1, threshold) <==> |Hits(cards[j], order[..b])| == threshold
    {
      BelowThreshold(cards, order, threshold, b - 1, j);
      HitsStep(cards[j], order, b - 1);
    }
    if |cards[i].numbers| == threshold && |Hits(cards[i], g.drawn)| == threshold {
      SubsetEqualCard(Hits(cards[i], g.drawn), cards[i].numbers);
    }
  }

  /** A subset as large as the whole set is the whole set. */
  lemma SubsetEqualCard(a: set<int>, b: set<int>)
    requires a <= b && |a| == |b|
    ensures a == b
  {
    var d := b - a;
    assert b == a + d && a * d == {};
    assert |d| == 0;
  }

  /** The two-element exchange `x[i], x[j] = x[j], x[i]`. */
  function Swap(xs: seq<int>, i: int, j: int): (r: seq<int>)
    requires 0 <= i < |xs| && 0 <= j < |xs|
    ensures |r| == |xs|
  {
    xs[i := xs[j]][j := xs[i]]
  }

  /** The choices `random.shuffle` makes: for each position i from the last down to 1 an
      index in [0, i] (`_randbelow(i + 1)`). Position 0 is unused. */
  predicate ValidPicks(picks: seq<int>, n: nat)
  {
    |picks| == n && forall i :: 1 <= i < n ==> 0 <= picks[i] <= i
  }

  /** The shuffle's loop from position i down to 1. */
  function ShuffleDown(xs: seq<int>, picks: seq<int>, i: nat): (r: seq<int>)
    requires ValidPicks(picks, |xs|) && i < |xs|
    ensures |r| == |xs|
    decreases i
  {
    if i == 0 then xs else ShuffleDown(Swap(xs, i, picks[i]), picks, i - 1)
  }

  function Shuffle(xs: seq<int>, picks: seq<int>): (r: seq<int>)
    requires ValidPicks(picks, |xs|)
  {
    if |xs| <= 1 then xs else ShuffleDown(xs, picks, |xs| - 1)
  }

  /** generar_orden_bolillas and the first lines of simular_jugada: the balls 1..total in a
      shuffled order. */
  function BallOrder(total: nat, picks: seq<int>): seq<int>
    requires ValidPicks(picks, total)
  {
    Shuffle(Range(1, total + 1), picks)
  }

  /** An exchange keeps the values and their distinctness. */
  lemma SwapKeeps(xs: seq<int>, i: int, j: int)
    requires 0 <= i < |xs| && 0 <= j < |xs|
    ensures multiset(Swap(xs, i, j)) == multiset(xs)
    ensures Elems(Swap(xs, i, j)) == Elems(xs)
    ensures NoDuplicates(xs) ==> NoDuplicates(Swap(xs, i, j))
  {
    var r := Swap(xs, i, j);
    forall k | 0 <= k < |xs| ensures xs[k] in r {
      if k == i {
        assert r[j] == xs[k];
      } else if k == j {
        assert r[i] == xs[k];
      } else {
        assert r[k] == xs[k];
      }
    }
    if NoDuplicates(xs) {
      forall a, b | 0 <= a < b < |r| ensures r[a] != r[b] {
        var a' := if a == j then i else if a == i then j else a;
        var b' := if b == j then i else if b == i then j else b;
        assert r[a] == xs[a'] && r[b] == xs[b'];
      }
    }
  }

  lemma {:induction false} ShuffleDownKeeps(xs: seq<int>, picks: seq<int>, i: nat)
    requires ValidPicks(picks, |xs|) && i < |xs|
    ensures multiset(ShuffleDown(xs, picks, i)) == multiset(xs)
    ensures Elems(ShuffleDown(xs, picks, i)) == Elems(xs)
    ensures NoDuplicates(xs) ==> NoDuplicates(ShuffleDown(xs, picks, i))
    decreases i
  {
    if i > 0 {
      SwapKeeps(xs, i, picks[i]);
      ShuffleDownKeeps(Swap(xs, i, picks[i]), picks, i - 1);
    }
  }

  /** Whatever choices the shuffle makes, the draw order is a permutation of 1..total: it has
      total balls, none twice, and every ball of 1..total. */
  lemma BallOrderIsPermutation(total: nat, picks: seq<int>)
    requires ValidPicks(picks, total)
    ensures |BallOrder(total, picks)| == total
    ensures NoDuplicates(BallOrder(total, picks))
    ensures Elems(BallOrder(total, picks)) == Interval(1, total + 1)
    ensures multiset(BallOrder(total, picks)) == multiset(Range(1, total + 1))
  {
    var xs := Range(1, total + 1);
    RangeMembers(1, total + 1);
    if |xs| > 1 {
      ShuffleDownKeeps(xs, picks, |xs| - 1);
    }
  }
}
