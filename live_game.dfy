/** A live game: the cards of a paired table, the balls called so far, the balls still
    available, the winners and whether the game is over. Calling a ball marks it on every card
    holding it, undoing takes the last ball back, and resetting starts over with the same
    cards. A registry keeps the games that are in progress by ID. */
module LiveGame {
  import opened Support
  import opened CorelLoader

  /** The balls of a live game, 1..60. */
  const FirstBall := 1
  const LastBall := 60

  /** The hits a card needs to win the live game. */
  const WinningHits := 10

  /** The hit set after marking n: n is added exactly when the card holds it. */
  function Marked(hits: set<int>, numbers: set<int>, n: int): (r: set<int>)
    ensures n in numbers ==> r == hits + {n}
    ensures n !in numbers ==> r == hits
  {
    if n in numbers then hits + {n} else hits
  }

  /** Carton: a card of a sheet, with the numbers called so far that it holds. */
  class Card {
    const sheetId: string
    const slot: Slot
    const numbers: set<int>
    var hits: set<int>

    constructor(sheetId: string, slot: Slot, numbers: set<int>)
      ensures this.sheetId == sheetId && this.slot == slot && this.numbers == numbers
      ensures hits == {}
    {
      this.sheetId := sheetId;
      this.slot := slot;
      this.numbers := numbers;
      hits := {};
    }

    /** cantidad_aciertos */
    function HitCount(): nat
      reads this
    {
      |hits|
    }

    /** es_ganador: at least ten hits, whatever the card's size. */
    predicate IsWinner()
      reads this
    {
      HitCount() >= WinningHits
    }

    /** id_completo: "<sheet>-<slot>". */
    function FullId(): string
    {
      sheetId + "-" + SlotName(slot)
    }

    /** marcar_numero: reports whether the card holds n, and marks it if so. */
    method Mark(n: int) returns (hit: bool)
      modifies this
      ensures hit <==> n in numbers
      ensures hits == Marked(old(hits), numbers, n)
      ensures old(hits) <= numbers ==> hits <= numbers
    {
      if n in numbers {
        hits := hits + {n};
        return true;
      }
      return false;
    }

    /** desmarcar_numero: reports whether n was marked, and unmarks it. */
    method Unmark(n: int) returns (was: bool)
      modifies this
      ensures was <==> n in old(hits)
      ensures hits == old(hits) - {n}
    {
      if n in hits {
        hits := hits - {n};
        return true;
      }
      return false;
    }
  }

  /** to_dict of a card: the numbers and hits as sets (the source lists them sorted). */
  datatype CardView = CardView(sheetId: string, slot: Slot, fullId: string, numbers: set<int>,
    hits: set<int>, hitCount: nat, isWinner: bool)

  function View(c: Card): (v: CardView)
    reads c
    ensures v.isWinner <==> v.hitCount >= WinningHits
    ensures v.isWinner <==> c.IsWinner()
  {
    CardView(c.sheetId, c.slot, c.FullId(), c.numbers, c.hits, c.HitCount(), c.IsWinner())
  }

  /** The cards' views, in card order. */
  function Views(cs: seq<Card>): (vs: seq<CardView>)
    reads cs
    ensures |vs| == |cs|
  {
    seq(|cs|, i requires 0 <= i < |cs| reads cs => View(cs[i]))
  }

  /** A card's view after it marks n. */
  function MarkView(v: CardView, n: int): CardView
  {
    var h := Marked(v.hits, v.numbers, n);
    CardView(v.sheetId, v.slot, v.fullId, v.numbers, h, |h|, |h| >= WinningHits)
  }

  /** A card's view after it unmarks n. */
  function UnmarkView(v: CardView, n: int): CardView
  {
    var h := v.hits - {n};
    CardView(v.sheetId, v.slot, v.fullId, v.numbers, h, |h|, |h| >= WinningHits)
  }

  /** The views after every card marks n. */
  function MarkedViews(vs: seq<CardView>, n: int): (ws: seq<CardView>)
    ensures |ws| == |vs|
  {
    seq(|vs|, i requires 0 <= i < |vs| => MarkView(vs[i], n))
  }

  /** The views after every card unmarks n. */
  function UnmarkedViews(vs: seq<CardView>, n: int): (ws: seq<CardView>)
    ensures |ws| == |vs|
  {
    seq(|vs|, i requires 0 <= i < |vs| => UnmarkView(vs[i], n))
  }

  /** Every card's hits are the balls of the given set that it holds. */
  predicate HitsAre(vs: seq<CardView>, balls: set<int>)
  {
    forall i :: 0 <= i < |vs| ==> vs[i].hits == vs[i].numbers * balls
  }

  /** Every view's hit count and winner flag agree with its hits, as a card's do. */
  predicate Consistent(vs: seq<CardView>)
  {
    forall i :: 0 <= i < |vs| ==>
      vs[i].hitCount == |vs[i].hits| && (vs[i].isWinner <==> vs[i].hitCount >= WinningHits)
  }

  lemma ViewsConsistent(cs: seq<Card>)
    ensures Consistent(Views(cs))
  {
    assert forall i :: 0 <= i < |cs| ==> Views(cs)[i] == View(cs[i]);
  }

  /** Marking a newly called ball keeps every card's hits equal to the called balls it holds. */
  lemma {:induction false} MarkKeepsHits(vs: seq<CardView>, balls: set<int>, n: int)
    requires HitsAre(vs, balls)
    ensures HitsAre(MarkedViews(vs, n), balls + {n})
  {
    var ws := MarkedViews(vs, n);
    forall i | 0 <= i < |ws| ensures ws[i].hits == ws[i].numbers * (balls + {n}) {
      MarkedCalled(vs[i].hits, vs[i].numbers, balls, n);
    }
  }

  /** Unmarking a ball taken back keeps every card's hits equal to the called balls it holds. */
  lemma {:induction false} UnmarkKeepsHits(vs: seq<CardView>, balls: set<int>, n: int)
    requires HitsAre(vs, balls)
    ensures HitsAre(UnmarkedViews(vs, n), balls - {n})
  {
    var ws := UnmarkedViews(vs, n);
    forall i | 0 <= i < |ws| ensures ws[i].hits == ws[i].numbers * (balls - {n}) {
      UnmarkedCalled(vs[i].hits, vs[i].numbers, balls, n);
    }
  }

  /** Unmarking a ball that no card had marked before it was marked gives the cards back as
      they were. */
  lemma {:induction false} UnmarkUndoesMark(vs: seq<CardView>, balls: set<int>, n: int)
    requires HitsAre(vs, balls) && Consistent(vs) && n !in balls
    ensures UnmarkedViews(MarkedViews(vs, n), n) == vs
  {
    var ws := UnmarkedViews(MarkedViews(vs, n), n);
    forall i | 0 <= i < |vs| ensures ws[i] == vs[i] {
      assert n !in vs[i].hits;
      assert ws[i].hits == vs[i].hits;
    }
  }

  /** Positions of cards that have won. */
  predicate AtWinners(vs: seq<CardView>, ps: seq<int>)
  {
    forall k :: 0 <= k < |ps| ==> 0 <= ps[k] < |vs| && vs[ps[k]].isWinner
  }

  /** The equality of two cards as dataclasses: all four fields equal. */
  predicate SameCard(a: Card, b: Card)
    reads a, b
  {
    a.sheetId == b.sheetId && a.slot == b.slot && a.numbers == b.numbers && a.hits == b.hits
  }

  /** Two cards are equal as dataclasses exactly when their views are. */
  lemma SameCardIsSameView(a: Card, b: Card)
    ensures SameCard(a, b) <==> View(a) == View(b)
  {
    if View(a) == View(b) {
      assert View(a).hits == a.hits && View(b).hits == b.hits;
    }
  }

  /** `c in cs` on a list of dataclasses, which compares by value. */
  predicate ContainsSame(cs: seq<Card>, c: Card)
    reads cs, c
  {
    exists j :: 0 <= j < |cs| && View(cs[j]) == View(c)
  }

  /** Some card has won. */
  predicate AnyWinner(vs: seq<CardView>)
  {
    exists i :: 0 <= i < |vs| && vs[i].isWinner
  }

  /** The positions of the winners a call collects, in card order: each winning card unless
      an equal card was collected before it. */
  function CollectedAt(vs: seq<CardView>): (ps: seq<int>)
    ensures |ps| <= |vs|
    ensures forall k :: 0 <= k < |ps| ==> 0 <= ps[k] < |vs| && vs[ps[k]].isWinner
  {
    if vs == [] then []
    else
      var init := vs[..|vs| - 1];
      var ps := CollectedAt(init);
      var v := vs[|vs| - 1];
      if v.isWinner && !HasEqual(init, ps, v) then ps + [|vs| - 1] else ps
  }

  /** Some of the given positions holds a card equal to v. */
  predicate HasEqual(vs: seq<CardView>, ps: seq<int>, v: CardView)
  {
    exists k :: 0 <= k < |ps| && 0 <= ps[k] < |vs| && vs[ps[k]] == v
  }

  /** The positions of `[c for c in cartones if c.es_ganador]`, the winners after an undo. */
  function WinningAt(vs: seq<CardView>): (ps: seq<int>)
    ensures |ps| <= |vs|
    ensures forall k :: 0 <= k < |ps| ==> 0 <= ps[k] < |vs| && vs[ps[k]].isWinner
  {
    if vs == [] then []
    else WinningAt(vs[..|vs| - 1]) + (if vs[|vs| - 1].isWinner then [|vs| - 1] else [])
  }

  /** The cards at the given positions. */
  function Pick(cs: seq<Card>, ps: seq<int>): (picked: seq<Card>)
    requires forall k :: 0 <= k < |ps| ==> 0 <= ps[k] < |cs|
    ensures |picked| == |ps|
  {
    seq(|ps|, k requires 0 <= k < |ps| => cs[ps[k]])
  }

  /** The undo collection lists exactly the winning cards, in card order. */
  lemma {:induction false} WinningAtExactly(vs: seq<CardView>)
    ensures StrictlyIncreasing(WinningAt(vs))
    ensures forall i :: 0 <= i < |vs| ==> (i in WinningAt(vs) <==> vs[i].isWinner)
  {
    if vs != [] {
      var init := vs[..|vs| - 1];
      var w := WinningAt(init);
      WinningAtExactly(init);
      assert WinningAt(vs) == w + (if vs[|vs| - 1].isWinner then [|vs| - 1] else []);
      forall i | 0 <= i < |vs| ensures i in WinningAt(vs) <==> vs[i].isWinner {
        if i < |init| {
          assert init[i] == vs[i];
        } else {
          assert i !in w;
        }
      }
    }
  }

  /** The call collection lists winning cards in card order, no two of them equal. */
  lemma {:induction false} CollectedAtDistinct(vs: seq<CardView>)
    ensures StrictlyIncreasing(CollectedAt(vs))
    ensures forall a, b :: 0 <= a < b < |CollectedAt(vs)| ==> vs[CollectedAt(vs)[a]] != vs[CollectedAt(vs)[b]]
  {
    if vs != [] {
      var init := vs[..|vs| - 1];
      CollectedAtDistinct(init);
      var ps := CollectedAt(init);
      var qs := CollectedAt(vs);
      assert forall k :: 0 <= k < |ps| ==> ps[k] < |init| && vs[ps[k]] == init[ps[k]];
      if qs != ps {
        assert qs == ps + [|vs| - 1];
        assert forall k :: 0 <= k < |ps| ==> init[ps[k]] != vs[|vs| - 1];
      }
    }
  }

  /** Some position at or before i that the call collects holds a card equal to card i. */
  predicate CoveredBy(vs: seq<CardView>, ps: seq<int>, i: int)
    requires 0 <= i < |vs|
  {
    exists k :: 0 <= k < |ps| && 0 <= ps[k] <= i && vs[ps[k]] == vs[i]
  }

  /** Every winning card is equal to one the call collects at or before its position. */
  lemma {:induction false} CollectedAtCovers(vs: seq<CardView>)
    ensures forall i {:trigger CoveredBy(vs, CollectedAt(vs), i)} ::
      0 <= i < |vs| && vs[i].isWinner ==> CoveredBy(vs, CollectedAt(vs), i)
  {
    if vs != [] {
      var init := vs[..|vs| - 1];
      CollectedAtCovers(init);
      CollectedAtExtends(vs);
      forall i | 0 <= i < |vs| && vs[i].isWinner
        ensures CoveredBy(vs, CollectedAt(vs), i)
      {
        if i < |init| {
          assert init[i] == vs[i];
          assert CoveredBy(init, CollectedAt(init), i);
          CoveredPrefix(vs, init, CollectedAt(init), CollectedAt(vs), i);
        } else {
          CoveredLast(vs);
        }
      }
    }
  }

  /** The collection over all cards extends the one over all but the last card. */
  lemma CollectedAtExtends(vs: seq<CardView>)
    requires vs != []
    ensures |CollectedAt(vs[..|vs| - 1])| <= |CollectedAt(vs)|
    ensures forall k :: 0 <= k < |CollectedAt(vs[..|vs| - 1])| ==>
      CollectedAt(vs)[k] == CollectedAt(vs[..|vs| - 1])[k]
  {
  }

  /** A card covered among the first cards stays covered. */
  lemma CoveredPrefix(vs: seq<CardView>, init: seq<CardView>, ps: seq<int>, qs: seq<int>, i: int)
    requires 0 <= i < |init| <= |vs| && init == vs[..|init|]
    requires |ps| <= |qs| && forall k :: 0 <= k < |ps| ==> qs[k] == ps[k]
    requires CoveredBy(init, ps, i)
    ensures CoveredBy(vs, qs, i)
  {
    var k :| 0 <= k < |ps| && 0 <= ps[k] <= i && init[ps[k]] == init[i];
    assert qs[k] == ps[k];
  }

  /** The last card, if it has won, is covered. */
  lemma CoveredLast(vs: seq<CardView>)
    requires vs != [] && vs[|vs| - 1].isWinner
    ensures CoveredBy(vs, CollectedAt(vs), |vs| - 1)
  {
    var init := vs[..|vs| - 1];
    var ps := CollectedAt(init);
    var qs := CollectedAt(vs);
    if HasEqual(init, ps, vs[|vs| - 1]) {
      var k :| 0 <= k < |ps| && 0 <= ps[k] < |init| && init[ps[k]] == vs[|vs| - 1];
      assert qs[k] == ps[k];
    } else {
      assert qs[|ps|] == |vs| - 1;
    }
  }

  /** Both ways of collecting winners find one exactly when some card has won. */
  lemma WinnersFound(vs: seq<CardView>)
    ensures CollectedAt(vs) != [] <==> AnyWinner(vs)
    ensures WinningAt(vs) != [] <==> AnyWinner(vs)
  {
    CollectedAtCovers(vs);
    WinningAtExactly(vs);
    if AnyWinner(vs) {
      var i :| 0 <= i < |vs| && vs[i].isWinner;
      assert i in WinningAt(vs);
      assert CoveredBy(vs, CollectedAt(vs), i);
    }
  }

  /** An entry of aciertos_nuevos: a card that held the called ball and its new hit count. */
  datatype NewHit = NewHit(card: string, hits: nat)

  /** The cards holding n, in card order, with their hit counts. */
  function NewHitsOf(vs: seq<CardView>, n: int): (h: seq<NewHit>)
    ensures |h| <= |vs|
  {
    if vs == [] then []
    else
      var v := vs[|vs| - 1];
      NewHitsOf(vs[..|vs| - 1], n) + (if n in v.numbers then [NewHit(v.fullId, v.hitCount)] else [])
  }

  /** aciertos_nuevos has an entry for each card holding the ball, with that card's ID and
      hit count, and no other entry. */
  lemma {:induction false} NewHitsOfMembers(vs: seq<CardView>, n: int)
    ensures forall e :: e in NewHitsOf(vs, n) <==>
      exists i :: 0 <= i < |vs| && n in vs[i].numbers && e == NewHit(vs[i].fullId, vs[i].hitCount)
  {
    if vs != [] {
      var init := vs[..|vs| - 1];
      NewHitsOfMembers(init, n);
      assert forall i :: 0 <= i < |init| ==> init[i] == vs[i];
    }
  }

  /** An entry of obtener_ranking. */
  datatype RankEntry = RankEntry(fullId: string, sheetId: string, slot: Slot, hits: nat, isWinner: bool)

  function Entry(v: CardView): (e: RankEntry)
    ensures e.hits == v.hitCount && e.fullId == v.fullId
  {
    RankEntry(v.fullId, v.sheetId, v.slot, v.hitCount, v.isWinner)
  }

  function RankEntries(vs: seq<CardView>): (es: seq<RankEntry>)
    ensures |es| == |vs|
  {
    seq(|vs|, i requires 0 <= i < |vs| => Entry(vs[i]))
  }

  /** Hit counts never increase along the sequence. */
  predicate ByHitsDescending(es: seq<RankEntry>)
  {
    forall i, j :: 0 <= i < j < |es| ==> es[i].hits >= es[j].hits
  }

  /** The entries with exactly h hits, in their order. */
  function WithHits(es: seq<RankEntry>, h: nat): seq<RankEntry>
  {
    if es == [] then []
    else (if es[0].hits == h then [es[0]] else []) + WithHits(es[1..], h)
  }

  /** Places e after every entry with at least as many hits. */
  function InsertByHits(es: seq<RankEntry>, e: RankEntry): seq<RankEntry>
  {
    if es == [] then [e]
    else if es[0].hits < e.hits then [e] + es
    else [es[0]] + InsertByHits(es[1..], e)
  }

  /** `sorted(..., key=cantidad_aciertos, reverse=True)`, a stable sort. */
  function SortByHits(es: seq<RankEntry>): seq<RankEntry>
  {
    if es == [] then [] else InsertByHits(SortByHits(es[..|es| - 1]), es[|es| - 1])
  }

  lemma {:induction false} WithHitsBelow(es: seq<RankEntry>, h: nat)
    requires forall i :: 0 <= i < |es| ==> es[i].hits < h
    ensures WithHits(es, h) == []
  {
    if es != [] {
      WithHitsBelow(es[1..], h);
    }
  }

  lemma {:induction false} WithHitsAppend(a: seq<RankEntry>, b: seq<RankEntry>, h: nat)
    ensures WithHits(a + b, h) == WithHits(a, h) + WithHits(b, h)
  {
    if a == [] {
      assert a + b == b;
    } else {
      assert (a + b)[0] == a[0] && (a + b)[1..] == a[1..] + b;
      WithHitsAppend(a[1..], b, h);
    }
  }

  /** Inserting keeps a bound on the hits. */
  lemma {:induction false} InsertBounded(es: seq<RankEntry>, e: RankEntry, m: nat)
    requires e.hits <= m && forall i :: 0 <= i < |es| ==> es[i].hits <= m
    ensures forall i :: 0 <= i < |InsertByHits(es, e)| ==> InsertByHits(es, e)[i].hits <= m
  {
    if es != [] && es[0].hits >= e.hits {
      InsertBounded(es[1..], e, m);
    }
  }

  lemma {:induction false} InsertSorted(es: seq<RankEntry>, e: RankEntry)
    requires ByHitsDescending(es)
    ensures ByHitsDescending(InsertByHits(es, e))
  {
    if es != [] && es[0].hits >= e.hits {
      var rest := es[1..];
      InsertSorted(rest, e);
      InsertBounded(rest, e, es[0].hits);
      var ins := InsertByHits(rest, e);
      var r := [es[0]] + ins;
      assert forall i :: 0 < i < |r| ==> r[i] == ins[i - 1];
    }
  }

  lemma {:induction false} InsertPermutes(es: seq<RankEntry>, e: RankEntry)
    ensures multiset(InsertByHits(es, e)) == multiset(es) + multiset{e}
  {
    if es != [] && es[0].hits >= e.hits {
      InsertPermutes(es[1..], e);
      assert es == [es[0]] + es[1..];
    }
  }

  lemma {:induction false} InsertWithHits(es: seq<RankEntry>, e: RankEntry, h: nat)
    requires ByHitsDescending(es)
    ensures WithHits(InsertByHits(es, e), h) == WithHits(es, h) + WithHits([e], h)
  {
    if es == [] {
    } else if es[0].hits < e.hits {
      assert InsertByHits(es, e) == [e] + es;
      InsertInFront(es, e, h);
    } else {
      var rest := es[1..];
      assert ByHitsDescending(rest);
      InsertWithHits(rest, e, h);
      InsertBehind(es, e, h);
    }
  }

  /** An entry that goes behind the head keeps the head's place in its hit count. */
  lemma InsertBehind(es: seq<RankEntry>, e: RankEntry, h: nat)
    requires es != [] && es[0].hits >= e.hits
    requires WithHits(InsertByHits(es[1..], e), h) == WithHits(es[1..], h) + WithHits([e], h)
    ensures WithHits(InsertByHits(es, e), h) == WithHits(es, h) + WithHits([e], h)
  {
    var rest := es[1..];
    var ins := InsertByHits(rest, e);
    assert InsertByHits(es, e) == [es[0]] + ins;
    assert es == [es[0]] + rest;
    WithHitsAppend([es[0]], ins, h);
    WithHitsAppend([es[0]], rest, h);
  }

  /** An entry with more hits than the head of a descending sequence goes in front without
      changing the order within any hit count. */
  lemma InsertInFront(es: seq<RankEntry>, e: RankEntry, h: nat)
    requires ByHitsDescending(es) && es != [] && es[0].hits < e.hits
    ensures WithHits([e] + es, h) == WithHits(es, h) + WithHits([e], h)
  {
    WithHitsAppend([e], es, h);
    if h == e.hits {
      WithHitsBelow(es, h);
    } else {
      assert WithHits([e], h) == [];
    }
  }

  /** The ranking's sort is a stable descending sort: it keeps the entries, orders them by
      hits from most to fewest, and keeps entries with equal hits in card order. */
  lemma {:induction false} SortByHitsIsStable(es: seq<RankEntry>)
    ensures ByHitsDescending(SortByHits(es))
    ensures multiset(SortByHits(es)) == multiset(es)
    ensures forall h :: WithHits(SortByHits(es), h) == WithHits(es, h)
  {
    SortByHitsOrders(es);
    SortByHitsPermutes(es);
    SortByHitsKeepsTies(es);
  }

  lemma {:induction false} SortByHitsOrders(es: seq<RankEntry>)
    ensures ByHitsDescending(SortByHits(es))
  {
    if es != [] {
      var init := es[..|es| - 1];
      SortByHitsOrders(init);
      InsertSorted(SortByHits(init), es[|es| - 1]);
    }
  }

  lemma {:induction false} SortByHitsPermutes(es: seq<RankEntry>)
    ensures multiset(SortByHits(es)) == multiset(es)
  {
    if es != [] {
      var init := es[..|es| - 1];
      var last := es[|es| - 1];
      SortByHitsPermutes(init);
      InsertPermutes(SortByHits(init), last);
      assert es == init + [last];
    }
  }

  lemma {:induction false} SortByHitsKeepsTies(es: seq<RankEntry>)
    ensures forall h :: WithHits(SortByHits(es), h) == WithHits(es, h)
  {
    if es != [] {
      var init := es[..|es| - 1];
      var last := es[|es| - 1];
      SortByHitsKeepsTies(init);
      SortByHitsOrders(init);
      assert es == init + [last];
      forall h ensures WithHits(SortByHits(es), h) == WithHits(es, h) {
        InsertWithHits(SortByHits(init), last, h);
        WithHitsAppend(init, [last], h);
      }
    }
  }

  /** The first n entries of the ranking (`[:top_n]`). */
  function TopRanked(es: seq<RankEntry>, n: int): seq<RankEntry>
  {
    PyPrefix(SortByHits(es), n)
  }

  /** obtener_ranking(n) returns min(n, #cards) entries for n >= 0, ordered by hits from most
      to fewest, and, among cards with equal hits, in card order. */
  lemma TopRankedFacts(es: seq<RankEntry>, n: int)
    ensures n >= 0 ==> |TopRanked(es, n)| == if n < |es| then n else |es|
    ensures ByHitsDescending(TopRanked(es, n))
    ensures TopRanked(es, n) <= SortByHits(es)
    ensures forall h :: WithHits(SortByHits(es), h) == WithHits(es, h)
    ensures multiset(SortByHits(es)) == multiset(es)
  {
    SortByHitsIsStable(es);
    var r := TopRanked(es, n);
    var sorted := SortByHits(es);
    assert |sorted| == |multiset(sorted)| == |multiset(es)| == |es|;
    assert forall i :: 0 <= i < |r| ==> r[i] == sorted[i];
  }
  /** The set holds exactly the balls 1..60. */
  ghost predicate AllBalls(balls: set<int>)
  {
    forall x :: x in balls <==> FirstBall <= x <= LastBall
  }

  /** The state of play of a live game, over the cards' views: the called balls, none
      twice, and the available balls split 1..60 between them; every card's hits are the
      called balls it holds; the game is over exactly when there are winners, which happens
      exactly when some card has won; the winners are at positions of cards that have won. */
  ghost predicate PlayState(vs: seq<CardView>, called: seq<int>, calledSet: set<int>, available: set<int>,
    finished: bool, winnersAt: seq<int>)
  {
    NoDuplicates(called)
    && calledSet == Elems(called)
    && calledSet !! available
    && AllBalls(calledSet + available)
    && HitsAre(vs, calledSet)
    && (finished <==> winnersAt != [])
    && (finished <==> AnyWinner(vs))
    && AtWinners(vs, winnersAt)
  }

  /** Cards with nothing marked are the state of play before the first call: all 60 balls
      available, none called, no winners. */
  lemma UnmarkedPlayState(vs: seq<CardView>)
    requires forall i :: 0 <= i < |vs| ==> vs[i].hits == {} && !vs[i].isWinner
    ensures PlayState(vs, [], {}, Interval(FirstBall, LastBall + 1), false, [])
  {
  }

  /** A call of an available ball in a game not yet over keeps the state of play: the ball
      joins the called ones, every card marks it, and the winners collected by the call end
      the game exactly when there is one. */
  lemma CallKeepsPlayState(vs: seq<CardView>, called: seq<int>, calledSet: set<int>,
    available: set<int>, winnersAt: seq<int>, n: int)
    requires PlayState(vs, called, calledSet, available, false, winnersAt) && n in available
    ensures var ws := MarkedViews(vs, n);
      PlayState(ws, called + [n], calledSet + {n}, available - {n}, CollectedAt(ws) != [], CollectedAt(ws))
  {
    var ws := MarkedViews(vs, n);
    assert n !in called;
    NoDuplicatesAppend(called, n);
    ElemsAppend(called, n);
    MoveBall(calledSet, available, n);
    MarkKeepsHits(vs, calledSet, n);
    WinnersFound(ws);
  }

  /** Taking back the last called ball keeps the state of play: the ball is available again,
      every card unmarks it, and the winners are recomputed from scratch. */
  lemma UndoKeepsPlayState(vs: seq<CardView>, called: seq<int>, calledSet: set<int>,
    available: set<int>, finished: bool, winnersAt: seq<int>)
    requires PlayState(vs, called, calledSet, available, finished, winnersAt) && called != []
    ensures var last := called[|called| - 1]; var ws := UnmarkedViews(vs, last);
      PlayState(ws, called[..|called| - 1], calledSet - {last}, available + {last},
        WinningAt(ws) != [], WinningAt(ws))
  {
    var last := called[|called| - 1];
    var ws := UnmarkedViews(vs, last);
    UndoLast(called);
    ReturnBall(calledSet, available, last);
    UnmarkKeepsHits(vs, calledSet, last);
    WinnersFound(ws);
  }

  /** Calling an available ball in a game not yet over and then undoing it gives back the
      state of play before the call: the same called balls, available balls and cards, and
      still no winner. */
  lemma CallThenUndo(vs: seq<CardView>, called: seq<int>, calledSet: set<int>,
    available: set<int>, winnersAt: seq<int>, n: int)
    requires PlayState(vs, called, calledSet, available, false, winnersAt) && Consistent(vs)
    requires n in available
    ensures var ws := MarkedViews(vs, n); var more := called + [n];
      more[|more| - 1] == n
      && more[..|more| - 1] == called
      && (calledSet + {n}) - {n} == calledSet
      && (available - {n}) + {n} == available
      && UnmarkedViews(ws, n) == vs
      && WinningAt(UnmarkedViews(ws, n)) == []
  {
    var more := called + [n];
    assert more[..|more| - 1] == called;
    assert n !in calledSet;
    UnmarkUndoesMark(vs, calledSet, n);
    WinnersFound(vs);
  }

  /** The outcome of cantar_bolilla. */
  datatype CallResult =
    | AlreadyFinished
    | AlreadyCalled(ball: int)
    | Called(ball: int, totalCalled: nat, newHits: seq<NewHit>, ranking: seq<RankEntry>,
        hasWinner: bool, winnerViews: seq<CardView>)

  /** The outcome of deshacer_bolilla. */
  datatype UndoResult =
    | NothingToUndo
    | Undone(ball: int, totalCalled: nat, ranking: seq<RankEntry>, hasWinner: bool,
        winnerViews: seq<CardView>)

  /** The view v matches card c: the same identity and numbers, with a hit count and winner
      flag that agree with its own hits. Only the card's constant fields are read. */
  predicate Matches(c: Card, v: CardView)
  {
    v.sheetId == c.sheetId && v.slot == c.slot && v.fullId == c.FullId() && v.numbers == c.numbers
    && v.hitCount == |v.hits| && (v.isWinner <==> |v.hits| >= WinningHits)
  }

  /** The view v describes card c: it matches the card and has the card's hits. */
  predicate Describes(c: Card, v: CardView)
    reads c
  {
    Matches(c, v) && v.hits == c.hits
  }

  /** Each card is described by the view at its position. */
  predicate Synced(cs: seq<Card>, vs: seq<CardView>)
    reads cs
  {
    |cs| == |vs| && forall i :: 0 <= i < |cs| ==> Describes(cs[i], vs[i])
  }

  /** A view describes a card exactly when it is the card's view. */
  lemma DescribesIsView(c: Card, v: CardView)
    ensures Describes(c, v) <==> View(c) == v
  {
  }

  /** The views that describe the cards are the cards' views. */
  lemma SyncedIsViews(cs: seq<Card>, vs: seq<CardView>)
    requires Synced(cs, vs)
    ensures Views(cs) == vs
  {
    forall i | 0 <= i < |cs| ensures Views(cs)[i] == vs[i] {
      DescribesIsView(cs[i], vs[i]);
    }
  }

  /** The views at the given positions. */
  function PickViews(vs: seq<CardView>, ps: seq<int>): (picked: seq<CardView>)
    requires forall k :: 0 <= k < |ps| ==> 0 <= ps[k] < |vs|
    ensures |picked| == |ps|
    ensures forall k :: 0 <= k < |ps| ==> picked[k] == vs[ps[k]]
  {
    seq(|ps|, k requires 0 <= k < |ps| => vs[ps[k]])
  }

  /** The views of the cards at some positions are the views at those positions. */
  lemma PickedViews(cs: seq<Card>, vs: seq<CardView>, ps: seq<int>)
    requires Synced(cs, vs)
    requires forall k :: 0 <= k < |ps| ==> 0 <= ps[k] < |cs|
    ensures Views(Pick(cs, ps)) == PickViews(vs, ps)
  {
    forall k | 0 <= k < |ps| ensures Views(Pick(cs, ps))[k] == vs[ps[k]] {
      DescribesIsView(cs[ps[k]], vs[ps[k]]);
    }
  }

  /** The view of a card just loaded: nothing marked yet. */
  function LoadedView(l: LoadedCard): CardView
  {
    CardView(l.sheetId, l.slot, l.sheetId + "-" + SlotName(l.slot), l.numbers, {}, 0, false)
  }

  /** The views of freshly loaded cards. */
  function LoadedViews(loaded: seq<LoadedCard>): (vs: seq<CardView>)
    ensures |vs| == |loaded| && forall i :: 0 <= i < |loaded| ==> vs[i] == LoadedView(loaded[i])
  {
    seq(|loaded|, i requires 0 <= i < |loaded| => LoadedView(loaded[i]))
  }

  /** The loop of _cargar_cartones that creates the cards: one new, unmarked card per loaded
      card, in order. */
  method NewCards(loaded: seq<LoadedCard>) returns (cs: seq<Card>)
    ensures |cs| == |loaded|
    ensures forall i :: 0 <= i < |cs| ==> fresh(cs[i])
    ensures forall i, j :: 0 <= i < j < |cs| ==> cs[i] != cs[j]
    ensures forall i :: 0 <= i < |cs| ==>
      cs[i].sheetId == loaded[i].sheetId && cs[i].slot == loaded[i].slot
      && cs[i].numbers == loaded[i].numbers && cs[i].hits == {}
  {
    cs := [];
    var k := 0;
    while k < |loaded|
      invariant 0 <= k <= |loaded| && |cs| == k
      invariant forall i :: 0 <= i < k ==> fresh(cs[i])
      invariant forall i, j :: 0 <= i < j < k ==> cs[i] != cs[j]
      invariant forall i :: 0 <= i < k ==>
        cs[i].sheetId == loaded[i].sheetId && cs[i].slot == loaded[i].slot
        && cs[i].numbers == loaded[i].numbers && cs[i].hits == {}
    {
      var c := new Card(loaded[k].sheetId, loaded[k].slot, loaded[k].numbers);
      cs := cs + [c];
      k := k + 1;
    }
  }

  /** New unmarked cards are described by the loaded cards' views. */
  lemma LoadedSynced(cs: seq<Card>, loaded: seq<LoadedCard>)
    requires |cs| == |loaded|
    requires forall i :: 0 <= i < |cs| ==>
      cs[i].sheetId == loaded[i].sheetId && cs[i].slot == loaded[i].slot
      && cs[i].numbers == loaded[i].numbers && cs[i].hits == {}
    ensures Synced(cs, LoadedViews(loaded))
  {
  }

  /** EstadoJugada. */
  class Game {
    const cards: seq<Card>
    var called: seq<int>
    /** The called balls as a set. */
    ghost var calledSet: set<int>
    var available: set<int>
    var winners: seq<Card>
    /** The positions among the cards of the winners. */
    ghost var winnersAt: seq<int>
    var finished: bool
    /** What each card holds, in card order. */
    ghost var views: seq<CardView>

    /** The state a game keeps between calls: distinct card objects, described by the views;
        the state of play those views and the other fields describe; and the winners are the
        cards at the winning positions. */
    ghost predicate Valid()
      reads this, cards
    {
      (forall i, j :: 0 <= i < j < |cards| ==> cards[i] != cards[j])
      && Synced(cards, views)
      && PlayState(views, called, calledSet, available, finished, winnersAt)
      && winners == Pick(cards, winnersAt)
    }

    /** In a valid game no ball is called twice, every card's hits are the called balls it
        holds, every winner is one of the cards and has won, and the views are the cards'. */
    lemma ValidFacts()
      requires Valid()
      ensures NoDuplicates(called)
      ensures forall i :: 0 <= i < |cards| ==> cards[i].hits == cards[i].numbers * calledSet
      ensures forall k :: 0 <= k < |winners| ==> winners[k] in cards && winners[k].IsWinner()
      ensures Views(cards) == views
    {
      SyncedIsViews(cards, views);
      forall k | 0 <= k < |winners| ensures winners[k] in cards && winners[k].IsWinner() {
        var p := winnersAt[k];
        assert winners[k] == cards[p];
        assert Describes(cards[p], views[p]);
      }
    }

    /** A new game over the loaded cards, in their order, none marked. */
    constructor(loaded: seq<LoadedCard>)
      ensures Valid()
      ensures |cards| == |loaded|
      ensures forall i :: 0 <= i < |cards| ==> fresh(cards[i])
      ensures forall i :: 0 <= i < |cards| ==>
        cards[i].sheetId == loaded[i].sheetId && cards[i].slot == loaded[i].slot
        && cards[i].numbers == loaded[i].numbers && cards[i].hits == {}
      ensures called == [] && available == Interval(FirstBall, LastBall + 1)
      ensures winners == [] && !finished
    {
      var cs := NewCards(loaded);
      cards := cs;
      called := [];
      calledSet := {};
      available := Interval(FirstBall, LastBall + 1);
      winners := [];
      winnersAt := [];
      finished := false;
      views := LoadedViews(loaded);
      new;
      LoadedSynced(cs, loaded);
      UnmarkedPlayState(views);
    }

    /** obtener_ranking: reads the cards and changes nothing. */
    function Ranking(n: int): seq<RankEntry>
      reads this, cards
    {
      TopRanked(RankEntries(Views(cards)), n)
    }

    /** In a valid game the ranking is the one of the cards' views. */
    lemma RankingOfViews(n: int)
      requires Valid()
      ensures Ranking(n) == TopRanked(RankEntries(views), n)
    {
      SyncedIsViews(cards, views);
    }

    /** cantar_bolilla. A finished game or a ball already called leaves everything as it was.
        Otherwise the ball moves from the available balls to the end of the called list, every
        card holding it marks it, the winners are the winning cards in card order without
        value-equal repeats, and the game ends when there is one. */
    method Call(n: int) returns (r: CallResult)
      requires Valid()
      modifies this, cards
      ensures Valid()
      ensures old(finished) ==> r == AlreadyFinished
      ensures !old(finished) && n !in old(available) ==> r == AlreadyCalled(n)
      ensures r.AlreadyFinished? || r.AlreadyCalled? ==>
        called == old(called) && available == old(available) && winners == old(winners)
        && finished == old(finished) && views == old(views)
      ensures !old(finished) && n in old(available) ==> r.Called? && r.ball == n
      ensures r.Called? ==>
        called == old(called) + [n] && available == old(available) - {n}
        && views == MarkedViews(old(views), n)
        && winnersAt == CollectedAt(views)
        && r.totalCalled == |called|
        && r.newHits == NewHitsOf(views, n)
        && r.ranking == TopRanked(RankEntries(views), 20)
        && r.hasWinner == finished
        && r.winnerViews == PickViews(views, winnersAt)
    {
      if finished {
        return AlreadyFinished;
      }
      if n !in available {
        return AlreadyCalled(n);
      }
      var more, rest := called + [n], available - {n};
      ghost var ws := MarkedViews(views, n);
      ghost var moreSet := calledSet + {n};
      CallKeepsPlayState(views, called, calledSet, available, winnersAt, n);
      var collected, newHits := MarkCards(cards, n, views);
      SyncedIsViews(cards, ws);
      PickedViews(cards, ws, CollectedAt(ws));
      var ranking := TopRanked(RankEntries(Views(cards)), 20);
      var winnerViews := Views(collected);
      Store(more, moreSet, rest, ws, CollectedAt(ws), collected, collected != []);
      r := Called(n, |more|, newHits, ranking, collected != [], winnerViews);
    }

    /** deshacer_bolilla. With no ball called nothing changes. Otherwise the last called ball
        goes back to the available balls, every card unmarks it, the winners become every
        winning card in card order, and the game is over exactly when there is one. */
    method Undo() returns (r: UndoResult)
      requires Valid()
      modifies this, cards
      ensures Valid()
      ensures old(called) == [] ==> r == NothingToUndo
      ensures r.NothingToUndo? ==>
        called == old(called) && available == old(available) && winners == old(winners)
        && finished == old(finished) && views == old(views)
      ensures old(called) != [] ==> r.Undone? && r.ball == old(called)[|old(called)| - 1]
      ensures r.Undone? ==>
        called == old(called)[..|old(called)| - 1] && available == old(available) + {r.ball}
        && views == UnmarkedViews(old(views), r.ball)
        && winnersAt == WinningAt(views)
        && r.totalCalled == |called|
        && r.ranking == TopRanked(RankEntries(views), 20)
        && r.hasWinner == finished
        && r.winnerViews == PickViews(views, winnersAt)
    {
      if called == [] {
        return NothingToUndo;
      }
      var last := called[|called| - 1];
      var rest, back := called[..|called| - 1], available + {last};
      ghost var ws := UnmarkedViews(views, last);
      ghost var restSet := calledSet - {last};
      UndoKeepsPlayState(views, called, calledSet, available, finished, winnersAt);
      UnmarkCards(cards, last, views);
      SyncedIsViews(cards, ws);
      var current := Views(cards);
      var ps := WinningAt(current);
      var nowWinners := Pick(cards, ps);
      PickedViews(cards, ws, ps);
      var ranking := TopRanked(RankEntries(current), 20);
      var winnerViews := Views(nowWinners);
      assert ps == WinningAt(ws) && (|nowWinners| > 0) == (ps != []);
      Store(rest, restSet, back, ws, ps, nowWinners, |nowWinners| > 0);
      r := Undone(last, |rest|, ranking, nowWinners != [], winnerViews);
    }

    /** reiniciar: the same cards, unmarked; no ball called, all 60 available, no winners. */
    method Reset()
      requires Valid()
      modifies this, cards
      ensures Valid()
      ensures called == [] && available == Interval(FirstBall, LastBall + 1)
      ensures winners == [] && !finished
      ensures forall i :: 0 <= i < |cards| ==> cards[i].hits == {}
    {
      ghost var vs := ClearedViews(views);
      ClearCards(cards, views);
      UnmarkedPlayState(vs);
      Store([], {}, Interval(FirstBall, LastBall + 1), vs, [], [], false);
    }

    /** Records a new state of play, described by the given views of the cards. */
    method Store(newCalled: seq<int>, ghost newCalledSet: set<int>, newAvailable: set<int>,
      ghost newViews: seq<CardView>, ghost newWinnersAt: seq<int>, newWinners: seq<Card>, newFinished: bool)
      requires forall i, j :: 0 <= i < j < |cards| ==> cards[i] != cards[j]
      requires Synced(cards, newViews)
      requires PlayState(newViews, newCalled, newCalledSet, newAvailable, newFinished, newWinnersAt)
      requires newWinners == Pick(cards, newWinnersAt)
      modifies this
      ensures Valid()
      ensures called == newCalled && calledSet == newCalledSet && available == newAvailable
      ensures views == newViews && winnersAt == newWinnersAt && winners == newWinners
      ensures finished == newFinished
    {
      called, calledSet, available := newCalled, newCalledSet, newAvailable;
      views, winnersAt := newViews, newWinnersAt;
      winners, finished := newWinners, newFinished;
    }
  }

  /** The marking loop of cantar_bolilla over the cards, in order: each card marks n, the
      new hit counts of the cards holding n are reported, and a card that has won is collected
      unless an equal card already was. No card has won before the loop. */
  method MarkCards(cs: seq<Card>, n: int, ghost before: seq<CardView>)
    returns (collected: seq<Card>, newHits: seq<NewHit>)
    requires forall i, j :: 0 <= i < j < |cs| ==> cs[i] != cs[j]
    requires Synced(cs, before) && !AnyWinner(before)
    modifies cs
    ensures Synced(cs, MarkedViews(before, n))
    ensures collected == Pick(cs, CollectedAt(MarkedViews(before, n)))
    ensures newHits == NewHitsOf(MarkedViews(before, n), n)
  {
    collected, newHits := [], [];
    ghost var seen: seq<CardView> := [];
    var k := 0;
    while k < |cs|
      invariant MarkedSoFar(cs, before, n, k, seen, collected, newHits)
    {
      collected, newHits := MarkOne(cs, k, n, before, seen, collected, newHits);
      seen := seen + [MarkView(before[k], n)];
      k := k + 1;
    }
    assert seen == MarkedViews(before, n);
  }

  /** The marking loop's invariant after k cards: those cards have marked n and are
      described by their marked views, the others are untouched, and the collected cards
      and reported hits are those of the cards seen. */
  ghost predicate MarkedSoFar(cs: seq<Card>, before: seq<CardView>, n: int, k: int,
    seen: seq<CardView>, collected: seq<Card>, newHits: seq<NewHit>)
    reads cs
  {
    0 <= k <= |cs| && |seen| == k && |before| == |cs|
    && (forall i :: 0 <= i < k ==> seen[i] == MarkView(before[i], n) && Describes(cs[i], seen[i]))
    && (forall i :: k <= i < |cs| ==> Describes(cs[i], before[i]))
    && collected == Pick(cs, CollectedAt(seen))
    && newHits == NewHitsOf(seen, n)
  }

  /** One pass of the marking loop, on card k, which has not won: the card marks n; when it
      holds n its entry is reported, and it is collected if it has now won and no card equal
      to it was collected before. */
  method MarkOne(cs: seq<Card>, k: int, n: int, ghost before: seq<CardView>, ghost seen: seq<CardView>,
    collected: seq<Card>, newHits: seq<NewHit>)
    returns (grown: seq<Card>, reported: seq<NewHit>)
    requires forall i, j :: 0 <= i < j < |cs| ==> cs[i] != cs[j]
    requires MarkedSoFar(cs, before, n, k, seen, collected, newHits)
    requires k < |cs| && !before[k].isWinner
    modifies cs[k]
    ensures MarkedSoFar(cs, before, n, k + 1, seen + [MarkView(before[k], n)], grown, reported)
  {
    var card := cs[k];
    ghost var was := before[k];
    ghost var v := MarkView(was, n);
    var hit := card.Mark(n);
    assert Describes(card, v);
    forall i | 0 <= i < |cs| && i != k
      ensures cs[i].hits == old(cs[i].hits)
    {
      assert cs[i] != card;
    }
    DescribesIsView(card, v);
    CollectStep(cs, seen, v);
    NewHitsStep(seen, v, n);
    grown, reported := collected, newHits;
    if hit {
      reported := reported + [NewHit(card.FullId(), card.HitCount())];
      CollectedBefore(cs, k, seen, collected, card);
      if card.IsWinner() && !ContainsSame(collected, card) {
        grown := grown + [card];
      }
    }
    MarkedAfter(cs, before, n, k, seen, grown, reported);
  }

  /** The marking loop's invariant is restored once card k is described by its marked view
      and the collected cards and reported hits take that view into account. */
  lemma MarkedAfter(cs: seq<Card>, before: seq<CardView>, n: int, k: int, seen: seq<CardView>,
    grown: seq<Card>, reported: seq<NewHit>)
    requires 0 <= k < |cs| && |seen| == k && |before| == |cs|
    requires forall i :: 0 <= i < k ==> seen[i] == MarkView(before[i], n) && Describes(cs[i], seen[i])
    requires Describes(cs[k], MarkView(before[k], n))
    requires forall i :: k < i < |cs| ==> Describes(cs[i], before[i])
    requires grown == Pick(cs, CollectedAt(seen + [MarkView(before[k], n)]))
    requires reported == NewHitsOf(seen + [MarkView(before[k], n)], n)
    ensures MarkedSoFar(cs, before, n, k + 1, seen + [MarkView(before[k], n)], grown, reported)
  {
  }

  lemma CollectStep(cs: seq<Card>, seen: seq<CardView>, v: CardView)
    requires |seen| < |cs|
    ensures var ps := CollectedAt(seen);
      CollectedAt(seen + [v]) == if v.isWinner && !HasEqual(seen, ps, v) then ps + [|seen|] else ps
    ensures var ps := CollectedAt(seen);
      Pick(cs, CollectedAt(seen + [v]))
      == if v.isWinner && !HasEqual(seen, ps, v) then Pick(cs, ps) + [cs[|seen|]] else Pick(cs, ps)
  {
    assert (seen + [v])[..|seen|] == seen;
    var ps := CollectedAt(seen);
    if v.isWinner && !HasEqual(seen, ps, v) {
      PickAppend(cs, ps, |seen|);
    }
  }

  lemma PickAppend(cs: seq<Card>, ps: seq<int>, p: int)
    requires forall k :: 0 <= k < |ps| ==> 0 <= ps[k] < |cs|
    requires 0 <= p < |cs|
    ensures Pick(cs, ps + [p]) == Pick(cs, ps) + [cs[p]]
  {
    var qs := ps + [p];
    assert forall k :: 0 <= k < |ps| ==> qs[k] == ps[k];
    assert qs[|ps|] == p;
  }

  /** One more card seen: the new hits grow by its entry exactly when it holds n. */
  lemma NewHitsStep(seen: seq<CardView>, v: CardView, n: int)
    ensures NewHitsOf(seen + [v], n)
      == NewHitsOf(seen, n) + (if n in v.numbers then [NewHit(v.fullId, v.hitCount)] else [])
  {
    assert (seen + [v])[..|seen|] == seen;
  }

  /** While marking, a card is equal to one already collected exactly when its view equals
      the view of a collected position. */
  lemma CollectedBefore(cs: seq<Card>, k: int, seen: seq<CardView>, collected: seq<Card>, card: Card)
    requires 0 <= k < |cs| && |seen| == k && card == cs[k]
    requires forall i, j :: 0 <= i < j < |cs| ==> cs[i] != cs[j]
    requires forall i :: 0 <= i < k ==> Describes(cs[i], seen[i])
    requires collected == Pick(cs, CollectedAt(seen))
    ensures ContainsSame(collected, card) <==> HasEqual(seen, CollectedAt(seen), View(card))
  {
    var ps := CollectedAt(seen);
    if ContainsSame(collected, card) {
      var j :| 0 <= j < |collected| && View(collected[j]) == View(card);
      assert collected[j] == cs[ps[j]];
      DescribesIsView(cs[ps[j]], seen[ps[j]]);
    }
    if HasEqual(seen, ps, View(card)) {
      var j :| 0 <= j < |ps| && 0 <= ps[j] < |seen| && seen[ps[j]] == View(card);
      assert collected[j] == cs[ps[j]];
      DescribesIsView(cs[ps[j]], seen[ps[j]]);
    }
  }

  /** The loop of deshacer_bolilla over the cards: each card unmarks n. */
  method UnmarkCards(cs: seq<Card>, n: int, ghost before: seq<CardView>)
    requires forall i, j :: 0 <= i < j < |cs| ==> cs[i] != cs[j]
    requires Synced(cs, before)
    modifies cs
    ensures Synced(cs, UnmarkedViews(before, n))
  {
    assert forall i :: 0 <= i < |cs| ==> Matches(cs[i], before[i]);
    var k := 0;
    while k < |cs|
      invariant 0 <= k <= |cs|
      invariant forall i :: 0 <= i < k ==> cs[i].hits == before[i].hits - {n}
      invariant forall i :: k <= i < |cs| ==> cs[i].hits == before[i].hits
    {
      var _ := cs[k].Unmark(n);
      k := k + 1;
    }
    UnmarkedSynced(cs, before, n);
  }

  /** Cards whose hits lost n are described by the views with n unmarked. */
  lemma UnmarkedSynced(cs: seq<Card>, before: seq<CardView>, n: int)
    requires |cs| == |before| && forall i :: 0 <= i < |cs| ==> Matches(cs[i], before[i])
    requires forall i :: 0 <= i < |cs| ==> cs[i].hits == before[i].hits - {n}
    ensures Synced(cs, UnmarkedViews(before, n))
  {
  }

  /** The views with every hit cleared. */
  function ClearedViews(vs: seq<CardView>): (ws: seq<CardView>)
    ensures |ws| == |vs|
  {
    seq(|vs|, i requires 0 <= i < |vs| =>
      CardView(vs[i].sheetId, vs[i].slot, vs[i].fullId, vs[i].numbers, {}, 0, 0 >= WinningHits))
  }

  /** The loop of reiniciar over the cards: every card's hits are emptied. */
  method ClearCards(cs: seq<Card>, ghost before: seq<CardView>)
    requires forall i, j :: 0 <= i < j < |cs| ==> cs[i] != cs[j]
    requires Synced(cs, before)
    modifies cs
    ensures Synced(cs, ClearedViews(before))
    ensures forall i :: 0 <= i < |cs| ==> cs[i].hits == {}
  {
    var k := 0;
    while k < |cs|
      invariant 0 <= k <= |cs|
      invariant forall i :: 0 <= i < k ==> cs[i].hits == {}
    {
      cs[k].hits := {};
      k := k + 1;
    }
  }

  /** Marking a newly called ball keeps a card's hits equal to the called balls it holds. */
  lemma MarkedCalled(hits: set<int>, numbers: set<int>, calledSet: set<int>, n: int)
    requires hits == numbers * calledSet
    ensures Marked(hits, numbers, n) == numbers * (calledSet + {n})
  {
  }

  /** Unmarking a ball taken back keeps a card's hits equal to the called balls it holds. */
  lemma UnmarkedCalled(hits: set<int>, numbers: set<int>, calledSet: set<int>, n: int)
    requires hits == numbers * calledSet
    ensures hits - {n} == numbers * (calledSet - {n})
  {
  }

  /** Calling an available ball moves it from the available balls to the called ones. */
  lemma MoveBall(calledSet: set<int>, available: set<int>, n: int)
    requires calledSet !! available && n in available
    ensures calledSet + {n} !! available - {n}
    ensures (calledSet + {n}) + (available - {n}) == calledSet + available
  {
  }

  /** Taking a called ball back moves it to the available balls. */
  lemma ReturnBall(calledSet: set<int>, available: set<int>, n: int)
    requires calledSet !! available && n in calledSet
    ensures calledSet - {n} !! available + {n}
    ensures (calledSet - {n}) + (available + {n}) == calledSet + available
  {
  }

  /** Removing the last ball of a list without repeats takes exactly that ball out of the set
      of called balls. */
  lemma UndoLast(called: seq<int>)
    requires called != [] && NoDuplicates(called)
    ensures NoDuplicates(called[..|called| - 1])
    ensures Elems(called[..|called| - 1]) == Elems(called) - {called[|called| - 1]}
  {
    var init := called[..|called| - 1];
    assert called == init + [called[|called| - 1]];
    assert forall i :: 0 <= i < |init| ==> init[i] == called[i];
  }

  /** _jugadas_activas: the games in progress, by ID. */
  class Registry {
    var games: map<string, Game>

    constructor()
      ensures games == map[]
    {
      games := map[];
    }

    /** iniciar_jugada: load the cards (sheet IDs zero-filled to four digits) and store a new
        game under the ID, replacing any game stored there. A row too short to read makes the
        loading raise, and nothing is stored. */
    method Start(id: string, rows: seq<seq<int>>) returns (r: Result<Game, PyException>)
      modifies this
      ensures LoadAll(rows, ZeroFilled).Failure? ==>
        r == Failure(LoadAll(rows, ZeroFilled).error) && games == old(games)
      ensures LoadAll(rows, ZeroFilled).Success? ==>
        r.Success? && fresh(r.value) && r.value.Valid() && games == old(games)[id := r.value]
        && |r.value.cards| == |LoadAll(rows, ZeroFilled).value|
        && (forall i :: 0 <= i < |r.value.cards| ==>
              r.value.cards[i].sheetId == LoadAll(rows, ZeroFilled).value[i].sheetId
              && r.value.cards[i].slot == LoadAll(rows, ZeroFilled).value[i].slot
              && r.value.cards[i].numbers == LoadAll(rows, ZeroFilled).value[i].numbers
              && r.value.cards[i].hits == {})
        && r.value.called == [] && r.value.available == Interval(FirstBall, LastBall + 1)
        && r.value.winners == [] && !r.value.finished
      ensures r.Success? ==> Get(id) == Some(r.value)
      ensures forall other :: other != id ==> Get(other) == old(Get(other))
    {
      var loaded := LoadCards(rows, ZeroFilled);
      if loaded.Failure? {
        return Failure(loaded.error);
      }
      var g := new Game(loaded.value);
      games := games[id := g];
      return Success(g);
    }

    /** obtener_jugada: the game stored under the ID, if any. */
    function Get(id: string): (g: Option<Game>)
      reads this
      ensures g.Some? <==> id in games
      ensures g.Some? ==> g.value == games[id]
    {
      if id in games then Some(games[id]) else None
    }

    /** eliminar_jugada: forget the game stored under the ID, if any; the others stay. */
    method Delete(id: string)
      modifies this
      ensures games == old(games) - {id}
      ensures Get(id).None?
      ensures forall other :: other != id ==> Get(other) == old(Get(other))
    {
      if id in games {
        games := games - {id};
      }
    }
  }
}
