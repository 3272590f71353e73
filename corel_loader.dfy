/** Reading the paired ("Corel") table back into single cards, as both simulators and the
    live game do: each row gives the left sheet's cards A, B, C (sheet number in column 0)
    and the right sheet's cards D, E, F (sheet number in column 31), each card the set of
    the values in a fixed range of columns. */
module CorelLoader {
  import opened Support
  import opened SheetIds

  datatype Slot = A | B | C | D | E | F

  function SlotName(s: Slot): string
  {
    match s
    case A => "A" case B => "B" case C => "C"
    case D => "D" case E => "E" case F => "F"
  }

  /** The columns `iloc[start:end]` a card is read from. */
  function SlotStart(s: Slot): nat
  {
    match s
    case A => 1 case B => 11 case C => 21
    case D => 32 case E => 42 case F => 52
  }

  function SlotEnd(s: Slot): nat
  {
    SlotStart(s) + 10
  }

  /** The column holding the sheet number of the half a slot belongs to. */
  function IdColumn(s: Slot): nat
  {
    if s.A? || s.B? || s.C? then 0 else 31
  }

  /** The slots in the order cards are appended for one row. */
  const SlotOrder: seq<Slot> := [A, B, C, D, E, F]

  /** How a sheet number cell becomes a card's sheet ID: `str(x)` in the simulators,
      `str(x).zfill(4)` in the live game. */
  datatype IdStyle = AsRead | ZeroFilled

  function IdText(style: IdStyle, n: int): string
  {
    match style
    case AsRead => IntText(n)
    case ZeroFilled => ZFill(IntText(n), 4)
  }

  datatype LoadedCard = LoadedCard(sheetId: string, slot: Slot, numbers: set<int>)

  /** Positional slicing `row.iloc[lo:hi]`, which stops at the end of the row. */
  function ILoc(row: seq<int>, lo: nat, hi: nat): (r: seq<int>)
    ensures |r| <= hi - lo || lo > hi
  {
    var a := if lo < |row| then lo else |row|;
    var b := if hi < |row| then hi else |row|;
    if a <= b then row[a..b] else []
  }

  function SlotCard(row: seq<int>, style: IdStyle, s: Slot): LoadedCard
    requires |row| > 31
  {
    LoadedCard(IdText(style, row[IdColumn(s)]), s, Elems(ILoc(row, SlotStart(s), SlotEnd(s))))
  }

  /** The six cards of one row, as the two inner loops over the slot letters append them
      (left sheet's A, B, C, then right sheet's D, E, F), or IndexError when the row has no
      column 31. */
  function RowCards(row: seq<int>, style: IdStyle): Result<seq<LoadedCard>, PyException>
  {
    if |row| <= 31 then Failure(IndexError)
    else Success(seq(6, s requires 0 <= s < 6 => SlotCard(row, style, SlotOrder[s])))
  }

  /** All rows in order, stopping at the first row that raises. */
  function LoadAll(rows: seq<seq<int>>, style: IdStyle): Result<seq<LoadedCard>, PyException>
  {
    if rows == [] then Success([])
    else
      match LoadAll(rows[..|rows| - 1], style)
      case Failure(e) => Failure(e)
      case Success(cards) =>
        match RowCards(rows[|rows| - 1], style)
        case Failure(e) => Failure(e)
        case Success(six) => Success(cards + six)
  }

  /** cargar_cartones_corel and _cargar_cartones: the rows' cards appended row by row,
      the left sheet's three before the right sheet's three. */
  method LoadCards(rows: seq<seq<int>>, style: IdStyle) returns (r: Result<seq<LoadedCard>, PyException>)
    ensures r == LoadAll(rows, style)
  {
    var cards: seq<LoadedCard> := [];
    var n := 0;
    while n < |rows|
      invariant 0 <= n <= |rows|
      invariant LoadAll(rows[..n], style) == Success(cards)
    {
      var row := rows[n];
      if |row| <= 31 {
        LoadAllFailsAt(rows, n, style);
        return Failure(IndexError);
      }
      LoadAllGrows(rows, n, style, cards);
      cards := cards + RowCards(row, style).value;
      n := n + 1;
    }
    assert rows[..n] == rows;
    return Success(cards);
  }

  /** A row that reaches column 31 adds its six cards to the load so far. */
  lemma LoadAllGrows(rows: seq<seq<int>>, n: nat, style: IdStyle, cards: seq<LoadedCard>)
    requires n < |rows| && |rows[n]| > 31 && LoadAll(rows[..n], style) == Success(cards)
    ensures LoadAll(rows[..n + 1], style) == Success(cards + RowCards(rows[n], style).value)
  {
    assert rows[..n + 1][..n] == rows[..n];
    assert rows[..n + 1][n] == rows[n];
  }

  /** A row without column 31 makes the whole load raise IndexError. */
  lemma LoadAllFailsAt(rows: seq<seq<int>>, n: nat, style: IdStyle)
    requires n < |rows| && |rows[n]| <= 31 && LoadAll(rows[..n], style).Success?
    ensures LoadAll(rows, style) == Failure(IndexError)
  {
    assert rows[..n + 1][..n] == rows[..n];
    assert rows[..n + 1][n] == rows[n];
    LoadAllFailsFrom(rows, n + 1, style);
  }

  /** A failure in the first n rows is the failure of the whole load. */
  lemma {:induction false} LoadAllFailsFrom(rows: seq<seq<int>>, n: nat, style: IdStyle)
    requires 0 < n <= |rows| && LoadAll(rows[..n], style).Failure?
    ensures LoadAll(rows, style) == LoadAll(rows[..n], style)
    decreases |rows| - n
  {
    if n < |rows| {
      assert rows[..n + 1][..n] == rows[..n];
      LoadAllFailsFrom(rows, n + 1, style);
    } else {
      assert rows[..n] == rows;
    }
  }

  /** Loading succeeds exactly when every row reaches column 31, and then yields six
      cards per row. */
  lemma {:induction false} LoadAllSucceeds(rows: seq<seq<int>>, style: IdStyle)
    ensures LoadAll(rows, style).Success? <==> forall i :: 0 <= i < |rows| ==> |rows[i]| > 31
    ensures LoadAll(rows, style).Success? ==> |LoadAll(rows, style).value| == 6 * |rows|
  {
    if rows != [] {
      var init := rows[..|rows| - 1];
      LoadAllSucceeds(init, style);
      assert forall i :: 0 <= i < |init| ==> init[i] == rows[i];
    }
  }

  lemma {:induction false} LoadAllLength(rows: seq<seq<int>>, style: IdStyle)
    requires LoadAll(rows, style).Success?
    ensures |LoadAll(rows, style).value| == 6 * |rows|
  {
    if rows != [] {
      LoadAllLength(rows[..|rows| - 1], style);
    }
  }

  /** Card 6i + s of a successful load is slot s of row i. */
  lemma LoadAllCard(rows: seq<seq<int>>, style: IdStyle, i: int, s: int)
    requires LoadAll(rows, style).Success? && 0 <= i < |rows| && 0 <= s < 6
    ensures |rows[i]| > 31
    ensures 6 * i + s < |LoadAll(rows, style).value|
    ensures LoadAll(rows, style).value[6 * i + s] == SlotCard(rows[i], style, SlotOrder[s])
  {
    LoadAllRowAt(rows, style, i, s);
  }

  /** Card 6i + s of a successful load is card s of row i's six. */
  lemma LoadAllRowAt(rows: seq<seq<int>>, style: IdStyle, i: int, s: int)
    requires LoadAll(rows, style).Success? && 0 <= i < |rows| && 0 <= s < 6
    ensures RowCards(rows[i], style).Success?
    ensures 6 * i + s < |LoadAll(rows, style).value|
    ensures LoadAll(rows, style).value[6 * i + s] == RowCards(rows[i], style).value[s]
  {
    LoadAllPrefix(rows, style, i + 1);
    var upto := LoadAll(rows[..i + 1], style).value;
    assert rows[..i + 1][..i] == rows[..i];
    assert rows[..i + 1][i] == rows[i];
    var before := LoadAll(rows[..i], style).value;
    LoadAllLength(rows[..i], style);
    assert upto == before + RowCards(rows[i], style).value;
    assert upto[6 * i + s] == RowCards(rows[i], style).value[s];
  }

  /** Loading the first m rows loads a prefix of the cards of all rows. */
  lemma {:induction false} LoadAllPrefix(rows: seq<seq<int>>, style: IdStyle, m: nat)
    requires LoadAll(rows, style).Success? && m <= |rows|
    ensures LoadAll(rows[..m], style).Success?
    ensures LoadAll(rows[..m], style).value <= LoadAll(rows, style).value
  {
    if m < |rows| {
      var init := rows[..|rows| - 1];
      assert LoadAll(init, style).Success?;
      LoadAllPrefix(init, style, m);
      assert init[..m] == rows[..m];
    } else {
      assert rows[..m] == rows;
    }
  }
}
