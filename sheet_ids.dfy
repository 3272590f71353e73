/** The text form of a sheet number in the paired layout, `f"{n:04d}"`, and the integer
    pandas reads back from that cell. */
module SheetIds {

  function DigitChar(d: nat): char
    requires d < 10
  {
    "0123456789"[d]
  }

  predicate IsDigit(ch: char)
  {
    '0' <= ch <= '9'
  }

  function DigitValue(ch: char): nat
    requires IsDigit(ch)
  {
    (ch as int - '0' as int) as nat
  }

  /** Decimal digits of n without leading zeros ("0" for zero). */
  function Decimal(n: nat): (s: string)
    ensures |s| >= 1 && forall i :: 0 <= i < |s| ==> IsDigit(s[i])
  {
    if n < 10 then [DigitChar(n)] else Decimal(n / 10) + [DigitChar(n % 10)]
  }

  /** Left-pads with '0' up to width w. */
  function ZeroPad(s: string, w: nat): (r: string)
    decreases w - |s|
    ensures |r| == if |s| >= w then |s| else w
  {
    if |s| >= w then s else ZeroPad("0" + s, w)
  }

  /** `f"{n:04d}"`: at least four characters, zero padding after the sign. */
  function SheetIdText(n: int): string
  {
    if n >= 0 then ZeroPad(Decimal(n), 4) else "-" + ZeroPad(Decimal(-n), 3)
  }

  /** Value of a string of decimal digits (leading zeros allowed). */
  function DigitsValue(s: string): nat
    requires forall i :: 0 <= i < |s| ==> IsDigit(s[i])
  {
    if s == [] then 0 else DigitsValue(s[..|s| - 1]) * 10 + DigitValue(s[|s| - 1])
  }

  predicate IsIntegerText(s: string)
  {
    if |s| > 0 && s[0] == '-' then |s| > 1 && forall i :: 1 <= i < |s| ==> IsDigit(s[i])
    else |s| > 0 && forall i :: 0 <= i < |s| ==> IsDigit(s[i])
  }

  /** How a numeric cell such as "0001" or "-001" is read back as an integer. */
  function ParseInteger(s: string): int
    requires IsIntegerText(s)
  {
    if s[0] == '-' then 0 - DigitsValue(s[1..]) else DigitsValue(s)
  }

  lemma {:induction false} DecimalValue(n: nat)
    ensures DigitsValue(Decimal(n)) == n
  {
    if n >= 10 {
      DecimalValue(n / 10);
      var s := Decimal(n);
      assert s[..|s| - 1] == Decimal(n / 10);
    }
  }

  lemma {:induction false} LeadingZeroValue(s: string)
    requires forall i :: 0 <= i < |s| ==> IsDigit(s[i])
    ensures DigitsValue("0" + s) == DigitsValue(s)
  {
    if s != [] {
      var t := "0" + s;
      assert t[..|t| - 1] == "0" + s[..|s| - 1];
      LeadingZeroValue(s[..|s| - 1]);
    }
  }

  lemma {:induction false} ZeroPadValue(s: string, w: nat)
    requires forall i :: 0 <= i < |s| ==> IsDigit(s[i])
    ensures forall i :: 0 <= i < |ZeroPad(s, w)| ==> IsDigit(ZeroPad(s, w)[i])
    ensures DigitsValue(ZeroPad(s, w)) == DigitsValue(s)
    decreases w - |s|
  {
    if |s| < w {
      LeadingZeroValue(s);
      ZeroPadValue("0" + s, w);
    }
  }

  /** Writing a sheet number and reading the cell back gives the same number. */
  lemma SheetIdRoundTrip(n: int)
    ensures IsIntegerText(SheetIdText(n)) && ParseInteger(SheetIdText(n)) == n
  {
    if n >= 0 {
      ZeroPadValue(Decimal(n), 4);
      DecimalValue(n);
    } else {
      var t := ZeroPad(Decimal(-n), 3);
      ZeroPadValue(Decimal(-n), 3);
      DecimalValue(-n);
      assert ("-" + t)[1..] == t;
    }
  }

  /** Sheet numbers 0..9999 are written with exactly four digits. */
  lemma {:induction false} SheetIdWidth(n: int)
    requires 0 <= n < 10000
    ensures |SheetIdText(n)| == 4
  {
    assert n < 10 || 10 <= n < 100 || 100 <= n < 1000 || 1000 <= n;
    assert n < 10 ==> |Decimal(n)| == 1;
    assert 10 <= n < 100 ==> |Decimal(n)| == 2 by {
      if 10 <= n < 100 { assert |Decimal(n / 10)| == 1; }
    }
    assert 100 <= n < 1000 ==> |Decimal(n)| == 3 by {
      if 100 <= n < 1000 { assert |Decimal(n / 100)| == 1; assert |Decimal(n / 10)| == 2; }
    }
    assert 1000 <= n ==> |Decimal(n)| == 4 by {
      if 1000 <= n {
        assert |Decimal(n / 1000)| == 1;
        assert |Decimal(n / 100)| == 2;
        assert |Decimal(n / 10)| == 3;
      }
    }
  }

  /** `str(n)` for an integer: the decimal digits, with a leading '-' when negative. */
  function IntText(n: int): string
  {
    if n >= 0 then Decimal(n) else "-" + Decimal(-n)
  }

  /** `s.zfill(w)`: zeros inserted after a leading sign until the text is w long. */
  function ZFill(s: string, w: nat): (r: string)
    ensures |r| == if |s| >= w then |s| else w
  {
    if |s| >= w then s
    else if |s| > 0 && (s[0] == '-' || s[0] == '+') then [s[0]] + ZeroPad(s[1..], w - 1)
    else ZeroPad(s, w)
  }

  /** Zero-filling `str(n)` to width four gives exactly the text the generator wrote for n. */
  lemma ZFillIsSheetIdText(n: int)
    ensures ZFill(IntText(n), 4) == SheetIdText(n)
  {
    if n < 0 {
      var d := Decimal(-n);
      assert ("-" + d)[0] == '-' && ("-" + d)[1..] == d;
      if |d| >= 3 {
        assert ZeroPad(d, 3) == d;
      }
    }
  }

  /** `str(n)` reads back as n. */
  lemma IntTextRoundTrip(n: int)
    ensures IsIntegerText(IntText(n)) && ParseInteger(IntText(n)) == n
  {
    if n >= 0 {
      DecimalValue(n);
    } else {
      DecimalValue(-n);
      assert ("-" + Decimal(-n))[1..] == Decimal(-n);
    }
  }
}
