/** Shared small data: an optional value, and numbers written in decimal. */
module Numbers {
  import opened Chars

  datatype Option<T> = None | Some(value: T)

  /** The number written by the decimal digits of `v`; any other byte is skipped. */
  function Decimal(v: string): nat {
    if v == "" then 0
    else
      var c, n := v[|v| - 1], Decimal(v[..|v| - 1]);
      if IsNum(c) then n * 10 + Digit(c) else n
  }

  predicate IsDigits(d: string) { d != "" && forall c :: c in d ==> IsNum(c) }

  /** `std::to_string`, and what a stream writes for a number. */
  function DecimalText(n: nat): string {
    (if n < 10 then "" else DecimalText(n / 10)) + [('0' as int + n % 10) as char]
  }

  lemma DecimalParts(init: string, c: char)
    ensures Decimal(init + [c]) == if IsNum(c) then Decimal(init) * 10 + Digit(c) else Decimal(init)
  {
    assert (init + [c])[..|init|] == init;
  }

  /** Printing a number and reading it back. */
  lemma {:induction false} DecimalTextValue(n: nat)
    ensures Decimal(DecimalText(n)) == n && IsDigits(DecimalText(n))
  {
    var init, c := if n < 10 then "" else DecimalText(n / 10), ('0' as int + n % 10) as char;
    assert DecimalText(n) == init + [c] && IsNum(c) && Digit(c) == n % 10;
    if n >= 10 { DecimalTextValue(n / 10); } else { assert Decimal("") == 0; }
    DecimalParts(init, c);
    hide IsNum, Digit, Decimal;
  }

  predicate IsPlainNumber(d: string) { IsDigits(d) && (d[0] == '0' ==> |d| == 1) }

  lemma {:induction false} NumberGrows(d: string)
    requires IsDigits(d) && d[0] != '0'
    ensures Decimal(d) >= 1 && (|d| > 1 ==> Decimal(d) >= 10)
    decreases |d|
  {
    var (init, c) := (d[..|d| - 1], d[|d| - 1]);
    assert d == init + [c] && c in d && forall x :: x in init ==> x in d;
    DecimalParts(init, c);
    if init == "" { assert Decimal(init) == 0; } else { NumberGrows(init); }
    hide Decimal;
  }

  lemma {:induction false} TextStart(n: nat)
    ensures IsPlainNumber(DecimalText(n))
    decreases n
  {
    DecimalTextValue(n);
    if n >= 10 {
      var init := DecimalText(n / 10);
      TextStart(n / 10);
      DecimalTextValue(n / 10);
      NumberOne(init);
      assert DecimalText(n)[0] == init[0] by { hide Decimal, IsDigits; }
    }
    hide Decimal, Digit, DecimalText;
  }

  lemma NumberOne(d: string)
    requires IsPlainNumber(d) && Decimal(d) >= 1
    ensures d[0] != '0'
  {
    assert d[..0] == "" && Decimal("") == 0;
  }

  /** Two texts without needless zeros that stand for one number are one. */
  lemma {:induction false} NumberOnce(a: string, b: string)
    requires IsPlainNumber(a) && IsPlainNumber(b) && Decimal(a) == Decimal(b)
    ensures a == b
    decreases |a|
  {
    hide Decimal, Digit;
    var (x, c) := (a[..|a| - 1], a[|a| - 1]);
    var (y, d) := (b[..|b| - 1], b[|b| - 1]);
    assert a == x + [c] && c in a && forall e :: e in x ==> e in a;
    assert b == y + [d] && d in b && forall e :: e in y ==> e in b;
    DecimalParts(x, c);
    DecimalParts(y, d);
    NoDigits();
    if x != "" { NumberGrows(x); }
    if y != "" { NumberGrows(y); }
    DigitOnce(Decimal(x), c, Decimal(y), d);
    if x != "" && y != "" { NumberOnce(x, y); }
  }

  lemma NoDigits()
    ensures Decimal("") == 0
  {
  }

  lemma DigitOnce(m: nat, c: char, n: nat, d: char)
    requires IsNum(c) && IsNum(d) && m * 10 + Digit(c) == n * 10 + Digit(d)
    ensures c == d && m == n
  {
  }

  /** The text is the one of digits that stands for the number, without needless zeros in front. */
  lemma DecimalTextExact(n: nat, d: string)
    ensures d == DecimalText(n) <==> IsPlainNumber(d) && Decimal(d) == n
  {
    TextStart(n);
    DecimalTextValue(n);
    hide DecimalText, Decimal;
    if IsPlainNumber(d) && Decimal(d) == n { NumberOnce(d, DecimalText(n)); }
  }
}
