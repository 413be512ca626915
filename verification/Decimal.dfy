/** Decimal text: six-digit fixed-point printing, and reading integers and decimals back. */
module Decimal {
  import opened Prelude

  predicate IsDigit(c: char) {
    '0' <= c <= '9'
  }

  function DigitChar(d: nat): (c: char)
    requires d < 10
    ensures IsDigit(c) && DigitValue(c) == d
  {
    '0' + d as char
  }

  function DigitValue(c: char): nat
    requires IsDigit(c)
  {
    (c - '0') as nat
  }

  predicate AllDigits(s: string) {
    forall i :: 0 <= i < |s| ==> IsDigit(s[i])
  }

  /** The last `k` decimal digits of `n`. */
  function Padded(n: nat, k: nat): (s: string)
    ensures |s| == k && AllDigits(s)
  {
    if k == 0 then "" else Padded(n / 10, k - 1) + [DigitChar(n % 10)]
  }

  function Digits(n: nat): (s: string)
    ensures s != "" && AllDigits(s)
  {
    if n < 10 then [DigitChar(n)] else Digits(n / 10) + [DigitChar(n % 10)]
  }

  function Pow10(k: nat): (p: nat)
    ensures p > 0
  {
    if k == 0 then 1 else 10 * Pow10(k - 1)
  }

  function ReadDigits(s: string): nat
    requires AllDigits(s)
  {
    if s == "" then 0 else ReadDigits(s[..|s| - 1]) * 10 + DigitValue(s[|s| - 1])
  }

  lemma {:induction false} DigitsReadBack(n: nat)
    ensures ReadDigits(Digits(n)) == n
  {
    if n >= 10 {
      DigitsReadBack(n / 10);
      assert Digits(n)[..|Digits(n)| - 1] == Digits(n / 10);
    }
  }

  /** Appending the last `k` digits of `n` shifts by `k` places and adds `n`. */
  lemma {:induction false} PaddedReadBack(front: string, n: nat, k: nat)
    requires AllDigits(front) && n < Pow10(k)
    ensures ReadDigits(front + Padded(n, k)) == ReadDigits(front) * Pow10(k) + n
    decreases k
  {
    if k == 0 {
      assert front + Padded(n, k) == front;
    } else {
      PaddedReadBack(front, n / 10, k - 1);
      var s := front + Padded(n, k);
      assert s[..|s| - 1] == front + Padded(n / 10, k - 1);
      Shift(ReadDigits(front), Pow10(k - 1), n);
    }
  }

  lemma Shift(a: nat, p: nat, n: nat)
    ensures (a * p + n / 10) * 10 + n % 10 == a * (10 * p) + n
  {
  }

  // ---- Integers ----

  function IntText(n: nat): string {
    Digits(n)
  }

  function ReadInt(s: string): Option<int> {
    if s != "" && AllDigits(s) then Some(ReadDigits(s))
    else if |s| > 1 && s[0] == '-' && AllDigits(s[1..]) then Some(-(ReadDigits(s[1..]) as int))
    else None
  }

  lemma IntReadsBack(n: nat)
    ensures ReadInt(IntText(n)) == Some(n)
  {
    DigitsReadBack(n);
  }

  // ---- Six-decimal numbers, held in millionths ----

  const MILLION: nat := 1000000

  /** A floating-point number without its rounding: sign and size, so that zero has two signs. */
  datatype Number = Finite(negative: bool, size: real) | Infinite(negative: bool) | NotANumber

  function Unsigned(m: nat): string {
    Digits(m / MILLION) + "." + Padded(m % MILLION, 6)
  }

  function Signed(negative: bool, text: string): string {
    (if negative then "-" else "") + text
  }

  /** A signed number of millionths printed with six decimals. */
  function Fixed(negative: bool, m: nat): string {
    Signed(negative, Unsigned(m))
  }

  function NumberText(x: Number, round: real -> nat): string {
    match x
    case Finite(negative, size) => Fixed(negative, round(size))
    case Infinite(negative) => Signed(negative, "inf")
    case NotANumber => "nan"
  }

  function PointAt(s: string): (k: nat)
    ensures k <= |s| && (k < |s| ==> s[k] == '.')
    ensures forall i :: 0 <= i < k ==> s[i] != '.'
  {
    if s == "" || s[0] == '.' then 0 else 1 + PointAt(s[1..])
  }

  /** Digits, or digits with a point among them. */
  function ReadUnsigned(s: string): Option<real> {
    var k := PointAt(s);
    if k == |s| then
      if s != "" && AllDigits(s) then Some(ReadDigits(s) as real) else None
    else if |s| > 1 && AllDigits(s[..k]) && AllDigits(s[k + 1..]) then
      Some(ReadDigits(s[..k] + s[k + 1..]) as real / Pow10(|s| - k - 1) as real)
    else None
  }

  /** An unsigned number or a name, with a minus sign before it or not. */
  function ReadNumber(s: string): Option<Number> {
    var negative := s != "" && s[0] == '-';
    var rest := if negative then s[1..] else s;
    if s == "nan" then Some(NotANumber)
    else if rest == "inf" then Some(Infinite(negative))
    else
      match ReadUnsigned(rest)
      case Some(x) => Some(Finite(negative, x))
      case None => None
  }

  function Micro(n: nat): real {
    n as real / 1000000.0
  }

  lemma PointAfterDigits(whole: string, frac: string)
    requires AllDigits(whole)
    ensures PointAt(whole + "." + frac) == |whole|
  {
    var s := whole + "." + frac;
    assert s[|whole|] == '.';
    assert forall i :: 0 <= i < |whole| ==> s[i] == whole[i];
  }

  lemma SixPlaces()
    ensures Pow10(6) == MILLION
  {
    assert Pow10(2) == 100 && Pow10(4) == 10000;
  }

  lemma PartsReadBack(m: nat)
    ensures ReadDigits(Digits(m / MILLION) + Padded(m % MILLION, 6)) == m
  {
    SixPlaces();
    PaddedReadBack(Digits(m / MILLION), m % MILLION, 6);
    DigitsReadBack(m / MILLION);
  }

  lemma PointedReadsBack(whole: string, frac: string)
    requires whole != "" && AllDigits(whole) && AllDigits(frac)
    ensures AllDigits(whole + frac)
    ensures ReadUnsigned(whole + "." + frac) == Some(ReadDigits(whole + frac) as real / Pow10(|frac|) as real)
  {
    PointAfterDigits(whole, frac);
    hide ReadDigits, Pow10, PointAt;
    var s := whole + "." + frac;
    assert s[..|whole|] == whole && s[|whole| + 1..] == frac;
  }

  lemma UnsignedReadsBack(m: nat)
    ensures ReadUnsigned(Unsigned(m)) == Some(Micro(m))
  {
    hide Digits, Padded, ReadDigits, Pow10, ReadUnsigned;
    PointedReadsBack(Digits(m / MILLION), Padded(m % MILLION, 6));
    PartsReadBack(m);
    SixPlaces();
  }

  lemma UnsignedStarts(m: nat)
    ensures Unsigned(m) != "" && IsDigit(Unsigned(m)[0])
    ensures forall rest: string :: Unsigned(m) + rest != "nan" && Unsigned(m) + rest != "inf"
  {
    hide Digits, Padded;
    var s := Digits(m / MILLION);
    assert Unsigned(m)[0] == s[0];
    forall rest: string ensures Unsigned(m) + rest != "nan" && Unsigned(m) + rest != "inf" {
      assert (Unsigned(m) + rest)[0] == s[0];
      assert "nan"[0] == 'n' && "inf"[0] == 'i';
    }
  }

  /** Printing with six decimals and reading back loses nothing, not even the sign of a zero. */
  lemma FixedReadsBack(negative: bool, m: nat)
    ensures ReadNumber(Fixed(negative, m)) == Some(Finite(negative, Micro(m)))
  {
    UnsignedReadsBack(m);
    UnsignedStarts(m);
    hide Unsigned, ReadUnsigned;
    var s := Fixed(negative, m);
    assert Unsigned(m) + "" == Unsigned(m);
    if negative {
      assert s[0] == '-' && s[1..] == Unsigned(m) && "nan"[0] == 'n';
    } else {
      assert s == Unsigned(m) && s[0] != '-';
    }
  }

  /** The text has exactly six decimals, and its whole part does not start with a needless zero. */
  lemma SixDecimals(negative: bool, m: nat)
    ensures exists whole, frac ::
      && Fixed(negative, m) == (if negative then "-" else "") + whole + "." + frac
      && |frac| == 6 && AllDigits(whole) && AllDigits(frac) && whole != "" && (whole[0] == '0' ==> whole == "0")
  {
    var whole, frac := Digits(m / 1000000), Padded(m % 1000000, 6);
    NoLeadingZero(m / 1000000);
    hide Digits, Padded;
    assert Fixed(negative, m) == (if negative then "-" else "") + whole + "." + frac;
  }

  lemma {:induction false} NoLeadingZero(n: nat)
    ensures Digits(n)[0] == '0' ==> Digits(n) == "0" && n == 0
  {
    if n >= 10 { NoLeadingZero(n / 10); }
  }

  /** Printing is injective: equal text means equal sign and equal millionths. */
  lemma FixedInjective(negative: bool, m: nat, negative': bool, m': nat)
    requires Fixed(negative, m) == Fixed(negative', m')
    ensures negative == negative' && m == m'
  {
    FixedReadsBack(negative, m);
    FixedReadsBack(negative', m');
    hide Fixed, ReadNumber;
    assert m as real == m' as real;
  }

  /** The number with its size rounded to millionths. */
  function Rounded(x: Number, round: real -> nat): Number {
    if x.Finite? then Finite(x.negative, Micro(round(x.size))) else x
  }

  lemma NumberReadsBack(x: Number, round: real -> nat)
    ensures ReadNumber(NumberText(x, round)) == Some(Rounded(x, round))
  {
    match x
    case Finite(negative, size) => FixedReadsBack(negative, round(size));
    case Infinite(negative) =>
      assert "-inf"[1..] == "inf" && "-inf"[0] != "nan"[0] && "inf"[0] != "nan"[0];
    case NotANumber =>
  }

  /** The characters that can occur in printed numbers. */
  predicate NumberChar(c: char) {
    IsDigit(c) || c in ".-nainf"
  }

  lemma FixedChars(negative: bool, m: nat)
    ensures Fixed(negative, m) != "" && forall c :: c in Fixed(negative, m) ==> NumberChar(c)
  {
    var whole, frac := Digits(m / MILLION), Padded(m % MILLION, 6);
    hide Digits, Padded;
    forall c | c in Fixed(negative, m) ensures NumberChar(c) {
      assert c in whole || c == '.' || c in frac || c == '-';
    }
  }

  lemma NumberChars(x: Number, round: real -> nat)
    ensures NumberText(x, round) != "" && forall c :: c in NumberText(x, round) ==> NumberChar(c)
  {
    match x
    case Finite(negative, size) => FixedChars(negative, round(size));
    case _ =>
  }

  lemma IntChars(n: nat)
    ensures IntText(n) != "" && forall c :: c in IntText(n) ==> NumberChar(c)
  {
  }
}
