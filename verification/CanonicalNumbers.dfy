// Number normalisation (shared/json_contract.py:58-98, 211-238) on decimals of the form
// sign, coefficient, exponent, rendered as text of code points.
module CanonicalNumbers {
  import opened Unicode

  const MINUS: CodePoint := 45
  const DOT: CodePoint := 46
  const ZERO: CodePoint := 48

  const MAX_DIGITS := 256
  const MAX_EXPONENT := 1024
  const MAX_TOKEN := 288  // MAX_NUMBER_SIGNIFICANT_DIGITS + 32

  // A Python int, or the (sign, digits, exponent) of a Decimal; a float enters as its Decimal.
  datatype Number = Int(i: int) | Dec(negative: bool, coefficient: nat, exponent: int)

  function Power(k: nat): (p: nat)
    ensures p > 0
  {
    if k == 0 then 1 else 10 * Power(k - 1)
  }

  function Digits(n: nat): (t: Text)
    ensures |t| > 0
  {
    if n < 10 then [ZERO + n] else Digits(n / 10) + [ZERO + n % 10]
  }

  function DigitCount(n: nat): nat { |Digits(n)| }

  function Zeros(k: nat): (t: Text)
    ensures |t| == k
  {
    if k == 0 then [] else Zeros(k - 1) + [ZERO]
  }

  function Magnitude(i: int): nat { if i < 0 then -i else i }

  // `_validate_decimal_bounds` for a finite decimal; for an int, the digit limit.
  predicate InBounds(n: Number) {
    match n
    case Int(i) => DigitCount(Magnitude(i)) <= MAX_DIGITS
    case Dec(_, c, e) =>
      && DigitCount(c) <= MAX_DIGITS
      && -MAX_EXPONENT <= e <= MAX_EXPONENT
      && (c == 0 || -MAX_EXPONENT <= e + DigitCount(c) - 1 <= MAX_EXPONENT)
  }

  // ---- `format(value, "f")` and the two `rstrip` calls ----

  function PadLeft(t: Text, width: nat): (r: Text)
    ensures |r| == if |t| < width then width else |t|
  {
    if |t| < width then Zeros(width - |t|) + t else t
  }

  function Fixed(negative: bool, c: nat, e: int): Text {
    var sign := if negative then [MINUS] else [];
    if e >= 0 then sign + Digits(c) + Zeros(e)
    else
      var padded := PadLeft(Digits(c), 1 - e);
      sign + padded[..|padded| + e] + [DOT] + padded[|padded| + e..]
  }

  function StripRight(t: Text, c: CodePoint): Text {
    if t != [] && t[|t| - 1] == c then StripRight(t[..|t| - 1], c) else t
  }

  function CanonicalNumber(n: Number): Text
    requires InBounds(n)
  {
    match n
    case Int(i) => (if i < 0 then [MINUS] else []) + Digits(Magnitude(i))
    case Dec(negative, c, e) =>
      if c == 0 then [ZERO]
      else
        var rendered := Fixed(negative, c, e);
        if DOT in rendered then StripRight(StripRight(rendered, ZERO), DOT) else rendered
  }

  // ---- The normal form: digits and the number of them after the point ----

  datatype Plain = Plain(negative: bool, digits: nat, places: nat) {
    predicate Normal() {
      (places > 0 ==> digits % 10 != 0) && (negative ==> digits > 0)
    }
  }

  function Strip(negative: bool, c: nat, places: nat): (p: Plain)
    requires c > 0
    ensures p.Normal() && p.places <= places && p.digits <= c && p.negative == negative
  {
    if places > 0 && c % 10 == 0 then Strip(negative, c / 10, places - 1) else Plain(negative, c, places)
  }

  // The coefficient with e zeros after it.
  function Scaled(c: nat, e: nat): (n: nat)
    ensures c > 0 ==> n > 0
  {
    if e == 0 then c else 10 * Scaled(c, e - 1)
  }

  function Normalize(n: Number): (p: Plain)
    ensures p.Normal()
  {
    match n
    case Int(i) => Plain(i < 0, Magnitude(i), 0)
    case Dec(negative, c, e) =>
      if c == 0 then Plain(false, 0, 0)
      else if e >= 0 then Plain(negative, Scaled(c, e), 0)
      else Strip(negative, c, -e)
  }

  // The number as an integer multiple of 10 to the -scale.
  function Signed(negative: bool, n: int): int { if negative then -n else n }

  function Places(n: Number): nat {
    if n.Dec? && n.exponent < 0 then -n.exponent else 0
  }

  function Value(n: Number, scale: nat): int
    requires Places(n) <= scale
  {
    match n
    case Int(i) => i * Power(scale)
    case Dec(negative, c, e) => Signed(negative, c * Power(e + scale))
  }

  function PlainValue(p: Plain, scale: nat): int
    requires p.places <= scale
  {
    Signed(p.negative, p.digits * Power(scale - p.places))
  }

  // Numerical equality, whatever the spelling: 1, 1.0 and 1e0 are equal.
  predicate SameNumber(m: Number, n: Number) {
    var scale := if Places(m) < Places(n) then Places(n) else Places(m);
    Value(m, scale) == Value(n, scale)
  }

  // Digits before and after the point.
  function Whole(c: nat, places: nat): nat {
    if places == 0 then c else Whole(c / 10, places - 1)
  }

  function LastDigits(c: nat, places: nat): (t: Text)
    ensures |t| == places
  {
    if places == 0 then [] else LastDigits(c / 10, places - 1) + [ZERO + c % 10]
  }

  function Fraction(c: nat, places: nat): Text {
    if places > 0 then [DOT] + LastDigits(c, places) else []
  }

  function Render(p: Plain): Text {
    (if p.negative then [MINUS] else []) + Digits(Whole(p.digits, p.places)) + Fraction(p.digits, p.places)
  }

  // ---- The text produced is the rendering of the normal form ----

  lemma {:induction false} DigitsOfScaled(c: nat, e: nat)
    requires c > 0
    ensures Digits(Scaled(c, e)) == Digits(c) + Zeros(e)
  {
    if e > 0 {
      DigitsOfScaled(c, e - 1);
      var n := Scaled(c, e - 1);
      assert (10 * n) / 10 == n && (10 * n) % 10 == 0;
      assert Digits(c) + Zeros(e) == (Digits(c) + Zeros(e - 1)) + [ZERO];
    }
  }

  lemma PadLeftLast(t: Text, d: CodePoint, width: nat)
    ensures PadLeft(t + [d], width + 1) == PadLeft(t, width) + [d]
  {
  }

  lemma PaddedLast(c: nat, places: nat)
    requires places > 0
    ensures PadLeft(Digits(c), places + 1) == PadLeft(Digits(c / 10), places) + [ZERO + c % 10]
  {
    if c < 10 {
      assert PadLeft(Digits(c), places + 1) == Zeros(places) + [ZERO + c];
      assert Zeros(places) == Zeros(places - 1) + [ZERO];
      assert PadLeft(Digits(0), places) == Zeros(places);
    } else {
      PadLeftLast(Digits(c / 10), ZERO + c % 10, places);
    }
  }

  lemma {:induction false} PaddedSplits(c: nat, places: nat)
    ensures PadLeft(Digits(c), places + 1) == Digits(Whole(c, places)) + LastDigits(c, places)
  {
    if places == 0 {
      assert Digits(c) + [] == Digits(c);
    } else {
      PaddedSplits(c / 10, places - 1);
      PaddedLast(c, places);
      assert Digits(Whole(c, places)) + LastDigits(c, places)
          == (Digits(Whole(c / 10, places - 1)) + LastDigits(c / 10, places - 1)) + [ZERO + c % 10];
    }
  }

  lemma {:induction false} DigitsRange(n: nat)
    ensures forall d :: d in Digits(n) ==> ZERO <= d <= ZERO + 9
  {
    if n >= 10 {
      DigitsRange(n / 10);
    }
  }

  lemma {:induction false} ZerosRange(k: nat)
    ensures forall d :: d in Zeros(k) ==> d == ZERO
  {
    if k > 0 {
      ZerosRange(k - 1);
    }
  }

  lemma {:induction false} LastDigitsRange(c: nat, places: nat)
    ensures forall d :: d in LastDigits(c, places) ==> ZERO <= d <= ZERO + 9
  {
    if places > 0 {
      LastDigitsRange(c / 10, places - 1);
    }
  }

  lemma StripOne(t: Text, d: CodePoint, c: CodePoint)
    ensures StripRight(t + [d], c) == if d == c then StripRight(t, c) else t + [d]
  {
    assert (t + [d])[..|t + [d]| - 1] == t;
  }

  lemma StripPoint(head: Text)
    requires head != [] && head[|head| - 1] != DOT
    ensures StripRight(StripRight(head + [DOT], ZERO), DOT) == head
  {
    StripOne(head, DOT, ZERO);
    StripOne(head, DOT, DOT);
  }

  lemma StripNothing(t: Text, d: CodePoint)
    requires d != ZERO && d != DOT
    ensures StripRight(StripRight(t + [d], ZERO), DOT) == t + [d]
  {
    StripOne(t, d, ZERO);
    StripOne(t, d, DOT);
  }

  lemma LastDigit(head: Text, c: nat, places: nat)
    requires places > 0
    ensures head + [DOT] + LastDigits(c, places) == head + [DOT] + LastDigits(c / 10, places - 1) + [ZERO + c % 10]
  {
  }

  // The two strips of a fraction's text.
  function Stripped(head: Text, c: nat, places: nat): Text {
    StripRight(StripRight(head + [DOT] + LastDigits(c, places), ZERO), DOT)
  }

  lemma StrippedWhole(head: Text, c: nat)
    requires head != [] && head[|head| - 1] != DOT
    ensures Stripped(head, c, 0) == head + Fraction(c, 0)
  {
    assert head + [DOT] + [] == head + [DOT];
    StripPoint(head);
  }

  lemma FractionText(head: Text, c: nat, places: nat, digits: Text)
    requires places > 0 && digits == LastDigits(c, places)
    ensures head + [DOT] + digits == head + Fraction(c, places)
  {
  }

  lemma StripsNothing(text: Text, shorter: Text, d: CodePoint)
    requires text == shorter + [d] && d != ZERO && d != DOT
    ensures StripRight(StripRight(text, ZERO), DOT) == text
  {
    StripNothing(shorter, d);
  }

  lemma StrippedNonzero(head: Text, c: nat, places: nat)
    requires places > 0 && c % 10 != 0
    ensures Stripped(head, c, places) == head + Fraction(c, places)
  {
    LastDigit(head, c, places);
    FractionText(head, c, places, LastDigits(c, places));
    StripsNothing(head + [DOT] + LastDigits(c, places), head + [DOT] + LastDigits(c / 10, places - 1), ZERO + c % 10);
  }

  lemma StrippedZero(head: Text, c: nat, places: nat)
    requires places > 0 && c % 10 == 0
    ensures Stripped(head, c, places) == Stripped(head, c / 10, places - 1)
  {
    LastDigit(head, c, places);
    StripOne(head + [DOT] + LastDigits(c / 10, places - 1), ZERO, ZERO);
  }

  lemma StripStep(negative: bool, c: nat, places: nat)
    requires c > 0
    ensures Strip(negative, c, places)
         == if places > 0 && c % 10 == 0 then Strip(negative, c / 10, places - 1) else Plain(negative, c, places)
  {
  }

  // Removing trailing zeros and then the point from the text is normalising the number.
  lemma {:induction false} StripRendered(head: Text, negative: bool, c: nat, places: nat, p: Plain)
    requires c > 0 && p == Strip(negative, c, places)
    requires head != [] && head[|head| - 1] != DOT
    ensures Stripped(head, c, places) == head + Fraction(p.digits, p.places)
  {
    StripStep(negative, c, places);
    if places == 0 {
      StrippedWhole(head, c);
    } else if c % 10 == 0 {
      StrippedZero(head, c, places);
      StripRendered(head, negative, c / 10, places - 1, p);
    } else {
      StrippedNonzero(head, c, places);
    }
  }

  lemma {:induction false} WholeOfStripped(negative: bool, c: nat, places: nat)
    requires c > 0
    ensures var p := Strip(negative, c, places); Whole(p.digits, p.places) == Whole(c, places)
  {
    if places > 0 && c % 10 == 0 {
      WholeOfStripped(negative, c / 10, places - 1);
    }
  }

  lemma FractionIsRendered(negative: bool, c: nat, places: nat)
    requires c > 0 && places > 0
    ensures var fixed := Fixed(negative, c, 0 - places);
            DOT in fixed && StripRight(StripRight(fixed, ZERO), DOT) == Render(Strip(negative, c, places))
  {
    var sign := if negative then [MINUS] else [];
    var head := sign + Digits(Whole(c, places));
    FixedSplits(negative, c, places);
    DigitsRange(Whole(c, places));
    assert head[|head| - 1] == Digits(Whole(c, places))[|Digits(Whole(c, places))| - 1];
    assert (head + [DOT] + LastDigits(c, places))[|head|] == DOT;
    StripRendered(head, negative, c, places, Strip(negative, c, places));
    WholeOfStripped(negative, c, places);
  }

  lemma FixedSplits(negative: bool, c: nat, places: nat)
    requires places > 0
    ensures Fixed(negative, c, 0 - places)
            == (if negative then [MINUS] else []) + Digits(Whole(c, places)) + [DOT] + LastDigits(c, places)
  {
    PaddedSplits(c, places);
    var padded := PadLeft(Digits(c), places + 1);
    assert padded[..|padded| - places] == Digits(Whole(c, places));
    assert padded[|padded| - places..] == LastDigits(c, places);
  }

  lemma IntegerHasNoDot(negative: bool, c: nat, e: nat)
    ensures DOT !in Fixed(negative, c, e)
  {
    DigitsRange(c);
    ZerosRange(e);
  }

  lemma IntegerIsRendered(negative: bool, c: nat, e: nat)
    requires c > 0
    ensures Fixed(negative, c, e) == Render(Plain(negative, Scaled(c, e), 0))
  {
    DigitsOfScaled(c, e);
    var sign := if negative then [MINUS] else [];
    assert sign + (Digits(c) + Zeros(e)) + [] == sign + Digits(c) + Zeros(e);
  }

  // The text of an accepted number depends only on its normal form.
  lemma CanonicalIsRendered(n: Number)
    requires InBounds(n)
    ensures CanonicalNumber(n) == Render(Normalize(n))
  {
    if n.Dec? && n.coefficient > 0 {
      if n.exponent >= 0 {
        IntegerHasNoDot(n.negative, n.coefficient, n.exponent);
        IntegerIsRendered(n.negative, n.coefficient, n.exponent);
      } else {
        FractionIsRendered(n.negative, n.coefficient, -n.exponent);
      }
    }
  }

  // ---- The normal form keeps the value, and a value has one normal form ----

  lemma {:induction false} PowerAdds(j: nat, k: nat)
    ensures Power(j + k) == Power(j) * Power(k)
  {
    if j > 0 {
      PowerAdds(j - 1, k);
      assert Power(j + k) == 10 * Power(j - 1 + k);
      assert 10 * (Power(j - 1) * Power(k)) == (10 * Power(j - 1)) * Power(k);
    }
  }

  lemma TenTimes(q: int, p: int)
    ensures q * (10 * p) == (10 * q) * p
  {
  }

  lemma {:induction false} StripKeepsValue(negative: bool, c: nat, places: nat, scale: nat)
    requires c > 0 && places <= scale
    ensures PlainValue(Strip(negative, c, places), scale) == Signed(negative, c * Power(scale - places))
  {
    if places > 0 && c % 10 == 0 {
      StripKeepsValue(negative, c / 10, places - 1, scale);
      TenTimes(c / 10, Power(scale - places));
    }
  }

  lemma Regroup(x: int, y: int, z: int)
    ensures x * (y * z) == (x * y) * z
  {
  }

  lemma {:induction false} ScaledIsProduct(c: nat, e: nat)
    ensures Scaled(c, e) == c * Power(e)
  {
    if e > 0 {
      ScaledIsProduct(c, e - 1);
      TenTimes(c, Power(e - 1));
      Regroup(10, c, Power(e - 1));
    }
  }

  lemma ProductIsPositive(x: int, k: int)
    requires x > 0 && k > 0
    ensures x * k > 0
  {
  }

  lemma NormalKeepsValue(n: Number, scale: nat)
    requires Places(n) <= scale
    ensures Normalize(n).places <= Places(n) && PlainValue(Normalize(n), scale) == Value(n, scale)
  {
    match n
    case Int(i) =>
      assert i < 0 ==> i * Power(scale) == -((-i) * Power(scale));
    case Dec(negative, c, e) =>
      if c > 0 {
        if e >= 0 {
          PowerAdds(e, scale);
          ScaledIsProduct(c, e);
          Regroup(c, Power(e), Power(scale));
        } else {
          StripKeepsValue(negative, c, -e, scale);
        }
      }
  }

  lemma CancelFactor(x: int, y: int, k: int)
    requires k > 0 && x * k == y * k
    ensures x == y
  {
    var difference := x - y;
    assert difference * k == 0;
  }

  // An equal value with fewer places has a coefficient ending in zero.
  lemma MorePlacesEndInZero(c: nat, d: nat, j: nat, k: nat)
    requires j < k && c * Power(j) == d * Power(k)
    ensures c % 10 == 0
  {
    PowerAdds(k - j, j);
    Regroup(d, Power(k - j), Power(j));
    CancelFactor(c, d * Power(k - j), Power(j));
    TenTimes(d, Power(k - j - 1));
    Regroup(10, d, Power(k - j - 1));
    EndsInZero(c, d * Power(k - j - 1));
  }

  lemma EndsInZero(c: int, m: int)
    requires c == 10 * m
    ensures c % 10 == 0
  {
  }

  lemma SignOfPlain(p: Plain, scale: nat)
    requires p.Normal() && p.places <= scale
    ensures p.negative <==> PlainValue(p, scale) < 0
  {
    if p.negative {
      ProductIsPositive(p.digits, Power(scale - p.places));
    }
  }

  lemma ValueIsNormal(p: Plain, q: Plain, scale: nat)
    requires p.Normal() && q.Normal() && p.places <= scale && q.places <= scale
    requires PlainValue(p, scale) == PlainValue(q, scale)
    ensures p == q
  {
    SignOfPlain(p, scale);
    SignOfPlain(q, scale);
    if p.places < q.places {
      MorePlacesEndInZero(q.digits, p.digits, scale - q.places, scale - p.places);
    } else if q.places < p.places {
      MorePlacesEndInZero(p.digits, q.digits, scale - p.places, scale - q.places);
    } else {
      CancelFactor(p.digits, q.digits, Power(scale - p.places));
    }
  }

  lemma ValuesDecide(p: Plain, q: Plain, x: int, y: int, scale: nat)
    requires p.Normal() && q.Normal() && p.places <= scale && q.places <= scale
    requires PlainValue(p, scale) == x && PlainValue(q, scale) == y
    ensures p == q <==> x == y
  {
    if x == y {
      ValueIsNormal(p, q, scale);
    }
  }

  lemma DecidesAt(m: Number, n: Number, scale: nat)
    requires Places(m) <= scale && Places(n) <= scale
    ensures Normalize(m) == Normalize(n) <==> Value(m, scale) == Value(n, scale)
  {
    NormalKeepsValue(m, scale);
    NormalKeepsValue(n, scale);
    ValuesDecide(Normalize(m), Normalize(n), Value(m, scale), Value(n, scale), scale);
  }

  // Two numbers have the same normal form exactly when they are equal.
  lemma NormalFormDecides(m: Number, n: Number)
    ensures Normalize(m) == Normalize(n) <==> SameNumber(m, n)
  {
    DecidesAt(m, n, if Places(m) < Places(n) then Places(n) else Places(m));
  }
}
