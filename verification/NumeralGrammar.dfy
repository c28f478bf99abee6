// Numbers as JSON text spells them (section 6 of RFC 8259), and what the decoder reads from every
// spelling (shared/json_contract.py:58-98). The value is defined over the digits of the text, place
// by place, independently of the scanner.
module NumeralGrammar {
  import opened Unicode
  import opened CanonicalNumbers
  import opened Json
  import opened JsonPrinter
  import opened JsonParser
  import opened JsonRoundTrip

  // The code point of a character of the grammar.
  function Code(c: char): (p: CodePoint) { c as int }

  datatype Sign = Bare | Plus | Minus

  datatype Exponent = NoPower | Power10(upper: bool, sign: Sign, digits: Text)

  // A fraction without digits is one that is not written.
  datatype Numeral = Numeral(negative: bool, whole: Text, fraction: Text, exponent: Exponent)

  predicate DigitText(t: Text) { forall c :: c in t ==> Code('0') <= c <= Code('9') }

  predicate Spelled(n: Numeral) {
    && n.whole != [] && DigitText(n.whole) && (|n.whole| > 1 ==> n.whole[0] != Code('0'))
    && DigitText(n.fraction)
    && (n.exponent.Power10? ==> n.exponent.digits != [] && DigitText(n.exponent.digits))
  }

  function SignText(s: Sign): Text {
    match s
    case Bare => []
    case Plus => [Code('+')]
    case Minus => [Code('-')]
  }

  function ExponentText(e: Exponent): Text {
    match e
    case NoPower => []
    case Power10(upper, sign, digits) => [Code(if upper then 'E' else 'e')] + SignText(sign) + digits
  }

  function FractionText(f: Text): Text { if f == [] then [] else [Code('.')] + f }

  function UnsignedText(n: Numeral): Text { n.whole + (FractionText(n.fraction) + ExponentText(n.exponent)) }

  function NumeralText(n: Numeral): Text { (if n.negative then [Code('-')] else []) + UnsignedText(n) }

  // ---- What a numeral says ----

  // Each digit times its power of ten.
  function PlaceValue(t: Text): int {
    if t == [] then 0 else (t[0] - Code('0')) * Power(|t| - 1) + PlaceValue(t[1..])
  }

  function ExponentOf(e: Exponent): int {
    match e
    case NoPower => 0
    case Power10(_, sign, digits) => if sign == Minus then -PlaceValue(digits) else PlaceValue(digits)
  }

  // The digits of both parts as one integer, times ten to the exponent less the places.
  predicate Says(n: Numeral, number: Number) {
    && number.Dec? && number.negative == n.negative && number.coefficient == PlaceValue(n.whole + n.fraction)
    && number.exponent == ExponentOf(n.exponent) - |n.fraction|
  }

  lemma PowerAdds(a: nat, b: nat)
    ensures Power(a + b) == Power(a) * Power(b)
  {
    if a > 0 {
      PowerAdds(a - 1, b);
    }
  }

  lemma {:induction false} PlaceValueJoins(a: Text, b: Text)
    ensures PlaceValue(a + b) == PlaceValue(a) * Power(|b|) + PlaceValue(b)
  {
    if a == [] {
      assert a + b == b;
    } else {
      PlaceValueJoins(a[1..], b);
      assert (a + b)[1..] == a[1..] + b;
      PowerAdds(|a| - 1, |b|);
      Distributes(a[0] - Code('0'), Power(|a| - 1), Power(|b|), PlaceValue(a[1..]), PlaceValue(b));
    }
  }

  lemma Distributes(d: int, p: int, q: int, v: int, w: int)
    ensures (d * p + v) * q + w == d * (p * q) + (v * q + w)
  {
  }

  lemma {:induction false} DigitsValueIsPlaceValue(t: Text)
    requires AllDigits(t)
    ensures DigitsValue(t) == PlaceValue(t)
  {
    if t != [] {
      var front, last := t[..|t| - 1], t[|t| - 1];
      DigitsValueIsPlaceValue(front);
      assert t == front + [last];
      PlaceValueJoins(front, [last]);
      assert Power(1) == 10 * Power(0);
      assert PlaceValue([last]) == (last - Code('0')) * Power(0) + PlaceValue([last][1..]);
    }
  }

  // The whole part and the fraction, in units of the last place.
  function Together(n: Numeral): int { PlaceValue(n.whole) * Power(|n.fraction|) + PlaceValue(n.fraction) }

  // A number that a numeral says, in units of ten to the -scale: the whole part and the fraction
  // taken together, moved by the exponent.
  lemma SaysValue(n: Numeral, number: Number, scale: nat)
    requires Says(n, number) && Places(number) <= scale
    ensures var moved := ExponentOf(n.exponent) - |n.fraction| + scale;
            && moved >= 0
            && Value(number, scale) == Signed(n.negative, Together(n) * Power(moved))
  {
    PlaceValueJoins(n.whole, n.fraction);
  }

  // ---- The limits ----

  // The digits from the first one that is not zero; a zero has one digit.
  function Significant(t: Text): Text {
    if |t| > 1 && t[0] == Code('0') then Significant(t[1..]) else t
  }

  // At most 288 characters and 256 significant digits; exponent and magnitude within 1024.
  predicate Small(n: Numeral) {
    var digits, exponent := Significant(n.whole + n.fraction), ExponentOf(n.exponent) - |n.fraction|;
    && |NumeralText(n)| <= 288 && |digits| <= 256 && -1024 <= exponent <= 1024
    && (digits == [Code('0')] || -1024 <= exponent + |digits| - 1 <= 1024)
  }

  lemma {:induction false} SignificantSays(t: Text)
    requires t != [] && DigitText(t)
    ensures Significant(t) != [] && DigitText(Significant(t)) && PlaceValue(Significant(t)) == PlaceValue(t)
    ensures |Significant(t)| > 1 ==> Significant(t)[0] != Code('0')
  {
    if |t| > 1 && t[0] == Code('0') {
      assert forall c :: c in t[1..] ==> c in t;
      SignificantSays(t[1..]);
    }
  }

  lemma {:induction false} DigitsOfValue(t: Text)
    requires t != [] && AllDigits(t) && (|t| > 1 ==> t[0] != ZERO)
    ensures Digits(DigitsValue(t)) == t
  {
    var front, last := t[..|t| - 1], t[|t| - 1];
    assert t == front + [last];
    if front == [] {
      assert DigitsValue(front) == 0;
    } else {
      DigitsOfValue(front);
      assert front[0] == t[0];
      LeadingDigit(DigitsValue(front));
    }
  }

  lemma SignificantCount(t: Text)
    requires t != [] && DigitText(t)
    ensures PlaceValue(t) >= 0 && DigitCount(PlaceValue(t)) == |Significant(t)|
    ensures PlaceValue(t) == 0 <==> Significant(t) == [Code('0')]
  {
    var s := Significant(t);
    SignificantSays(t);
    DigitsOfValue(s);
    DigitsValueIsPlaceValue(s);
    LeadingDigit(DigitsValue(s));
  }

  // The number that a numeral says.
  function NumberMeant(n: Numeral): (number: Number)
    requires Spelled(n)
    ensures Says(n, number)
  {
    SignificantCount(n.whole + n.fraction);
    Dec(n.negative, PlaceValue(n.whole + n.fraction), ExponentOf(n.exponent) - |n.fraction|)
  }

  lemma OneMeaning(n: Numeral, number: Number)
    requires Spelled(n) && Says(n, number)
    ensures number == NumberMeant(n)
  {
  }

  lemma SmallIff(n: Numeral, number: Number)
    requires Spelled(n) && Says(n, number)
    ensures |NumeralText(n)| <= MAX_TOKEN && InBounds(number) <==> Small(n)
  {
    SignificantCount(n.whole + n.fraction);
  }

  // ---- Reading ----

  // Text that cannot continue a number.
  predicate Stops(rest: Text) { rest == [] || !(IsDigit(rest[0]) || rest[0] == DOT || rest[0] == 101 || rest[0] == 69) }

  lemma ExponentStarts(e: Exponent, rest: Text)
    requires Stops(rest)
    ensures var w := ExponentText(e) + rest; w == [] || !(IsDigit(w[0]) || w[0] == DOT)
  {
    if e.NoPower? {
      assert ExponentText(e) + rest == rest;
    }
  }

  lemma SignRead(e: Exponent, w: Text, rest: Text)
    requires e.Power10? && e.digits != [] && DigitText(e.digits)
    requires w == [Code(if e.upper then 'E' else 'e')] + SignText(e.sign) + (e.digits + rest)
    ensures SignLength(w) == |SignText(e.sign)| && w[1 + SignLength(w)..] == e.digits + rest
    ensures w[0] == (if e.upper then 69 else 101) && |w| > 1 && (w[1] == MINUS <==> e.sign == Minus)
  {
    assert e.digits[0] in e.digits;
    Dropped([Code(if e.upper then 'E' else 'e')] + SignText(e.sign), e.digits + rest);
    assert e.sign == Bare ==> w[1] == e.digits[0];
  }

  lemma ExponentRead(e: Exponent, rest: Text, w: Text)
    requires Stops(rest) && (e.Power10? ==> e.digits != [] && DigitText(e.digits)) && w == ExponentText(e) + rest
    ensures ExponentLength(w) == |ExponentText(e)| && ExponentValue(w) == ExponentOf(e)
  {
    if e.NoPower? {
      assert w == rest;
    } else {
      SignRead(e, w, rest);
      DigitRunStops(e.digits, rest);
      PowerRead(e, w, rest, 1 + |SignText(e.sign)|);
    }
  }

  lemma PowerRead(e: Exponent, w: Text, rest: Text, start: nat)
    requires e.Power10? && e.digits != [] && DigitText(e.digits) && start == 1 + SignLength(w) <= |w|
    requires w[start..] == e.digits + rest && DigitRun(e.digits + rest) == |e.digits| && |w| > 1
    requires (w[0] == 101 || w[0] == 69) && (w[1] == MINUS <==> e.sign == Minus) && SignLength(w) == |SignText(e.sign)|
    ensures ExponentLength(w) == |ExponentText(e)| && ExponentValue(w) == ExponentOf(e)
  {
    assert w[start..start + |e.digits|] == w[start..][..|e.digits|];
    Dropped(e.digits, rest);
    DigitsValueIsPlaceValue(e.digits);
  }

  lemma FractionReads(f: Text, w: Text)
    requires DigitText(f) && (w == [] || !(IsDigit(w[0]) || w[0] == DOT))
    ensures var v := FractionText(f) + w;
            && FractionLength(v) == |FractionText(f)| && v[|FractionText(f)|..] == w
            && (v == [] || !IsDigit(v[0]))
            && f == if FractionLength(v) > 0 then v[1..FractionLength(v)] else []
  {
    if f == [] {
      assert FractionText(f) + w == w;
    } else {
      PointReads(f, w, FractionText(f) + w);
    }
  }

  lemma PointReads(f: Text, w: Text, v: Text)
    requires f != [] && DigitText(f) && (w == [] || !IsDigit(w[0])) && v == FractionText(f) + w
    ensures FractionLength(v) == 1 + |f| && v[1 + |f|..] == w && v[0] == DOT && v[1..1 + |f|] == f
  {
    Dropped([Code('.')], f + w);
    Associates([Code('.')], f, w);
    DigitRunStops(f, w);
    Dropped(f, w);
  }

  lemma WholeReads(whole: Text, v: Text)
    requires whole != [] && DigitText(whole) && (|whole| > 1 ==> whole[0] != Code('0')) && (v == [] || !IsDigit(v[0]))
    ensures var u := whole + v; IntegerLength(u) == |whole| && u[..|whole|] == whole && u[|whole|..] == v
  {
    Dropped(whole, v);
    DigitRunStops(whole, v);
    assert (whole + v)[0] == whole[0];
  }

  // The scan, once the three parts are read.
  lemma ScanReads(n: Numeral, u: Text, v: Text, w: Text, rest: Text)
    requires n.whole != [] && IntegerLength(u) == |n.whole| && u[..|n.whole|] == n.whole && u[|n.whole|..] == v
    requires FractionLength(v) == |FractionText(n.fraction)| && v[|FractionText(n.fraction)|..] == w
    requires n.fraction == if FractionLength(v) > 0 then v[1..FractionLength(v)] else []
    requires ExponentLength(w) == |ExponentText(n.exponent)| && w[|ExponentText(n.exponent)|..] == rest
    requires ExponentValue(w) == ExponentOf(n.exponent) && AllDigits(n.whole + n.fraction)
    requires DigitsValue(n.whole + n.fraction) == PlaceValue(n.whole + n.fraction)
    ensures var p := ScanNumber(n.negative, u); p.Good? && Says(n, p.value) && p.rest == rest
  {
  }

  lemma FourParts(a: Text, b: Text, c: Text, d: Text)
    ensures a + (b + (c + d)) == (a + (b + c)) + d
  {
  }

  lemma DigitsTogether(a: Text, b: Text)
    requires DigitText(a) && DigitText(b)
    ensures AllDigits(a + b) && DigitsValue(a + b) == PlaceValue(a + b)
  {
    DigitsValueIsPlaceValue(a + b);
  }

  lemma PartsRead(n: Numeral, u: Text, v: Text, w: Text, rest: Text)
    requires Spelled(n) && Stops(rest)
    requires w == ExponentText(n.exponent) + rest && v == FractionText(n.fraction) + w && u == n.whole + v
    ensures var p := ScanNumber(n.negative, u); p.Good? && Says(n, p.value) && p.rest == rest
  {
    ExponentStarts(n.exponent, rest);
    ExponentRead(n.exponent, rest, w);
    Dropped(ExponentText(n.exponent), rest);
    FractionReads(n.fraction, w);
    WholeReads(n.whole, v);
    DigitsTogether(n.whole, n.fraction);
    ScanReads(n, u, v, w, rest);
  }

  lemma UnsignedReads(n: Numeral, rest: Text)
    requires Spelled(n) && Stops(rest)
    ensures var p := ScanNumber(n.negative, UnsignedText(n) + rest);
            p.Good? && Says(n, p.value) && p.rest == rest
  {
    var f, e := FractionText(n.fraction), ExponentText(n.exponent);
    FourParts(n.whole, f, e, rest);
    PartsRead(n, n.whole + (f + (e + rest)), f + (e + rest), e + rest, rest);
  }

  lemma SignReads(n: Numeral, t: Text, u: Text, rest: Text)
    requires Spelled(n) && t == NumeralText(n) + rest && u == UnsignedText(n) + rest
    ensures t != [] && (t[0] == MINUS <==> n.negative) && (if t[0] == MINUS then t[1..] else t) == u
    ensures |t| - |rest| == |NumeralText(n)| && IsDigit(u[0])
  {
    assert n.whole[0] in n.whole && u[0] == n.whole[0];
    if n.negative {
      assert t == [Code('-')] + u;
    } else {
      assert NumeralText(n) == UnsignedText(n);
    }
  }

  // Every spelling is read as the number it says, or refused exactly when it is not small.
  lemma NumeralReads(n: Numeral, rest: Text)
    requires Spelled(n) && Stops(rest)
    ensures ParseNumber(NumeralText(n) + rest, true)
         == if Small(n) then Good(Num(NumberMeant(n)), rest) else Bad(NumericLimit)
  {
    var t, u := NumeralText(n) + rest, UnsignedText(n) + rest;
    SignReads(n, t, u, rest);
    UnsignedReads(n, rest);
    OneMeaning(n, ScanNumber(n.negative, u).value);
    SmallIff(n, NumberMeant(n));
    BoundedReads(n, t, u, rest, NumberMeant(n));
  }

  lemma BoundedReads(n: Numeral, t: Text, u: Text, rest: Text, number: Number)
    requires t != [] && (t[0] == MINUS <==> n.negative) && u == if t[0] == MINUS then t[1..] else t
    requires ScanNumber(n.negative, u) == Good(number, rest) && |t| - |rest| == |NumeralText(n)|
    requires |NumeralText(n)| <= MAX_TOKEN && InBounds(number) <==> Small(n)
    ensures ParseNumber(t, true) == if Small(n) then Good(Num(number), rest) else Bad(NumericLimit)
  {
  }

  // ---- And only spellings are read ----

  lemma WrittenExponent(w: Text) returns (e: Exponent)
    ensures ExponentText(e) == w[..ExponentLength(w)] && (e.Power10? ==> e.digits != [] && DigitText(e.digits))
    ensures ExponentOf(e) == ExponentValue(w)
  {
    var n := ExponentLength(w);
    if n == 0 {
      return NoPower;
    }
    var s := SignLength(w);
    var sign := if s == 0 then Bare else if w[1] == Code('-') then Minus else Plus;
    e := Power10(w[0] == Code('E'), sign, w[1 + s..n]);
    assert w[..n] == [w[0]] + w[1..1 + s] + w[1 + s..n];
    assert SignText(sign) == w[1..1 + s];
    DigitsValueIsPlaceValue(w[1 + s..n]);
  }

  lemma WrittenFraction(v: Text) returns (f: Text)
    ensures FractionText(f) == v[..FractionLength(v)] && DigitText(f)
    ensures f == if FractionLength(v) > 0 then v[1..FractionLength(v)] else []
  {
    var n := FractionLength(v);
    if n == 0 {
      return [];
    }
    f := v[1..n];
    assert v[..n] == [v[0]] + v[1..n];
  }

  lemma Cut(t: Text, i: nat)
    requires i <= |t|
    ensures t == t[..i] + t[i..]
  {
  }

  lemma WrittenWhole(u: Text)
    requires IntegerLength(u) > 0
    ensures var w := u[..IntegerLength(u)]; w != [] && DigitText(w) && (|w| > 1 ==> w[0] != Code('0'))
  {
    assert u[..IntegerLength(u)] == u[0..IntegerLength(u)];
  }

  lemma WrittenUnsigned(negative: bool, u: Text) returns (n: Numeral)
    requires ScanNumber(negative, u).Good?
    ensures Spelled(n) && n.negative == negative && u == UnsignedText(n) + ScanNumber(negative, u).rest
    ensures Says(n, ScanNumber(negative, u).value)
  {
    var i := IntegerLength(u);
    var v := u[i..];
    var f := FractionLength(v);
    var w := v[f..];
    var x := ExponentLength(w);
    var fraction := WrittenFraction(v);
    var e := WrittenExponent(w);
    WrittenWhole(u);
    n := Numeral(negative, u[..i], fraction, e);
    Cut(u, i);
    Cut(v, f);
    Cut(w, x);
    FourParts(u[..i], v[..f], w[..x], w[x..]);
    DigitsTogether(u[..i], fraction);
    ScanRest(negative, u, u[..i], v, f, w, x, fraction);
  }

  lemma ScanRest(negative: bool, u: Text, whole: Text, v: Text, f: nat, w: Text, x: nat, fraction: Text)
    requires IntegerLength(u) > 0 && whole == u[..IntegerLength(u)] && v == u[IntegerLength(u)..]
    requires f == FractionLength(v) && w == v[f..] && x == ExponentLength(w) && AllDigits(whole + fraction)
    requires fraction == if f > 0 then v[1..f] else []
    ensures ScanNumber(negative, u)
         == Good(Dec(negative, DigitsValue(whole + fraction), ExponentValue(w) - |fraction|), w[x..])
  {
  }

  lemma WithSign(n: Numeral, t: Text, rest: Text)
    requires n.negative ==> t != [] && t[0] == MINUS && t[1..] == UnsignedText(n) + rest
    requires !n.negative ==> t == UnsignedText(n) + rest
    ensures t == NumeralText(n) + rest
  {
    if n.negative {
      Cut(t, 1);
      assert t[..1] == [Code('-')];
      Associates([Code('-')], UnsignedText(n), rest);
    } else {
      assert NumeralText(n) == UnsignedText(n);
    }
  }

  // Whatever is read as a number is a small spelling of it.
  lemma WrittenNumber(t: Text) returns (n: Numeral)
    requires ParseNumber(t, true).Good?
    ensures Spelled(n) && Small(n) && t == NumeralText(n) + ParseNumber(t, true).rest
    ensures ParseNumber(t, true).value == Num(NumberMeant(n))
  {
    var negative := t != [] && t[0] == MINUS;
    var u := if negative then t[1..] else t;
    NumberRest(t, negative, u);
    n := WrittenUnsigned(negative, u);
    WithSign(n, t, ScanNumber(negative, u).rest);
    OneMeaning(n, ScanNumber(negative, u).value);
    SmallIff(n, NumberMeant(n));
  }

  lemma NumberRest(t: Text, negative: bool, u: Text)
    requires ParseNumber(t, true).Good? && negative == (t != [] && t[0] == MINUS) && u == if negative then t[1..] else t
    ensures ScanNumber(negative, u).Good? && ParseNumber(t, true).rest == ScanNumber(negative, u).rest
    ensures ParseNumber(t, true).value == Num(ScanNumber(negative, u).value)
    ensures |t| - |ParseNumber(t, true).rest| <= MAX_TOKEN && InBounds(ScanNumber(negative, u).value)
  {
  }
}
