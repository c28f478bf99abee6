// Numbers within the ranges of a request: their normal forms stay in bounds and range, and are
// short enough to be decoded again (shared/json_contract.py:58-98, character_spec.py:52-64).
// A range keeps a number to three digits before the point and, from below, to as many places
// as it has digits; so unlike canonical JSON in general, a request is always read back.
module RequestNumbers {
  import opened Options
  import opened Unicode
  import opened CanonicalNumbers
  import opened Json
  import opened JsonPrinter
  import opened JsonParser
  import opened JsonRoundTrip
  import opened CharacterSpec

  lemma CancelOrder(x: int, y: int, k: int)
    requires k > 0 && x * k <= y * k
    ensures x <= y
  {
    var d := y - x;
    assert d * k == y * k - x * k;
  }

  lemma {:induction false} PowerGrows(j: nat, k: nat)
    requires j <= k
    ensures Power(j) <= Power(k)
  {
    if j < k {
      PowerGrows(j, k - 1);
    }
  }

  // A number has at most k digits exactly when it is below the k-th power of ten.
  lemma {:induction false} DigitsBelowPower(n: nat, k: nat)
    requires k >= 1
    ensures DigitCount(n) <= k <==> n < Power(k)
  {
    if n < 10 {
      PowerGrows(1, k);
      assert Power(1) == 10 * Power(0);
    } else if k == 1 {
      assert Power(1) == 10 * Power(0);
    } else {
      DigitsBelowPower(n / 10, k - 1);
      assert n / 10 < Power(k - 1) <==> n < 10 * Power(k - 1);
    }
  }

  // An integer may be printed exactly when it is less than 256 digits allow, on either side.
  lemma IntegerInBoundsIff(i: int)
    ensures InBounds(Int(i)) <==> Magnitude(i) < Power(256)
  {
    DigitsBelowPower(Magnitude(i), 256);
  }

  lemma {:induction false} WholeIsQuotient(c: nat, places: nat)
    ensures Whole(c, places) * Power(places) <= c
  {
    if places > 0 {
      WholeIsQuotient(c / 10, places - 1);
      var w, p := Whole(c / 10, places - 1), Power(places - 1);
      TenTimes(w, p);
      assert (10 * w) * p == 10 * (w * p);
    }
  }

  // The range of a decimal, read at its normal form.
  lemma RangeOfNormal(n: Number, minimum: int, maximum: int)
    requires n.Dec? && InRange(n, minimum, maximum) && (minimum >= 0)
    ensures var p := Normalize(n);
            !p.negative && minimum * Power(p.places) <= 10 * p.digits <= maximum * Power(p.places)
  {
    var s := Places(n);
    NormalKeepsValue(n, s);
    var p := Normalize(n);
    SignOfPlain(p, s);
    NonNegative(minimum, Power(s));
    PowerAdds(p.places, s - p.places);
    Regroup(minimum, Power(p.places), Power(s - p.places));
    Regroup(maximum, Power(p.places), Power(s - p.places));
    Regroup(10, p.digits, Power(s - p.places));
    CancelOrder(minimum * Power(p.places), 10 * p.digits, Power(s - p.places));
    CancelOrder(10 * p.digits, maximum * Power(p.places), Power(s - p.places));
  }

  lemma NonNegative(x: int, k: int)
    requires x >= 0 && k > 0
    ensures x * k >= 0
  {
  }

  lemma NormalInRange(n: Number, minimum: int, maximum: int)
    requires n.Dec? && InRange(n, minimum, maximum) && minimum >= 0
    ensures InRange(FromPlain(Normalize(n)), minimum, maximum)
  {
    RangeOfNormal(n, minimum, maximum);
    var p := Normalize(n);
    assert Places(FromPlain(p)) == p.places;
    assert Value(FromPlain(p), p.places) == p.digits * Power(0);
  }

  lemma FewWholeDigits(w: nat, q: nat, maximum: int, k: nat)
    requires w * k <= q && 10 * q <= maximum * k && k > 0 && maximum <= 2500
    ensures w <= 250
  {
    Regroup(10, w, k);
    assert (10 * w) * k <= maximum * k;
    CancelOrder(10 * w, maximum, k);
  }

  lemma PowerReflects(j: nat, k: nat)
    ensures j >= k ==> Power(j) >= Power(k)
  {
    if j >= k {
      PowerGrows(k, j);
    }
  }

  // At least 0.7: no more places than digits.
  lemma FewPlaces(digits: nat, places: nat, minimum: int, k: nat)
    requires minimum >= 7 && minimum * Power(places) <= 10 * digits && digits < Power(k)
    ensures places <= k
  {
    NonNegative(minimum - 7, Power(places));
    assert 7 * Power(places) <= minimum * Power(places);
    assert Power(k + 1) == 10 * Power(k);
    PowerReflects(places, k + 1);
  }

  // The ranges of a request: from 0.7 to 250, or exactly zero.
  predicate RequestRange(minimum: int, maximum: int) {
    (minimum >= 7 && maximum <= 2500) || (minimum == 0 && maximum == 0)
  }

  lemma DigitsOfStripped(n: Number, k: nat)
    requires n.Dec? && DigitCount(n.coefficient) <= k && k >= 3
    requires 10 * Normalize(n).digits <= 2500 * Power(Normalize(n).places)
    ensures Normalize(n).digits < Power(k)
  {
    var p := Normalize(n);
    DigitsBelowPower(n.coefficient, k);
    if n.coefficient > 0 && n.exponent >= 0 {
      assert p.places == 0 && Power(0) == 1;
      PowerGrows(3, k);
      assert Power(3) == 10 * (10 * (10 * Power(0)));
    }
  }

  lemma RangeFits(n: Number, minimum: int, maximum: int, k: nat)
    requires n.Dec? && DigitCount(n.coefficient) <= k && 3 <= k <= MAX_DIGITS
    requires RequestRange(minimum, maximum) && InRange(n, minimum, maximum)
    ensures |Render(Normalize(n))| <= k + 5 && DigitCount(Normalize(n).digits) <= k
  {
    var p := Normalize(n);
    RangeOfNormal(n, minimum, maximum);
    if minimum == 0 {
      NonNegative(0, Power(p.places));
      assert p.digits == 0;
      ZeroIsPlain(p);
    } else {
      assert maximum * Power(p.places) <= 2500 * Power(p.places) by {
        NonNegative(2500 - maximum, Power(p.places));
      }
      DigitsOfStripped(n, k);
      DigitsBelowPower(p.digits, k);
      FewPlaces(p.digits, p.places, minimum, k);
      WholeIsQuotient(p.digits, p.places);
      FewWholeDigits(Whole(p.digits, p.places), p.digits, maximum, Power(p.places));
      DigitsBelowPower(Whole(p.digits, p.places), 3);
      assert Power(3) == 10 * (10 * (10 * Power(0)));
    }
  }

  lemma ZeroIsPlain(p: Plain)
    requires p.Normal() && p.digits == 0
    ensures p == Plain(false, 0, 0)
  {
  }

  lemma AcceptedFits(n: Number, minimum: int, maximum: int)
    requires n.Dec? && InBounds(n) && RequestRange(minimum, maximum) && InRange(n, minimum, maximum)
    ensures Fits(n)
  {
    RangeFits(n, minimum, maximum, MAX_DIGITS);
  }

  // A number that a request accepts can be printed and read back, and is then accepted as its
  // normal form.
  lemma AcceptedNumber(v: Json, minimum: int, maximum: int)
    requires NumberIn(v, minimum, maximum).Some? && RequestRange(minimum, maximum)
    ensures var n := NumberIn(v, minimum, maximum).value;
            && n.Dec? && InBounds(n) && InRange(n, minimum, maximum) && Fits(n) && Normalize(n) == Normalize(v.number)
  {
    DecimalOfInt(v.number);
    AcceptedFits(AsDecimal(v.number), minimum, maximum);
  }

  lemma AcceptedAgain(v: Json, minimum: int, maximum: int)
    requires NumberIn(v, minimum, maximum).Some? && RequestRange(minimum, maximum)
    ensures NumberIn(Norm(v), minimum, maximum)
         == Some(FromPlain(Normalize(NumberIn(v, minimum, maximum).value)))
  {
    AcceptedNumber(v, minimum, maximum);
    var n := NumberIn(v, minimum, maximum).value;
    NormalInRange(n, minimum, maximum);
    FitsIsInBounds(Normalize(n));
  }

  lemma DecimalOfInt(n: Number)
    ensures Normalize(AsDecimal(n)) == Normalize(n) && (InBounds(n) ==> InBounds(AsDecimal(n)))
  {
    if n.Int? {
      assert Scaled(Magnitude(n.i), 0) == Magnitude(n.i);
    }
  }
}
