// Reading back what the printer wrote: numbers, strings, then whole values.
module JsonRoundTrip {
  import opened Options
  import opened Unicode
  import opened CanonicalNumbers
  import opened Json
  import opened JsonPrinter
  import opened JsonParser

  lemma Dropped(a: Text, b: Text)
    ensures (a + b)[|a|..] == b && (a + b)[..|a|] == a
  {
  }

  lemma Associates(a: Text, b: Text, c: Text)
    ensures (a + b) + c == a + (b + c)
  {
  }

  // Text that cannot continue a number.
  predicate Ends(rest: Text) { rest == [] || rest[0] == COMMA || rest[0] == CLOSE_LIST || rest[0] == CLOSE_OBJECT }

  // ---- Numbers ----

  lemma {:induction false} DigitRunStops(d: Text, rest: Text)
    requires AllDigits(d) && (rest == [] || !IsDigit(rest[0]))
    ensures DigitRun(d + rest) == |d|
  {
    if d != [] {
      assert (d + rest)[1..] == d[1..] + rest;
      DigitRunStops(d[1..], rest);
    } else {
      assert d + rest == rest;
    }
  }

  lemma DigitsAreDigits(n: nat)
    ensures AllDigits(Digits(n))
  {
    DigitsRange(n);
  }

  lemma {:induction false} LeadingDigit(n: nat)
    ensures Digits(n)[0] == ZERO <==> n == 0
  {
    if n >= 10 {
      LeadingDigit(n / 10);
    }
  }

  lemma {:induction false} ValueOfDigits(n: nat)
    ensures AllDigits(Digits(n)) && DigitsValue(Digits(n)) == n
  {
    DigitsAreDigits(n);
    if n >= 10 {
      ValueOfDigits(n / 10);
      ValueAppends(Digits(n / 10), ZERO + n % 10);
    } else {
      ValueAppends([], ZERO + n);
      assert [] + [ZERO + n] == [ZERO + n];
    }
  }

  lemma ValueAppends(t: Text, d: CodePoint)
    requires AllDigits(t) && IsDigit(d)
    ensures AllDigits(t + [d]) && DigitsValue(t + [d]) == 10 * DigitsValue(t) + (d - ZERO)
  {
    assert (t + [d])[..|t + [d]| - 1] == t;
  }

  lemma {:induction false} ValueOfParts(c: nat, places: nat)
    ensures var t := Digits(Whole(c, places)) + LastDigits(c, places); AllDigits(t) && DigitsValue(t) == c
  {
    if places == 0 {
      ValueOfDigits(c);
      assert Digits(c) + [] == Digits(c);
    } else {
      ValueOfParts(c / 10, places - 1);
      var front := Digits(Whole(c / 10, places - 1)) + LastDigits(c / 10, places - 1);
      ValueAppends(front, ZERO + c % 10);
      assert Digits(Whole(c, places)) + LastDigits(c, places) == front + [ZERO + c % 10];
    }
  }

  lemma IntegerPart(n: nat, rest: Text)
    requires rest == [] || !IsDigit(rest[0])
    ensures IntegerLength(Digits(n) + rest) == |Digits(n)|
  {
    DigitsAreDigits(n);
    LeadingDigit(n);
    if n > 0 {
      DigitRunStops(Digits(n), rest);
    }
  }

  lemma FractionPart(c: nat, places: nat, rest: Text)
    requires Ends(rest)
    ensures FractionLength(Fraction(c, places) + rest) == |Fraction(c, places)|
  {
    if places > 0 {
      LastDigitsRange(c, places);
      var digits := LastDigits(c, places);
      Associates([DOT], digits, rest);
      Dropped([DOT], digits + rest);
      DigitRunStops(digits, rest);
    } else {
      assert Fraction(c, places) + rest == rest;
    }
  }

  function Unsigned(p: Plain): Text { Digits(Whole(p.digits, p.places)) + Fraction(p.digits, p.places) }

  lemma SignedText(p: Plain, rest: Text)
    ensures Render(p) + rest == (if p.negative then [MINUS] else []) + (Unsigned(p) + rest)
    ensures IsDigit((Unsigned(p) + rest)[0])
  {
    DigitsAreDigits(Whole(p.digits, p.places));
    if !p.negative {
      assert [] + (Unsigned(p) + rest) == Unsigned(p) + rest;
    }
  }

  // Small enough to be read back: at most 288 characters and 256 digits.
  predicate Fits(n: Number) {
    |Render(Normalize(n))| <= MAX_TOKEN && DigitCount(Normalize(n).digits) <= MAX_DIGITS
  }

  lemma FitsIsInBounds(p: Plain)
    requires p.Normal() && |Render(p)| <= MAX_TOKEN
    ensures InBounds(FromPlain(p)) <==> DigitCount(p.digits) <= MAX_DIGITS
  {
    assert p.places <= |Fraction(p.digits, p.places)| <= |Render(p)|;
  }

  lemma WholeRead(n: nat, v: Text)
    requires v == [] || !IsDigit(v[0])
    ensures var u := Digits(n) + v;
            IntegerLength(u) == |Digits(n)| && u[|Digits(n)|..] == v && u[..|Digits(n)|] == Digits(n)
  {
    IntegerPart(n, v);
    Dropped(Digits(n), v);
  }

  lemma FractionRead(c: nat, places: nat, rest: Text, f: Text, v: Text)
    requires Ends(rest) && f == Fraction(c, places) && v == f + rest
    ensures (v == [] || !IsDigit(v[0])) && FractionLength(v) == |f| && v[|f|..] == rest
    ensures (if |f| > 0 then v[1..|f|] else []) == LastDigits(c, places)
  {
    FractionPart(c, places, rest);
    Dropped(f, rest);
    if places > 0 {
      assert v[1..|f|] == v[..|f|][1..];
    }
  }

  lemma NoExponent(rest: Text)
    requires Ends(rest)
    ensures ExponentLength(rest) == 0 && ExponentValue(rest) == 0
  {
  }

  // The scan, once the lengths of the three parts are known.
  lemma ScanParts(negative: bool, u: Text, front: Text, v: Text, f: Text, fraction: Text, rest: Text)
    requires front != [] && IntegerLength(u) == |front| && u[..|front|] == front && u[|front|..] == v
    requires FractionLength(v) == |f| <= |v| && v[|f|..] == rest && fraction == if |f| > 0 then v[1..|f|] else []
    requires ExponentLength(rest) == 0 && ExponentValue(rest) == 0 && AllDigits(front + fraction)
    ensures ScanNumber(negative, u) == Good(Dec(negative, DigitsValue(front + fraction), -|fraction|), rest)
  {
    assert rest[0..] == rest;
  }

  lemma ScanRead(p: Plain, rest: Text, front: Text, f: Text, v: Text, u: Text)
    requires Ends(rest) && front == Digits(Whole(p.digits, p.places)) && f == Fraction(p.digits, p.places)
    requires v == f + rest && u == front + v
    ensures ScanNumber(p.negative, u) == Good(FromPlain(p), rest)
  {
    FractionRead(p.digits, p.places, rest, f, v);
    WholeRead(Whole(p.digits, p.places), v);
    NoExponent(rest);
    ValueOfParts(p.digits, p.places);
    ScanParts(p.negative, u, front, v, f, LastDigits(p.digits, p.places), rest);
  }

  lemma ScanRoundTrip(p: Plain, rest: Text)
    requires Ends(rest)
    ensures ScanNumber(p.negative, Unsigned(p) + rest) == Good(FromPlain(p), rest)
  {
    var front, f := Digits(Whole(p.digits, p.places)), Fraction(p.digits, p.places);
    Associates(front, f, rest);
    ScanRead(p, rest, front, f, f + rest, Unsigned(p) + rest);
  }

  lemma NumberRoundTrip(p: Plain, rest: Text, bounded: bool)
    requires p.Normal() && Ends(rest)
    ensures ParseNumber(Render(p) + rest, bounded)
         == if bounded && !Fits(FromPlain(p)) then Bad(NumericLimit) else Good(Num(FromPlain(p)), rest)
  {
    NormalOfNormal(p);
    SignedText(p, rest);
    ScanRoundTrip(p, rest);
    var t := Render(p) + rest;
    assert t[0] == MINUS <==> p.negative;
    assert (if t[0] == MINUS then t[1..] else t) == Unsigned(p) + rest;
    if |Render(p)| <= MAX_TOKEN {
      FitsIsInBounds(p);
    }
  }

  // ---- Strings ----

  lemma ControlEscape(c: CodePoint, rest: Text)
    requires c < SPACE
    ensures FourHex([ZERO, ZERO, HexDigit(c / 16), HexDigit(c % 16)] + rest) == Some(c as nat)
  {
    assert HexValue(HexDigit(c % 16)) == Some(c % 16);
    assert HexValue(HexDigit(c / 16)) == Some(c / 16);
  }

  lemma CharacterRoundTrip(c: CodePoint, rest: Text)
    ensures var t := Escaped(c) + rest; t != [] && t[0] != QUOTE && ParseCharacter(t) == Good(c, rest)
  {
    var t := Escaped(c) + rest;
    Dropped(Escaped(c), rest);
    assert forall k :: 0 <= k < |Escaped(c)| ==> t[k] == Escaped(c)[k];
    if |Escaped(c)| == 6 {
      ControlEscape(c, rest);
      assert t[2..] == [ZERO, ZERO, HexDigit(c / 16), HexDigit(c % 16)] + rest;
    }
  }

  lemma {:induction false} StringRoundTrip(s: Text, rest: Text)
    ensures ParseString(EscapedText(s) + [QUOTE] + rest) == Good(s, rest)
  {
    var t := EscapedText(s) + [QUOTE] + rest;
    if s == [] {
      assert t == [QUOTE] + rest;
    } else {
      var tail := EscapedText(s[1..]) + [QUOTE] + rest;
      assert t == Escaped(s[0]) + tail;
      CharacterRoundTrip(s[0], tail);
      StringRoundTrip(s[1..], rest);
      assert [s[0]] + s[1..] == s;
    }
  }

  lemma Quoted(inner: Text, rest: Text)
    ensures var t := ([QUOTE] + inner + [QUOTE]) + rest; t != [] && t[0] == QUOTE && t[1..] == inner + [QUOTE] + rest
  {
    assert ([QUOTE] + inner + [QUOTE]) + rest == [QUOTE] + (inner + [QUOTE] + rest);
  }

  lemma QuotedRoundTrip(s: Text, rest: Text)
    ensures var t := PrintString(s) + rest; t != [] && t[0] == QUOTE && ParseString(t[1..]) == Good(s, rest)
  {
    StringRoundTrip(s, rest);
    Quoted(EscapedText(s), rest);
  }

  // ---- Values ----

  // A value in normal form, its members in any order.
  predicate Normalized(v: Json) {
    match v
    case Num(n) => n == FromPlain(Normalize(n))
    case Arr(items) => ItemsNormalized(items)
    case Obj(members) => Distinct(members) && MembersNormalized(members)
    case _ => true
  }

  predicate ItemsNormalized(items: Items) {
    items.NoItems? || (Normalized(items.head) && ItemsNormalized(items.tail))
  }

  predicate MembersNormalized(m: Members) {
    m.NoMembers? || (Normalized(m.value) && MembersNormalized(m.rest))
  }

  predicate AllFit(v: Json) {
    match v
    case Num(n) => Fits(n)
    case Arr(items) => ItemsFit(items)
    case Obj(members) => MembersFit(members)
    case _ => true
  }

  predicate ItemsFit(items: Items) { items.NoItems? || (AllFit(items.head) && ItemsFit(items.tail)) }

  predicate MembersFit(m: Members) { m.NoMembers? || (AllFit(m.value) && MembersFit(m.rest)) }

  // Where no value and no white space starts.
  predicate Starts(t: Text) {
    t != [] && !IsSpace(t[0]) && t[0] != CLOSE_LIST && t[0] != CLOSE_OBJECT
  }

  lemma PrintStarts(v: Json)
    ensures Starts(Print(v))
  {
    if v.Num? {
      SignedText(Normalize(v.number), []);
      assert Render(Normalize(v.number)) + [] == Render(Normalize(v.number));
    }
  }

  function ItemsText(items: Items, rest: Text): Text {
    Join(ItemFragments(items)) + ([CLOSE_LIST] + rest)
  }

  function MembersText(m: Members, rest: Text): Text {
    Join(MemberFragments(m)) + ([CLOSE_OBJECT] + rest)
  }

  // The text after the first item, and after the first member.
  function ItemsAfter(items: Items, rest: Text): Text
    requires items.Item?
  {
    if items.tail.NoItems? then [CLOSE_LIST] + rest else [COMMA] + ItemsText(items.tail, rest)
  }

  function MembersAfter(m: Members, rest: Text): Text
    requires m.Member?
  {
    if m.rest.NoMembers? then [CLOSE_OBJECT] + rest else [COMMA] + MembersText(m.rest, rest)
  }

  lemma ItemsUnfold(items: Items, rest: Text)
    requires items.Item?
    ensures ItemsText(items, rest) == Print(items.head) + ItemsAfter(items, rest)
    ensures Starts(ItemsText(items, rest))
  {
    PrintStarts(items.head);
    var fragments := ItemFragments(items);
    assert fragments[1..] == ItemFragments(items.tail);
    if items.tail.Item? {
      assert ItemsText(items, rest)
          == Print(items.head) + [COMMA] + Join(ItemFragments(items.tail)) + ([CLOSE_LIST] + rest);
    }
  }

  lemma Regrouped(key: Text, value: Text, more: Text, end: Text)
    ensures (key + [COLON] + value + [COMMA] + more) + end == key + ([COLON] + (value + ([COMMA] + (more + end))))
    ensures (key + [COLON] + value) + end == key + ([COLON] + (value + end))
  {
  }

  lemma MembersUnfold(m: Members, rest: Text)
    requires m.Member?
    ensures MembersText(m, rest) == PrintString(m.key) + ([COLON] + (Print(m.value) + MembersAfter(m, rest)))
    ensures Starts(MembersText(m, rest))
  {
    var fragments := MemberFragments(m);
    assert fragments[0] == PrintMember(m.key, m.value) && fragments[1..] == MemberFragments(m.rest);
    Regrouped(PrintString(m.key), Print(m.value), Join(MemberFragments(m.rest)), [CLOSE_OBJECT] + rest);
  }

  lemma NotALetter(p: Plain, rest: Text)
    ensures var t := Render(p) + rest;
            t != [] && (IsDigit(t[0]) || (t[0] == MINUS && |t| > 1 && IsDigit(t[1])))
  {
    SignedText(p, rest);
  }

  lemma OnlyANumber(t: Text, bounded: bool)
    requires t != [] && (IsDigit(t[0]) || (t[0] == MINUS && |t| > 1 && IsDigit(t[1])))
    ensures ParseValue(t, bounded) == ParseNumber(t, bounded)
  {
  }

  lemma NumberValue(n: Number, rest: Text, bounded: bool)
    requires Ends(rest) && Normalized(Num(n))
    ensures ParseValue(Print(Num(n)) + rest, bounded)
         == if bounded && !Fits(n) then Bad(NumericLimit) else Good(Num(n), rest)
  {
    var p := Normalize(n);
    NotALetter(p, rest);
    OnlyANumber(Render(p) + rest, bounded);
    NumberRoundTrip(p, rest, bounded);
  }

  lemma WordValue(v: Json, rest: Text, bounded: bool)
    requires v.Null? || v.Bool?
    ensures ParseValue(Print(v) + rest, bounded) == Good(v, rest)
  {
    var t := Print(v) + rest;
    Dropped(Print(v), rest);
    assert t[..|Print(v)|] == Print(v) && t[0] == Print(v)[0];
  }

  // A printed value is read back, or its first unfit number is refused.
  function Outcome<T>(fits: bool, value: T, rest: Text, bounded: bool): Parsed<T> {
    if bounded && !fits then Bad(NumericLimit) else Good(value, rest)
  }

  lemma {:induction false} ValueRoundTrip(v: Json, rest: Text, bounded: bool)
    requires Normalized(v) && Ends(rest)
    ensures ParseValue(Print(v) + rest, bounded) == Outcome(AllFit(v), v, rest, bounded)
    decreases v
  {
    match v
    case Num(n) => NumberValue(n, rest, bounded);
    case Str(s) => QuotedRoundTrip(s, rest);
    case Arr(items) => ListRoundTrip(items, rest, bounded);
    case Obj(members) => ObjectRoundTrip(members, rest, bounded);
    case _ => WordValue(v, rest, bounded);
  }

  lemma Opens(t: Text, u: Text, bounded: bool)
    requires t == [OPEN_LIST] + u || t == [OPEN_OBJECT] + u
    ensures ParseValue(t, bounded)
         == if t[0] == OPEN_LIST then ParseList(SkipSpace(u), bounded) else ParseObject(SkipSpace(u), bounded)
  {
    assert t[1..] == u;
  }

  lemma ListText(items: Items, rest: Text)
    ensures Print(Arr(items)) + rest == [OPEN_LIST] + ItemsText(items, rest)
  {
  }

  lemma ObjectText(m: Members, rest: Text)
    ensures Print(Obj(m)) + rest == [OPEN_OBJECT] + MembersText(m, rest)
  {
  }

  lemma ListOpens(items: Items, rest: Text, bounded: bool)
    ensures ParseValue(Print(Arr(items)) + rest, bounded) == ParseList(SkipSpace(ItemsText(items, rest)), bounded)
  {
    ListText(items, rest);
    Opens(Print(Arr(items)) + rest, ItemsText(items, rest), bounded);
  }

  lemma ObjectOpens(m: Members, rest: Text, bounded: bool)
    ensures ParseValue(Print(Obj(m)) + rest, bounded) == ParseObject(SkipSpace(MembersText(m, rest)), bounded)
  {
    ObjectText(m, rest);
    Opens(Print(Obj(m)) + rest, MembersText(m, rest), bounded);
  }

  lemma {:induction false} ListRoundTrip(items: Items, rest: Text, bounded: bool)
    requires ItemsNormalized(items) && Ends(rest)
    ensures ParseValue(Print(Arr(items)) + rest, bounded) == Outcome(ItemsFit(items), Arr(items), rest, bounded)
    decreases items, 1
  {
    ListOpens(items, rest, bounded);
    var u := ItemsText(items, rest);
    if items.NoItems? {
      assert u == [CLOSE_LIST] + rest;
    } else {
      ItemsUnfold(items, rest);
      ItemsRoundTrip(items, rest, bounded);
    }
  }

  lemma {:induction false} ItemsRoundTrip(items: Items, rest: Text, bounded: bool)
    requires items.Item? && ItemsNormalized(items) && Ends(rest)
    ensures ParseItems(ItemsText(items, rest), bounded) == Outcome(ItemsFit(items), items, rest, bounded)
    decreases items, 0
  {
    ItemsUnfold(items, rest);
    ValueRoundTrip(items.head, ItemsAfter(items, rest), bounded);
    if items.tail.Item? {
      ItemsRoundTrip(items.tail, rest, bounded);
    }
    FirstItemRead(items, rest, bounded);
  }

  lemma FirstItemRead(items: Items, rest: Text, bounded: bool)
    requires items.Item?
    requires ParseValue(ItemsText(items, rest), bounded)
          == Outcome(AllFit(items.head), items.head, ItemsAfter(items, rest), bounded)
    requires items.tail.Item?
         ==> ParseItems(ItemsText(items.tail, rest), bounded) == Outcome(ItemsFit(items.tail), items.tail, rest, bounded)
    ensures ParseItems(ItemsText(items, rest), bounded) == Outcome(ItemsFit(items), items, rest, bounded)
  {
    var after := ItemsAfter(items, rest);
    if items.tail.NoItems? {
      assert after[1..] == rest;
    } else {
      assert after[1..] == ItemsText(items.tail, rest);
      ItemsUnfold(items.tail, rest);
    }
  }

  lemma {:induction false} ObjectRoundTrip(m: Members, rest: Text, bounded: bool)
    requires Distinct(m) && MembersNormalized(m) && Ends(rest)
    ensures ParseValue(Print(Obj(m)) + rest, bounded) == Outcome(MembersFit(m), Obj(m), rest, bounded)
    decreases m, 1
  {
    ObjectOpens(m, rest, bounded);
    var u := MembersText(m, rest);
    if m.NoMembers? {
      assert u == [CLOSE_OBJECT] + rest;
    } else {
      MembersUnfold(m, rest);
      MembersRoundTrip(m, rest, bounded);
    }
  }

  lemma KeyRoundTrip(key: Text, t: Text, bounded: bool)
    requires Starts(t)
    ensures ParseMembers(PrintString(key) + ([COLON] + t), bounded) == ParseMembersFrom(key, t, bounded)
  {
    QuotedRoundTrip(key, [COLON] + t);
    assert ([COLON] + t)[1..] == t;
  }

  lemma FirstMemberRead(m: Members, t: Text, rest: Text, bounded: bool)
    requires m.Member? && ParseValue(t, bounded) == Outcome(AllFit(m.value), m.value, MembersAfter(m, rest), bounded)
    requires m.rest.Member?
         ==> ParseMembers(MembersText(m.rest, rest), bounded) == Outcome(MembersFit(m.rest), m.rest, rest, bounded)
    ensures ParseMembersFrom(m.key, t, bounded) == Outcome(MembersFit(m), m, rest, bounded)
  {
    var after := MembersAfter(m, rest);
    if m.rest.NoMembers? {
      assert after[1..] == rest;
    } else {
      assert after[1..] == MembersText(m.rest, rest);
      MembersUnfold(m.rest, rest);
    }
  }

  lemma {:induction false} MembersRoundTrip(m: Members, rest: Text, bounded: bool)
    requires m.Member? && MembersNormalized(m) && Ends(rest)
    ensures ParseMembers(MembersText(m, rest), bounded) == Outcome(MembersFit(m), m, rest, bounded)
    decreases m, 0
  {
    var t := Print(m.value) + MembersAfter(m, rest);
    ValueRoundTrip(m.value, MembersAfter(m, rest), bounded);
    if m.rest.Member? {
      MembersRoundTrip(m.rest, rest, bounded);
    }
    FirstMemberRead(m, t, rest, bounded);
    PrintStarts(m.value);
    KeyRoundTrip(m.key, t, bounded);
    MembersUnfold(m, rest);
  }
}
