// Strict decoding (shared/json_contract.py:52-98, 127-152, 155-208): the JSON grammar of
// sections 2 to 7 of RFC 8259 as Python's `json.loads` reads it, with the module's hooks.
module JsonParser {
  import opened Options
  import opened Unicode
  import opened CanonicalNumbers
  import opened Json
  import opened JsonPrinter

  // What one parsing function read from the front of the text, and the text after it.
  datatype Parsed<T> = Good(value: T, rest: Text) | Bad(error: Error)

  predicate IsSpace(c: CodePoint) { c == SPACE || c == TAB || c == NEWLINE || c == RETURN }

  function SkipSpace(t: Text): (r: Text)
    ensures |r| <= |t|
  {
    if t != [] && IsSpace(t[0]) then SkipSpace(t[1..]) else t
  }

  // ---- Numbers: -?(0|[1-9][0-9]*)(\.[0-9]+)?([eE][-+]?[0-9]+)? ----

  predicate IsDigit(c: CodePoint) { ZERO <= c <= ZERO + 9 }

  predicate AllDigits(t: Text) { forall c :: c in t ==> IsDigit(c) }

  predicate DigitsBetween(t: Text, i: nat, j: nat) { i <= j <= |t| && AllDigits(t[i..j]) }

  function DigitRun(t: Text): (n: nat)
    ensures DigitsBetween(t, 0, n)
  {
    if t != [] && IsDigit(t[0]) then
      var n := 1 + DigitRun(t[1..]);
      assert t[..n] == [t[0]] + t[1..][..n - 1];
      n
    else 0
  }

  function DigitsValue(t: Text): nat
    requires AllDigits(t)
  {
    if t == [] then 0 else 10 * DigitsValue(t[..|t| - 1]) + DigitValue(t[|t| - 1])
  }

  function DigitValue(c: CodePoint): (d: nat)
    requires IsDigit(c)
    ensures d < 10
  {
    c - ZERO
  }

  function IntegerLength(t: Text): (n: nat)
    ensures DigitsBetween(t, 0, n)
  {
    if t != [] && t[0] == ZERO then 1 else DigitRun(t)
  }

  function FractionLength(t: Text): (n: nat)
    ensures n == 0 || (n >= 2 && DigitsBetween(t, 1, n))
  {
    if t != [] && t[0] == DOT && DigitRun(t[1..]) > 0 then
      assert t[1..][..DigitRun(t[1..])] == t[1..1 + DigitRun(t[1..])];
      1 + DigitRun(t[1..])
    else 0
  }

  predicate IsSign(c: CodePoint) { c == 43 || c == MINUS }

  function SignLength(t: Text): nat { if |t| > 1 && IsSign(t[1]) then 1 else 0 }

  function ExponentLength(t: Text): (n: nat)
    ensures n == 0 || (n > 1 + SignLength(t) && DigitsBetween(t, 1 + SignLength(t), n))
  {
    if t != [] && (t[0] == 101 || t[0] == 69) then
      var start := 1 + SignLength(t);
      var run := DigitRun(t[start..]);
      assert t[start..][..run] == t[start..start + run];
      if run > 0 then start + run else 0
    else 0
  }

  function ExponentValue(t: Text): int {
    var n := ExponentLength(t);
    if n == 0 then 0
    else Signed(t[1] == MINUS, DigitsValue(t[1 + SignLength(t)..n]))
  }

  // The longest number at the front of the text after its sign, as `Decimal` reads it.
  function ScanNumber(negative: bool, u: Text): (p: Parsed<Number>)
    ensures p.Good? ==> |p.rest| < |u| && p.value.Dec?
  {
    var whole := IntegerLength(u);
    if whole == 0 then Bad(InvalidJson)
    else
      var v := u[whole..];
      var f := FractionLength(v);
      var fraction := if f > 0 then v[1..f] else [];
      var w := v[f..];
      Good(Dec(negative, DigitsValue(u[..whole] + fraction), ExponentValue(w) - |fraction|), w[ExponentLength(w)..])
  }

  // `_bounded_decimal`; without `bounded`, `Decimal` alone.
  function ParseNumber(t: Text, bounded: bool): (p: Parsed<Json>)
    ensures p.Good? ==> |p.rest| < |t|
  {
    var negative := t != [] && t[0] == MINUS;
    var n := ScanNumber(negative, if negative then t[1..] else t);
    if n.Bad? then Bad(n.error)
    else if bounded && (|t| - |n.rest| > MAX_TOKEN || !InBounds(n.value)) then Bad(NumericLimit)
    else Good(Num(n.value), n.rest)
  }

  // ---- Strings ----

  function HexValue(c: CodePoint): (d: Option<nat>)
    ensures d.Some? ==> d.value < 16
  {
    if IsDigit(c) then Some(c - ZERO)
    else if 65 <= c <= 70 then Some(c - 55)
    else if 97 <= c <= 102 then Some(c - 87)
    else None
  }

  // The four digits of a \u escape at the front.
  function FourHex(t: Text): (u: Option<nat>)
    ensures u.Some? ==> u.value < 0x1_0000
  {
    if |t| < 4 || HexValue(t[0]).None? || HexValue(t[1]).None? || HexValue(t[2]).None? || HexValue(t[3]).None? then None
    else
      Some(4096 * HexValue(t[0]).value + 256 * HexValue(t[1]).value + 16 * HexValue(t[2]).value
           + HexValue(t[3]).value)
  }

  // A low surrogate escape at the front, which completes the pair.
  function LowSurrogate(t: Text): (low: Option<nat>)
    ensures low.Some? ==> |t| >= 6 && 0xDC00 <= low.value <= 0xDFFF
  {
    if |t| < 6 || t[0] != BACKSLASH || t[1] != 117 then None
    else
      var u := FourHex(t[2..]);
      if u.Some? && 0xDC00 <= u.value <= 0xDFFF then u else None
  }

  function ParseUnicodeEscape(t: Text): (p: Parsed<CodePoint>)
    requires |t| >= 2
    ensures p.Good? ==> |p.rest| < |t|
  {
    var u := FourHex(t[2..]);
    if u.None? then Bad(InvalidJson)
    else
      var low := LowSurrogate(t[6..]);
      if 0xD800 <= u.value <= 0xDBFF && low.Some? then
        Good(0x1_0000 + 1024 * (u.value - 0xD800) + (low.value - 0xDC00), t[12..])
      else Good(u.value, t[6..])
  }

  function ParseEscape(t: Text): (p: Parsed<CodePoint>)
    requires t != [] && t[0] == BACKSLASH
    ensures p.Good? ==> |p.rest| < |t|
  {
    if |t| < 2 then Bad(InvalidJson)
    else if t[1] == QUOTE || t[1] == BACKSLASH || t[1] == 47 then Good(t[1], t[2..])
    else if t[1] == 98 then Good(BACKSPACE, t[2..])
    else if t[1] == 102 then Good(FORM_FEED, t[2..])
    else if t[1] == 110 then Good(NEWLINE, t[2..])
    else if t[1] == 114 then Good(RETURN, t[2..])
    else if t[1] == 116 then Good(TAB, t[2..])
    else if t[1] == 117 then ParseUnicodeEscape(t)
    else Bad(InvalidJson)
  }

  function ParseCharacter(t: Text): (p: Parsed<CodePoint>)
    requires t != []
    ensures p.Good? ==> |p.rest| < |t|
  {
    if t[0] == BACKSLASH then ParseEscape(t)
    else if t[0] < SPACE then Bad(InvalidJson)
    else Good(t[0], t[1..])
  }

  // The string whose opening quote has been read.
  function ParseString(t: Text): (p: Parsed<Text>)
    ensures p.Good? ==> |p.rest| < |t|
    decreases |t|
  {
    if t == [] then Bad(InvalidJson)
    else if t[0] == QUOTE then Good([], t[1..])
    else
      var c := ParseCharacter(t);
      if c.Bad? then Bad(c.error)
      else
        var s := ParseString(c.rest);
        if s.Bad? then s else Good([c.value] + s.value, s.rest)
  }

  // ---- Values ----

  const NAN: Text := [78, 97, 78]
  const INFINITY: Text := [73, 110, 102, 105, 110, 105, 116, 121]

  // `_object_without_duplicates` as a condition on the pairs.
  predicate Distinct(m: Members) { m.NoMembers? || (m.key !in Keys(m.rest) && Distinct(m.rest)) }

  // The constants, and the three that the module refuses.
  function ParseWord(t: Text): (p: Parsed<Json>)
    ensures p.Good? ==> |p.rest| < |t|
  {
    if NULL <= t then Good(Null, t[4..])
    else if TRUE <= t then Good(Bool(true), t[4..])
    else if FALSE <= t then Good(Bool(false), t[5..])
    else if NAN <= t || INFINITY <= t || [MINUS] + INFINITY <= t then Bad(NonFinite)
    else Bad(InvalidJson)
  }

  function ParseValue(t: Text, bounded: bool): (p: Parsed<Json>)
    ensures p.Good? ==> |p.rest| < |t|
    decreases |t|, 0
  {
    if t == [] then Bad(InvalidJson)
    else if t[0] == QUOTE then
      var s := ParseString(t[1..]);
      if s.Bad? then Bad(s.error) else Good(Str(s.value), s.rest)
    else if t[0] == OPEN_OBJECT then ParseObject(SkipSpace(t[1..]), bounded)
    else if t[0] == OPEN_LIST then ParseList(SkipSpace(t[1..]), bounded)
    else if IsDigit(t[0]) || (t[0] == MINUS && |t| > 1 && IsDigit(t[1])) then ParseNumber(t, bounded)
    else ParseWord(t)
  }

  function ParseObject(t: Text, bounded: bool): (p: Parsed<Json>)
    ensures p.Good? ==> |p.rest| < |t|
    decreases |t|, 2
  {
    if t != [] && t[0] == CLOSE_OBJECT then Good(Obj(NoMembers), t[1..])
    else
      var m := ParseMembers(t, bounded);
      if m.Bad? then Bad(m.error)
      else if !Distinct(m.value) then Bad(DuplicateKey)
      else Good(Obj(m.value), m.rest)
  }

  function ParseMembers(t: Text, bounded: bool): (p: Parsed<Members>)
    ensures p.Good? ==> |p.rest| < |t|
    decreases |t|, 1
  {
    if t == [] || t[0] != QUOTE then Bad(InvalidJson)
    else
      var key := ParseString(t[1..]);
      if key.Bad? then Bad(key.error)
      else
        var afterKey := SkipSpace(key.rest);
        if afterKey == [] || afterKey[0] != COLON then Bad(InvalidJson)
        else ParseMembersFrom(key.value, SkipSpace(afterKey[1..]), bounded)
  }

  // The members whose first key and colon have been read.
  function ParseMembersFrom(key: Text, t: Text, bounded: bool): (p: Parsed<Members>)
    ensures p.Good? ==> |p.rest| < |t|
    decreases |t|, 2
  {
    var value := ParseValue(t, bounded);
    if value.Bad? then Bad(value.error)
    else
      var next := SkipSpace(value.rest);
      if next != [] && next[0] == CLOSE_OBJECT then Good(Member(key, value.value, NoMembers), next[1..])
      else if next != [] && next[0] == COMMA then
        var more := ParseMembers(SkipSpace(next[1..]), bounded);
        if more.Bad? then more else Good(Member(key, value.value, more.value), more.rest)
      else Bad(InvalidJson)
  }

  function ParseList(t: Text, bounded: bool): (p: Parsed<Json>)
    ensures p.Good? ==> |p.rest| < |t|
    decreases |t|, 2
  {
    if t != [] && t[0] == CLOSE_LIST then Good(Arr(NoItems), t[1..])
    else
      var items := ParseItems(t, bounded);
      if items.Bad? then Bad(items.error) else Good(Arr(items.value), items.rest)
  }

  function ParseItems(t: Text, bounded: bool): (p: Parsed<Items>)
    ensures p.Good? ==> |p.rest| < |t|
    decreases |t|, 1
  {
    var value := ParseValue(t, bounded);
    if value.Bad? then Bad(value.error)
    else
      var next := SkipSpace(value.rest);
      if next != [] && next[0] == CLOSE_LIST then Good(Item(value.value, NoItems), next[1..])
      else if next != [] && next[0] == COMMA then
        var more := ParseItems(SkipSpace(next[1..]), bounded);
        if more.Bad? then more else Good(Item(value.value, more.value), more.rest)
      else Bad(InvalidJson)
  }

  // `json.loads`: one value with space around it and nothing else.
  function ParseDocument(t: Text, bounded: bool): Result<Json> {
    var p := ParseValue(SkipSpace(t), bounded);
    if p.Bad? then Err(p.error)
    else if SkipSpace(p.rest) != [] then Err(InvalidJson)
    else Ok(p.value)
  }

  function Append(m: Members, key: Text, value: Json): (n: Members)
    ensures Keys(n) == Keys(m) + {key}
  {
    if m.NoMembers? then Member(key, value, NoMembers) else Member(m.key, m.value, Append(m.rest, key, value))
  }

  function Concat(m: Members, n: Members): (r: Members)
    ensures Keys(r) == Keys(m) + Keys(n)
  {
    if m.NoMembers? then n else Member(m.key, m.value, Concat(m.rest, n))
  }

  lemma {:induction false} AppendConcat(m: Members, n: Members)
    requires n.Member?
    ensures Concat(Append(m, n.key, n.value), n.rest) == Concat(m, n)
  {
    if m.Member? {
      AppendConcat(m.rest, n);
    }
  }

  lemma {:induction false} ConcatEmpty(m: Members)
    ensures Concat(m, NoMembers) == m
  {
    if m.Member? {
      ConcatEmpty(m.rest);
    }
  }

  lemma {:induction false} RepeatedKey(m: Members, n: Members)
    requires n.Member? && n.key in Keys(m)
    ensures !Distinct(Concat(m, n))
  {
    if m.key != n.key {
      RepeatedKey(m.rest, n);
    }
  }

  lemma {:induction false} DistinctAppend(m: Members, key: Text, value: Json)
    requires Distinct(m) && key !in Keys(m)
    ensures Distinct(Append(m, key, value))
  {
    if m.Member? {
      DistinctAppend(m.rest, key, value);
    }
  }

  // `_object_without_duplicates`: the dict has the pairs in their order, or a key repeats.
  method ObjectWithoutDuplicates(pairs: Members) returns (result: Result<Members>)
    ensures result == if Distinct(pairs) then Ok(pairs) else Err(DuplicateKey)
  {
    var dict := NoMembers;
    var left := pairs;
    while left.Member?
      invariant Concat(dict, left) == pairs && Distinct(dict)
      decreases left
    {
      if left.key in Keys(dict) {
        RepeatedKey(dict, left);
        return Err(DuplicateKey);
      }
      AppendConcat(dict, left);
      DistinctAppend(dict, left.key, left.value);
      dict := Append(dict, left.key, left.value);
      left := left.rest;
    }
    ConcatEmpty(dict);
    return Ok(dict);
  }
}
