// Canonical JSON as a normal form: equal bytes for equal values, and strict decoding as its
// inverse (shared/json_contract.py:127-208, 211-292).
module CanonicalJson {
  import opened Bytes
  import opened Options
  import opened Unicode
  import opened CanonicalNumbers
  import opened Json
  import opened JsonPrinter
  import opened JsonParser
  import opened JsonRoundTrip

  // `decode_json_document` on bytes.
  function DecodeDocument(payload: seq<Byte>, maxBytes: Option<nat>): Result<Json> {
    if maxBytes.Some? && |payload| > maxBytes.value then Err(TooLarge)
    else
      var text := Decode(payload);
      if text.None? then Err(InvalidUtf8)
      else
        var value := ParseDocument(text.value, true);
        if value.Err? then value
        else if !NestingOk(value.value, 0) then Err(ExcessiveNesting)
        else value
  }

  // ---- The normal form is normalised, and normalising it again changes nothing ----

  lemma {:induction false} NormIsNormalized(v: Json)
    requires WellFormed(v)
    ensures Normalized(Norm(v))
    decreases v
  {
    match v
    case Num(n) => NormalOfNormal(Normalize(n));
    case Arr(items) => NormItemsNormalized(items);
    case Obj(members) =>
      NormMembersNormalized(members);
      NormMembersWellFormed(members);
      SortWellFormed(NormMembers(members));
      WellFormedIsDistinct(Sort(NormMembers(members)));
      SortNormalized(NormMembers(members));
    case _ =>
  }

  lemma {:induction false} NormItemsNormalized(items: Items)
    requires ItemsWellFormed(items)
    ensures ItemsNormalized(NormItems(items))
    decreases items
  {
    if items.Item? {
      NormIsNormalized(items.head);
      NormItemsNormalized(items.tail);
    }
  }

  lemma {:induction false} NormMembersNormalized(m: Members)
    requires MembersWellFormed(m)
    ensures MembersNormalized(NormMembers(m))
    decreases m
  {
    if m.Member? {
      NormIsNormalized(m.value);
      NormMembersNormalized(m.rest);
    }
  }

  lemma {:induction false} WellFormedIsDistinct(m: Members)
    requires MembersWellFormed(m)
    ensures Distinct(m)
  {
    if m.Member? {
      WellFormedIsDistinct(m.rest);
    }
  }

  lemma {:induction false} InsertNormalized(key: Text, value: Json, m: Members)
    ensures MembersNormalized(Insert(key, value, m)) <==> Normalized(value) && MembersNormalized(m)
  {
    if m.Member? && !Before(key, m.key) {
      InsertNormalized(key, value, m.rest);
    }
  }

  lemma {:induction false} SortNormalized(m: Members)
    ensures MembersNormalized(Sort(m)) <==> MembersNormalized(m)
  {
    if m.Member? {
      SortNormalized(m.rest);
      InsertNormalized(m.key, m.value, Sort(m.rest));
    }
  }

  lemma {:induction false} NormIsIdempotent(v: Json)
    requires WellFormed(v)
    ensures Norm(Norm(v)) == Norm(v)
    decreases Size(v)
  {
    match v
    case Num(n) => NormalOfNormal(Normalize(n));
    case Arr(items) => NormItemsIdempotent(items);
    case Obj(members) =>
      forall k | k in Keys(members) ensures Norm(Norm(Lookup(members, k))) == Norm(Lookup(members, k)) {
        LookupWellFormed(members, k);
        NormIsIdempotent(Lookup(members, k));
      }
      NormMembersIdempotent(members);
    case _ =>
  }

  lemma {:induction false} NormItemsIdempotent(items: Items)
    requires ItemsWellFormed(items)
    ensures NormItems(NormItems(items)) == NormItems(items)
    decreases SizeOfItems(items)
  {
    if items.Item? {
      NormIsIdempotent(items.head);
      NormItemsIdempotent(items.tail);
    }
  }

  lemma NormMembersIdempotent(m: Members)
    requires MembersWellFormed(m)
    requires forall k :: k in Keys(m) ==> Norm(Norm(Lookup(m, k))) == Norm(Lookup(m, k))
    ensures Sort(NormMembers(Sort(NormMembers(m)))) == Sort(NormMembers(m))
  {
    NormObject(m);
    NormMembersWellFormed(m);
    SortWellFormed(NormMembers(m));
    NormObject(Sort(NormMembers(m)));
    SortedIsUnique(Sort(NormMembers(Sort(NormMembers(m)))), Sort(NormMembers(m)));
  }

  // The normal form is the value it came from.
  lemma NormIsSame(v: Json)
    requires WellFormed(v)
    ensures WellFormed(Norm(v)) && Same(v, Norm(v)) && Same(Norm(v), v)
  {
    NormIsWellFormed(v);
    NormIsIdempotent(v);
    NormDecides(v, Norm(v));
    NormDecides(Norm(v), v);
  }

  // ---- Equal output exactly for equal values ----

  lemma PrintIsInjective(a: Json, b: Json)
    requires Normalized(a) && Normalized(b) && Print(a) == Print(b)
    ensures a == b
  {
    ValueRoundTrip(a, [], false);
    ValueRoundTrip(b, [], false);
  }

  lemma CanonicalDecides(v: Json, w: Json)
    requires WellFormed(v) && WellFormed(w)
    ensures Canonical(v) == Canonical(w) <==> Same(v, w)
  {
    NormDecides(v, w);
    if Canonical(v) == Canonical(w) {
      NormIsNormalized(v);
      NormIsNormalized(w);
      PrintIsInjective(Norm(v), Norm(w));
    }
  }

  // The bytes of two accepted values are equal exactly when the values are equal.
  lemma BytesDecide(v: Json, w: Json)
    requires WellFormed(v) && WellFormed(w) && CanonicalBytesOf(v).Ok? && CanonicalBytesOf(w).Ok?
    ensures CanonicalBytesOf(v) == CanonicalBytesOf(w) <==> Same(v, w)
  {
    CanonicalDecides(v, w);
    EncodingIsExact(Canonical(v), CanonicalBytesOf(v).value);
    EncodingIsExact(Canonical(w), CanonicalBytesOf(w).value);
  }

  // ---- Decoding the output ----

  lemma {:induction false} NormFits(v: Json)
    ensures AllFit(Norm(v)) <==> AllFit(v)
    decreases v
  {
    match v
    case Num(n) => NormalOfNormal(Normalize(n));
    case Arr(items) => NormItemsFit(items);
    case Obj(members) => NormMembersFit(members);
    case _ =>
  }

  lemma {:induction false} NormItemsFit(items: Items)
    ensures ItemsFit(NormItems(items)) <==> ItemsFit(items)
    decreases items
  {
    if items.Item? {
      NormFits(items.head);
      NormItemsFit(items.tail);
    }
  }

  lemma {:induction false} NormMembersFit(m: Members)
    ensures MembersFit(Sort(NormMembers(m))) <==> MembersFit(m)
    decreases m
  {
    if m.Member? {
      NormFits(m.value);
      NormMembersFit(m.rest);
      InsertFits(m.key, Norm(m.value), Sort(NormMembers(m.rest)));
    }
  }

  lemma {:induction false} InsertFits(key: Text, value: Json, m: Members)
    ensures MembersFit(Insert(key, value, m)) <==> AllFit(value) && MembersFit(m)
  {
    if m.Member? && !Before(key, m.key) {
      InsertFits(key, value, m.rest);
    }
  }

  lemma PrintedDocument(v: Json)
    requires Normalized(v)
    ensures ParseDocument(Print(v), true) == if AllFit(v) then Ok(v) else Err(NumericLimit)
  {
    ValueRoundTrip(v, [], true);
    assert Print(v) + [] == Print(v);
    PrintStarts(v);
  }

  lemma CanonicalParses(v: Json)
    requires WellFormed(v)
    ensures ParseDocument(Canonical(v), true) == if AllFit(v) then Ok(Norm(v)) else Err(NumericLimit)
  {
    NormIsNormalized(v);
    PrintedDocument(Norm(v));
    NormFits(v);
  }

  // What decoding makes of canonical output, for every accepted value.
  lemma DecodeOfCanonical(v: Json, maxBytes: Option<nat>)
    requires WellFormed(v) && CanonicalBytesOf(v).Ok?
    ensures var bytes := CanonicalBytesOf(v).value;
            DecodeDocument(bytes, maxBytes)
            == if maxBytes.Some? && |bytes| > maxBytes.value then Err(TooLarge)
               else if !AllFit(v) then Err(NumericLimit)
               else if Height(v) > MAX_NESTING then Err(ExcessiveNesting)
               else Ok(Norm(v))
  {
    EncodingIsExact(Canonical(v), CanonicalBytesOf(v).value);
    CanonicalParses(v);
    HeightOfNorm(v);
    NestingIsHeight(Norm(v), 0);
  }

  // Decoding returns an equal value exactly within the nesting and number limits, and then
  // prints the same bytes again.
  lemma RoundTripExactly(v: Json)
    requires WellFormed(v) && CanonicalBytesOf(v).Ok?
    ensures var decoded := DecodeDocument(CanonicalBytesOf(v).value, None);
            && (decoded.Ok? <==> Height(v) <= MAX_NESTING && AllFit(v))
            && (decoded.Ok? ==> WellFormed(decoded.value) && Same(v, decoded.value)
                                && CanonicalBytesOf(decoded.value) == CanonicalBytesOf(v))
  {
    DecodeOfCanonical(v, None);
    if Height(v) <= MAX_NESTING && AllFit(v) {
      NormIsSame(v);
      NormPrintsTheSame(v);
    }
  }

  lemma NormPrintsTheSame(v: Json)
    requires WellFormed(v) && AllFit(v) && NumbersInBounds(v)
    ensures CanonicalBytesOf(Norm(v)) == CanonicalBytesOf(v)
  {
    NormIsIdempotent(v);
    NormIsNormalized(v);
    NormFits(v);
    FittingIsInBounds(Norm(v));
  }

  lemma {:induction false} FittingIsInBounds(v: Json)
    requires Normalized(v) && AllFit(v)
    ensures NumbersInBounds(v)
    decreases v
  {
    match v
    case Num(n) => FitsIsInBounds(Normalize(n));
    case Arr(items) => FittingItemsInBounds(items);
    case Obj(members) => FittingMembersInBounds(members);
    case _ =>
  }

  lemma {:induction false} FittingItemsInBounds(items: Items)
    requires ItemsNormalized(items) && ItemsFit(items)
    ensures ItemsInBounds(items)
    decreases items
  {
    if items.Item? {
      FittingIsInBounds(items.head);
      FittingItemsInBounds(items.tail);
    }
  }

  lemma {:induction false} FittingMembersInBounds(m: Members)
    requires MembersNormalized(m) && MembersFit(m)
    ensures MembersInBounds(m)
    decreases m
  {
    if m.Member? {
      FittingIsInBounds(m.value);
      FittingMembersInBounds(m.rest);
    }
  }

  lemma PowerOfTenText(e: nat)
    ensures Canonical(Num(Dec(false, 1, e))) == Digits(1) + Zeros(e)
    ensures IsScalarText(Digits(1) + Zeros(e))
  {
    PrintedNumber(Dec(false, 1, e));
    RenderedPower(e);
    DigitsRange(1);
    ZerosRange(e);
  }

  lemma PrintedNumber(n: Number)
    ensures Canonical(Num(n)) == Render(Normalize(n))
  {
    NormalOfNormal(Normalize(n));
  }

  lemma RenderedPower(e: nat)
    ensures Render(Normalize(Dec(false, 1, e))) == Digits(1) + Zeros(e)
  {
    DigitsOfScaled(1, e);
    var n := Scaled(1, e);
    assert [] + Digits(n) + [] == Digits(n);
  }

  // The printer accepts 1e288 to 1e1024 and writes them out in full; the decoder refuses
  // what it wrote.
  lemma LargeExponentIsNotReadBack(e: nat)
    requires MAX_TOKEN <= e <= MAX_EXPONENT
    ensures var v := Num(Dec(false, 1, e));
            && WellFormed(v) && CanonicalBytesOf(v).Ok?
            && DecodeDocument(CanonicalBytesOf(v).value, None) == Err(NumericLimit)
  {
    var v := Num(Dec(false, 1, e));
    PowerOfTenText(e);
    NormalOfNormal(Normalize(v.number));
    DecodeOfCanonical(v, None);
  }

  // ---- What the decoder accepts ----

  // Decoded values have distinct keys and bounded numbers, so they can be printed.
  predicate Decodable(v: Json) { WellFormed(v) && NumbersInBounds(v) }

  lemma {:induction false} ParsedIsDecodable(t: Text)
    requires ParseValue(t, true).Good?
    ensures Decodable(ParseValue(t, true).value)
    decreases |t|, 0
  {
    if t[0] == QUOTE {
    } else if t[0] == OPEN_OBJECT {
      ParsedObject(SkipSpace(t[1..]));
    } else if t[0] == OPEN_LIST {
      ParsedList(SkipSpace(t[1..]));
    }
  }

  lemma {:induction false} ParsedObject(t: Text)
    requires ParseObject(t, true).Good?
    ensures Decodable(ParseObject(t, true).value)
    decreases |t|, 3
  {
    if !(t != [] && t[0] == CLOSE_OBJECT) {
      ParsedMembers(t);
      DistinctIsWellFormed(ParseMembers(t, true).value);
    }
  }

  predicate MembersDecodable(m: Members) {
    m.NoMembers? || (Decodable(m.value) && MembersDecodable(m.rest))
  }

  lemma {:induction false} DistinctIsWellFormed(m: Members)
    requires MembersDecodable(m) && Distinct(m)
    ensures MembersWellFormed(m) && MembersInBounds(m)
  {
    if m.Member? {
      DistinctIsWellFormed(m.rest);
    }
  }

  lemma {:induction false} ParsedMembers(t: Text)
    requires ParseMembers(t, true).Good?
    ensures MembersDecodable(ParseMembers(t, true).value)
    decreases |t|, 1
  {
    var key := ParseString(t[1..]);
    ParsedMembersFrom(key.value, SkipSpace(SkipSpace(key.rest)[1..]));
  }

  lemma {:induction false} ParsedMembersFrom(key: Text, t: Text)
    requires ParseMembersFrom(key, t, true).Good?
    ensures MembersDecodable(ParseMembersFrom(key, t, true).value)
    decreases |t|, 2
  {
    var value := ParseValue(t, true);
    ParsedIsDecodable(t);
    var next := SkipSpace(value.rest);
    if next[0] == COMMA {
      ParsedMembers(SkipSpace(next[1..]));
    }
  }

  lemma {:induction false} ParsedList(t: Text)
    requires ParseList(t, true).Good?
    ensures Decodable(ParseList(t, true).value)
    decreases |t|, 2
  {
    if !(t != [] && t[0] == CLOSE_LIST) {
      ParsedItems(t);
    }
  }

  lemma {:induction false} ParsedItems(t: Text)
    requires ParseItems(t, true).Good?
    ensures ItemsWellFormed(ParseItems(t, true).value) && ItemsInBounds(ParseItems(t, true).value)
    decreases |t|, 1
  {
    var value := ParseValue(t, true);
    ParsedIsDecodable(t);
    var next := SkipSpace(value.rest);
    if next[0] == COMMA {
      ParsedItems(SkipSpace(next[1..]));
    }
  }

  // Every decoded document has distinct keys, bounded numbers and at most 32 levels, and its
  // canonical text exists.
  lemma DecodedIsCanonicalisable(payload: seq<Byte>, maxBytes: Option<nat>)
    requires DecodeDocument(payload, maxBytes).Ok?
    ensures var v := DecodeDocument(payload, maxBytes).value;
            WellFormed(v) && NumbersInBounds(v) && Height(v) <= MAX_NESTING
            && CanonicalBytesOf(v) != Err(NumericLimit)
  {
    var text := Decode(payload).value;
    ParsedIsDecodable(SkipSpace(text));
    NestingIsHeight(DecodeDocument(payload, maxBytes).value, 0);
  }
}
