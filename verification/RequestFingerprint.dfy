// The canonical bytes of a request and their own re-validation
// (shared/character_spec.py:333-352, service/src/hbcb_service/idempotency.py:31-56). A weight
// bounds the characters of a printed value, so that the 64 KiB limit follows from the ranges of
// a request; with the round trip of canonical JSON the bytes then exist, are read back to an
// equal request, and give the same bytes and hashes again.
module RequestFingerprint {
  import opened Bytes
  import opened Options
  import opened Unicode
  import opened CanonicalNumbers
  import opened Json
  import opened JsonPrinter
  import opened JsonParser
  import opened JsonRoundTrip
  import opened CanonicalJson
  import opened CharacterSpec
  import opened RequestNumbers
  import opened RequestForm
  import opened Slug

  const MAX_REQUEST_BYTES := 65536  // MAX_BUILD_REQUEST_BYTES

  // ---- How long a printed value can be ----

  function Weight(v: Json): nat {
    match v
    case Null => 4
    case Bool(_) => 5
    case Num(_) => MAX_TOKEN
    case Str(s) => 6 * |s| + 2
    case Arr(items) => 2 + ItemsWeight(items)
    case Obj(members) => 2 + MembersWeight(members)
  }

  function ItemsWeight(items: Items): nat {
    if items.NoItems? then 0 else 1 + Weight(items.head) + ItemsWeight(items.tail)
  }

  function MembersWeight(m: Members): nat {
    if m.NoMembers? then 0 else 6 * |m.key| + 4 + Weight(m.value) + MembersWeight(m.rest)
  }

  lemma {:induction false} EscapedWithin(s: Text)
    ensures |PrintString(s)| <= 6 * |s| + 2
  {
    if s != [] {
      EscapedWithin(s[1..]);
    }
  }

  lemma JoinFirst(first: Text, rest: seq<Text>)
    ensures |Join([first] + rest)| <= |first| + 1 + |Join(rest)|
  {
    assert ([first] + rest)[1..] == rest;
  }

  lemma {:induction false} PrintWithin(v: Json)
    requires AllFit(v)
    ensures |Print(v)| <= Weight(v)
    decreases v, 0
  {
    match v
    case Str(s) => EscapedWithin(s);
    case Arr(items) => ItemsWithin(items);
    case Obj(members) => MembersWithin(members);
    case _ =>
  }

  lemma {:induction false} ItemsWithin(items: Items)
    requires ItemsFit(items)
    ensures |Join(ItemFragments(items))| <= ItemsWeight(items)
    decreases items, 0
  {
    if items.Item? {
      PrintWithin(items.head);
      ItemsWithin(items.tail);
      JoinFirst(Print(items.head), ItemFragments(items.tail));
    }
  }

  lemma {:induction false} MembersWithin(m: Members)
    requires MembersFit(m)
    ensures |Join(MemberFragments(m))| <= MembersWeight(m)
    decreases m, 0
  {
    if m.Member? {
      PrintWithin(m.value);
      EscapedWithin(m.key);
      MembersWithin(m.rest);
      JoinFirst(PrintMember(m.key, m.value), MemberFragments(m.rest));
    }
  }

  lemma {:induction false} WeightOfNorm(v: Json)
    ensures Weight(Norm(v)) == Weight(v)
    decreases v
  {
    match v
    case Arr(items) => WeightOfNormItems(items);
    case Obj(members) => WeightOfNormMembers(members);
    case _ =>
  }

  lemma {:induction false} WeightOfNormItems(items: Items)
    ensures ItemsWeight(NormItems(items)) == ItemsWeight(items)
    decreases items
  {
    if items.Item? {
      WeightOfNorm(items.head);
      WeightOfNormItems(items.tail);
    }
  }

  lemma {:induction false} WeightOfNormMembers(m: Members)
    ensures MembersWeight(Sort(NormMembers(m))) == MembersWeight(m)
    decreases m
  {
    if m.Member? {
      WeightOfNorm(m.value);
      WeightOfNormMembers(m.rest);
      WeightOfInsert(m.key, Norm(m.value), Sort(NormMembers(m.rest)));
    }
  }

  lemma {:induction false} WeightOfInsert(key: Text, value: Json, m: Members)
    ensures MembersWeight(Insert(key, value, m)) == 6 * |key| + 4 + Weight(value) + MembersWeight(m)
  {
    if m.Member? && !Before(key, m.key) {
      WeightOfInsert(key, value, m.rest);
    }
  }

  lemma {:induction false} EncodedWithin(t: Text)
    ensures |Encoded(t)| <= 4 * |t|
  {
    if t != [] {
      EncodedWithin(t[1..]);
    }
  }

  // ---- Printed text without surrogates ----

  predicate AllScalar(v: Json) {
    match v
    case Str(s) => IsScalarText(s)
    case Arr(items) => ItemsScalar(items)
    case Obj(members) => MembersScalar(members)
    case _ => true
  }

  predicate ItemsScalar(items: Items) { items.NoItems? || (AllScalar(items.head) && ItemsScalar(items.tail)) }

  predicate MembersScalar(m: Members) {
    m.NoMembers? || (IsScalarText(m.key) && AllScalar(m.value) && MembersScalar(m.rest))
  }

  lemma {:induction false} EscapedScalar(s: Text)
    requires IsScalarText(s)
    ensures IsScalarText(EscapedText(s)) && IsScalarText(PrintString(s))
  {
    if s != [] {
      assert IsScalar(s[0]);
      EscapedScalar(s[1..]);
      assert forall c :: c in Escaped(s[0]) ==> IsScalar(c);
    }
  }

  lemma RenderScalar(p: Plain)
    ensures IsScalarText(Render(p))
  {
    DigitsRange(Whole(p.digits, p.places));
    LastDigitsRange(p.digits, p.places);
  }

  lemma {:induction false} PrintScalar(v: Json)
    requires AllScalar(v)
    ensures IsScalarText(Print(v))
    decreases v, 0
  {
    match v
    case Num(n) => RenderScalar(Normalize(n));
    case Str(s) => EscapedScalar(s);
    case Arr(items) => PrintItemsScalar(items);
    case Obj(members) => PrintMembersScalar(members);
    case _ =>
  }

  lemma JoinScalar(first: Text, rest: seq<Text>)
    requires IsScalarText(first) && IsScalarText(Join(rest))
    ensures IsScalarText(Join([first] + rest))
  {
    assert ([first] + rest)[1..] == rest;
  }

  lemma {:induction false} PrintItemsScalar(items: Items)
    requires ItemsScalar(items)
    ensures IsScalarText(Join(ItemFragments(items)))
    decreases items, 0
  {
    if items.Item? {
      PrintScalar(items.head);
      PrintItemsScalar(items.tail);
      JoinScalar(Print(items.head), ItemFragments(items.tail));
    }
  }

  lemma {:induction false} PrintMembersScalar(m: Members)
    requires MembersScalar(m)
    ensures IsScalarText(Join(MemberFragments(m)))
    decreases m, 0
  {
    if m.Member? {
      PrintScalar(m.value);
      EscapedScalar(m.key);
      PrintMembersScalar(m.rest);
      JoinScalar(PrintMember(m.key, m.value), MemberFragments(m.rest));
    }
  }

  lemma {:induction false} ScalarOfNorm(v: Json)
    requires AllScalar(v)
    ensures AllScalar(Norm(v))
    decreases v
  {
    match v
    case Arr(items) => ScalarOfNormItems(items);
    case Obj(members) => ScalarOfNormMembers(members);
    case _ =>
  }

  lemma {:induction false} ScalarOfNormItems(items: Items)
    requires ItemsScalar(items)
    ensures ItemsScalar(NormItems(items))
    decreases items
  {
    if items.Item? {
      ScalarOfNorm(items.head);
      ScalarOfNormItems(items.tail);
    }
  }

  lemma {:induction false} ScalarOfNormMembers(m: Members)
    requires MembersScalar(m)
    ensures MembersScalar(Sort(NormMembers(m)))
    decreases m
  {
    if m.Member? {
      ScalarOfNorm(m.value);
      ScalarOfNormMembers(m.rest);
      ScalarOfInsert(m.key, Norm(m.value), Sort(NormMembers(m.rest)));
    }
  }

  lemma {:induction false} ScalarOfInsert(key: Text, value: Json, m: Members)
    requires IsScalarText(key) && AllScalar(value) && MembersScalar(m)
    ensures MembersScalar(Insert(key, value, m))
  {
    if m.Member? && !Before(key, m.key) {
      ScalarOfInsert(key, value, m.rest);
    }
  }

  // ---- Values that print, are read back, and are this light ----

  // In bounds, short enough to decode, without surrogates, at most this deep.
  predicate Printable(v: Json, height: nat) { NumbersInBounds(v) && AllFit(v) && AllScalar(v) && Height(v) <= height }

  function TotalWeight(values: seq<Json>): nat {
    if values == [] then 0 else Weight(values[0]) + TotalWeight(values[1..])
  }

  lemma {:induction false} ObjectPrintable(keys: seq<Text>, values: seq<Json>, height: nat)
    requires |keys| == |values| && (forall v :: v in values ==> Printable(v, height))
    requires forall k :: k in keys ==> |k| <= 16 && IsScalarText(k)
    ensures Printable(Obj(Object(keys, values)), height + 1)
    ensures MembersWeight(Object(keys, values)) <= 100 * |keys| + TotalWeight(values)
  {
    if keys != [] {
      assert keys[0] in keys && values[0] in values;
      ObjectPrintable(keys[1..], values[1..], height);
    }
  }

  lemma {:induction false} WeightAtMost(values: seq<Json>, bound: nat)
    requires forall v :: v in values ==> Weight(v) <= bound
    ensures TotalWeight(values) <= |values| * bound
  {
    if values != [] {
      WeightAtMost(values[1..], bound);
      assert |values| * bound == bound + (|values| - 1) * bound;
    }
  }

  lemma {:induction false} WeightsAdd(a: seq<Json>, b: seq<Json>)
    ensures TotalWeight(a + b) == TotalWeight(a) + TotalWeight(b)
  {
    if a == [] {
      assert a + b == b;
    } else {
      assert (a + b)[1..] == a[1..] + b;
      WeightsAdd(a[1..], b);
    }
  }

  predicate Short(t: Text) { |t| <= 16 && IsScalarText(t) }

  lemma {:induction false} TextsPrintable(ts: seq<Text>)
    requires forall t :: t in ts ==> Short(t)
    ensures Printable(Arr(TextItems(ts)), 1) && ItemsWeight(TextItems(ts)) <= 99 * |ts|
  {
    if ts != [] {
      assert Short(ts[0]);
      TextsPrintable(ts[1..]);
      assert Printable(Str(ts[0]), 0);
      ItemPrintable(Str(ts[0]), TextItems(ts[1..]));
    }
  }

  lemma ItemPrintable(v: Json, items: Items)
    requires Printable(v, 0) && Printable(Arr(items), 1)
    ensures Printable(Arr(Item(v, items)), 1)
  {
  }

  lemma NumberPrintable(n: Number, minimum: int, maximum: int)
    requires ValidNumber(n, minimum, maximum) && RequestRange(minimum, maximum)
    ensures Printable(Num(n), 0)
  {
    AcceptedFits(n, minimum, maximum);
  }

  lemma PresetsAreShort()
    ensures forall t :: t in STYLES || t in POSES || t in MATERIALS || t in EYES || t in COMPONENTS || t in BASES ==> Short(t)
  {
  }

  lemma SpecKeysAreShort()
    ensures forall k :: k in SPEC_KEYS ==> Short(k)
  {
  }

  lemma ProportionsPrintable(p: Proportions)
    requires ValidProportions(p)
    ensures Printable(ProportionsDict(p), 1) && Weight(ProportionsDict(p)) <= 1600
  {
    NumberPrintable(p.head, 7, 16);
    NumberPrintable(p.body, 7, 14);
    NumberPrintable(p.limb, 7, 13);
    var values := ProportionsValues(p);
    ObjectPrintable(PROPORTION_KEYS, values, 0);
    WeightAtMost(values, 288);
  }

  lemma BaseNumbersPrintable(b: Base)
    requires ValidBase(b)
    ensures Printable(Num(b.width), 0) && Printable(Num(b.depth), 0) && Printable(Num(b.height), 0)
  {
    var none := b.preset == BASES[0];
    NumberPrintable(b.width, if none then 0 else 200, if none then 0 else 1600);
    NumberPrintable(b.depth, if none then 0 else 200, if none then 0 else 1600);
    NumberPrintable(b.height, if none then 0 else 20, if none then 0 else 250);
  }

  lemma BaseValuesPrintable(b: Base)
    requires ValidBase(b)
    ensures forall v :: v in BaseValues(b) ==> Printable(v, 0) && Weight(v) <= 288
  {
    BaseNumbersPrintable(b);
    PresetsAreShort();
    PresetPrintable(b.preset);
  }

  lemma BaseKeysAreShort()
    ensures forall k :: k in BASE_KEYS || k in PROPORTION_KEYS || k in REQUEST_KEYS ==> Short(k)
  {
  }

  lemma BasePrintable(b: Base)
    requires ValidBase(b)
    ensures Printable(BaseDict(b), 1) && Weight(BaseDict(b)) <= 1600
  {
    BaseValuesPrintable(b);
    BaseKeysAreShort();
    ObjectPrintable(BASE_KEYS, BaseValues(b), 0);
    WeightAtMost(BaseValues(b), 288);
  }

  lemma ColorIsShort(t: Text)
    requires ValidColor(t)
    ensures Short(t)
  {
    forall c | c in t ensures IsScalar(c) {
      var i :| 0 <= i < |t| && t[i] == c;
    }
  }

  lemma ListsPrintable(s: Spec)
    requires ValidSpec(s)
    ensures Printable(Arr(TextItems(s.palette)), 1) && Weight(Arr(TextItems(s.palette))) <= 800
    ensures Printable(Arr(TextItems(s.components)), 1) && Weight(Arr(TextItems(s.components))) <= 1600
  {
    forall t | t in s.palette ensures Short(t) {
      ColorIsShort(t);
    }
    PresetsAreShort();
    TextsPrintable(s.palette);
    TextsPrintable(s.components);
  }

  lemma NamesPrintable(s: Spec)
    requires ValidSpec(s)
    ensures Printable(Str(s.name), 0) && Weight(Str(s.name)) <= 400
    ensures Printable(Str(s.slug), 0) && Weight(Str(s.slug)) <= 400
  {
  }

  lemma PresetPrintable(t: Text)
    requires Short(t)
    ensures Printable(Str(t), 0) && Weight(Str(t)) <= 100
  {
  }

  // Base, components, palette and proportions may be long; the other eight values are short.
  function ValueLimit(i: nat): nat { if i == 0 || i == 1 || i == 6 || i == 8 then 1600 else 400 }

  lemma SpecDictsPrintable(s: Spec)
    requires ValidSpec(s)
    ensures var vs := SpecValues(s);
            forall i :: i == 0 || i == 1 || i == 6 || i == 8 ==> Printable(vs[i], 1) && Weight(vs[i]) <= 1600
  {
    BasePrintable(s.base);
    ListsPrintable(s);
    ProportionsPrintable(s.proportions);
  }

  lemma SpecTextsPrintable(s: Spec)
    requires ValidSpec(s)
    ensures var vs := SpecValues(s);
            forall i :: i == 2 || i == 4 || i == 5 || i == 7 || i == 9 || i == 10 || i == 11
                    ==> Printable(vs[i], 1) && Weight(vs[i]) <= 400
  {
    NamesPrintable(s);
    PresetsAreShort();
    PresetPrintable(s.style);
    PresetPrintable(s.pose);
    PresetPrintable(s.material);
    PresetPrintable(s.eyes);
    PresetPrintable(SPEC_VERSION);
  }

  lemma SpecValuesPrintable(s: Spec)
    requires ValidSpec(s)
    ensures forall i :: 0 <= i < 12 ==> Printable(SpecValues(s)[i], 1) && Weight(SpecValues(s)[i]) <= ValueLimit(i)
  {
    SpecDictsPrintable(s);
    SpecTextsPrintable(s);
    NumberPrintable(s.height, 250, 2500);
  }

  lemma SpecValuesWeight(values: seq<Json>)
    requires |values| == 12 && forall i :: 0 <= i < 12 ==> Weight(values[i]) <= ValueLimit(i)
    ensures TotalWeight(values) <= 10800
  {
    WeightAtMost(values[..2], 1600);
    WeightAtMost(values[2..6], 400);
    WeightAtMost(values[6..9], 1600);
    WeightAtMost(values[9..], 400);
    SplitWeights(values);
  }

  lemma SplitWeights(values: seq<Json>)
    requires |values| == 12
    ensures TotalWeight(values)
         == TotalWeight(values[..2]) + TotalWeight(values[2..6]) + TotalWeight(values[6..9]) + TotalWeight(values[9..])
  {
    WeightsAdd(values[..2], values[2..6]);
    WeightsAdd(values[..6], values[6..9]);
    WeightsAdd(values[..9], values[9..]);
    assert values[..6] == values[..2] + values[2..6] && values[..9] == values[..6] + values[6..9];
    assert values == values[..9] + values[9..];
  }

  lemma SpecPrintable(s: Spec)
    requires ValidSpec(s)
    ensures Printable(SpecDict(s), 2) && Weight(SpecDict(s)) <= 12002
  {
    SpecValuesPrintable(s);
    SpecValuesWeight(SpecValues(s));
    SpecKeysAreShort();
    forall v | v in SpecValues(s) ensures Printable(v, 1) {
      var i :| 0 <= i < 12 && SpecValues(s)[i] == v;
    }
    ObjectPrintable(SPEC_KEYS, SpecValues(s), 1);
  }

  lemma HeaderPrintable(s: Spec)
    ensures forall v :: v in RequestValues(s)[..5] ==> Printable(v, 2) && Weight(v) <= 200
  {
  }

  lemma RequestPrintable(s: Spec)
    requires ValidSpec(s)
    ensures Printable(RequestDict(s), 3) && Weight(RequestDict(s)) <= 13700
  {
    SpecPrintable(s);
    HeaderPrintable(s);
    BaseKeysAreShort();
    var values := RequestValues(s);
    assert values == values[..5] + [SpecDict(s)];
    WeightsAdd(values[..5], [SpecDict(s)]);
    WeightAtMost(values[..5], 200);
    assert [SpecDict(s)][1..] == [];
    ObjectPrintable(REQUEST_KEYS, values, 2);
  }

  // ---- The request and its fingerprint ----

  // `BuildRequest.from_json` on bytes.
  function FromJson(payload: seq<Byte>): Option<Spec> {
    var v := DecodeDocument(payload, Some(MAX_REQUEST_BYTES));
    if v.Err? then None else RequestFrom(v.value)
  }

  // `canonical_bytes`
  function CanonicalRequest(s: Spec): Result<seq<Byte>> { CanonicalBytesOf(RequestDict(s)) }

  lemma CanonicalRequestExists(s: Spec)
    requires ValidSpec(s)
    ensures CanonicalRequest(s).Ok? && 0 < |CanonicalRequest(s).value| <= MAX_REQUEST_BYTES
    ensures DecodeDocument(CanonicalRequest(s).value, Some(MAX_REQUEST_BYTES)) == Ok(Norm(RequestDict(s)))
  {
    var v := RequestDict(s);
    RequestPrintable(s);
    RequestDictWellFormed(s);
    ScalarOfNorm(v);
    PrintScalar(Norm(v));
    NormFits(v);
    PrintWithin(Norm(v));
    WeightOfNorm(v);
    EncodedWithin(Canonical(v));
    DecodeOfCanonical(v, Some(MAX_REQUEST_BYTES));
    PrintStarts(Norm(v));
  }

  // Equal as requests: Decimals compare by value.
  predicate EqualSpecs(s: Spec, t: Spec) {
    && t == s.(height := t.height, proportions := t.proportions, base := t.base) && t.base.preset == s.base.preset
    && SameNumber(s.height, t.height)
    && SameNumber(s.proportions.head, t.proportions.head) && SameNumber(s.proportions.body, t.proportions.body)
    && SameNumber(s.proportions.limb, t.proportions.limb)
    && SameNumber(s.base.width, t.base.width) && SameNumber(s.base.depth, t.base.depth)
    && SameNumber(s.base.height, t.base.height)
  }

  lemma NormNumberIsEqual(n: Number)
    ensures SameNumber(n, NormNumber(n))
  {
    NormalOfNormal(Normalize(n));
    NormalFormDecides(n, NormNumber(n));
  }

  lemma NormSpecIsEqual(s: Spec)
    ensures EqualSpecs(s, NormSpec(s))
  {
    NormNumberIsEqual(s.height);
    NormNumberIsEqual(s.proportions.head);
    NormNumberIsEqual(s.proportions.body);
    NormNumberIsEqual(s.proportions.limb);
    NormNumberIsEqual(s.base.width);
    NormNumberIsEqual(s.base.depth);
    NormNumberIsEqual(s.base.height);
  }

  lemma {:induction false} ObjectsOfEqualValues(keys: seq<Text>, a: seq<Json>, b: seq<Json>)
    requires |keys| == |a| == |b| && forall i :: 0 <= i < |keys| ==> Norm(a[i]) == Norm(b[i])
    ensures NormMembers(Object(keys, a)) == NormMembers(Object(keys, b))
  {
    if keys != [] {
      ObjectsOfEqualValues(keys[1..], a[1..], b[1..]);
    }
  }

  lemma DictsOfEqualValues(keys: seq<Text>, a: seq<Json>, b: seq<Json>)
    requires |keys| == |a| && SameNorms(a, b)
    ensures Norm(Obj(Object(keys, a))) == Norm(Obj(Object(keys, b)))
  {
    ObjectsOfEqualValues(keys, a, b);
  }

  lemma NumberNormalises(n: Number)
    ensures Norm(Num(NormNumber(n))) == Norm(Num(n))
  {
    NormalOfNormal(Normalize(n));
  }

  predicate SameNorms(a: seq<Json>, b: seq<Json>) { |a| == |b| && forall i :: 0 <= i < |a| ==> Norm(a[i]) == Norm(b[i]) }

  lemma ThreeNorms(a: seq<Json>, b: seq<Json>)
    requires |a| == |b| == 3 && Norm(a[0]) == Norm(b[0]) && Norm(a[1]) == Norm(b[1]) && Norm(a[2]) == Norm(b[2])
    ensures SameNorms(a, b)
  {
  }

  lemma ProportionsNorms(p: Proportions)
    ensures SameNorms(ProportionsValues(NormProportions(p)), ProportionsValues(p))
  {
    NumberNormalises(p.body);
    NumberNormalises(p.head);
    NumberNormalises(p.limb);
    ThreeNorms(ProportionsValues(NormProportions(p)), ProportionsValues(p));
  }

  lemma BaseNorms(x: Base)
    ensures SameNorms(BaseValues(NormBase(x)), BaseValues(x))
  {
    var a, b := BaseValues(NormBase(x)), BaseValues(x);
    forall i | 0 <= i < 4 ensures Norm(a[i]) == Norm(b[i]) {
      if i != 2 {
        NumberNormalises(if i == 0 then x.depth else if i == 1 then x.height else x.width);
      }
    }
  }

  lemma ProportionsNormalise(p: Proportions)
    ensures Norm(ProportionsDict(NormProportions(p))) == Norm(ProportionsDict(p))
  {
    ProportionsNorms(p);
    DictsOfEqualValues(PROPORTION_KEYS, ProportionsValues(NormProportions(p)), ProportionsValues(p));
  }

  lemma BaseNormalises(x: Base)
    ensures Norm(BaseDict(NormBase(x))) == Norm(BaseDict(x))
  {
    BaseNorms(x);
    DictsOfEqualValues(BASE_KEYS, BaseValues(NormBase(x)), BaseValues(x));
  }

  lemma OtherValues(s: Spec, t: Spec)
    requires t == s.(height := t.height, proportions := t.proportions, base := t.base)
    ensures var a, b := SpecValues(t), SpecValues(s);
            forall i :: 0 <= i < 12 && i != 0 && i != 3 && i != 8 ==> a[i] == b[i]
  {
  }

  lemma NormsOf(a: seq<Json>, b: seq<Json>)
    requires |a| == |b| == 12 && Norm(a[0]) == Norm(b[0]) && Norm(a[3]) == Norm(b[3]) && Norm(a[8]) == Norm(b[8])
    requires forall i :: 0 <= i < 12 && i != 0 && i != 3 && i != 8 ==> a[i] == b[i]
    ensures SameNorms(a, b)
  {
    forall i | 0 <= i < 12 ensures Norm(a[i]) == Norm(b[i]) {
      if i != 0 && i != 3 && i != 8 {
        assert a[i] == b[i];
      }
    }
  }

  lemma SpecNorms(s: Spec)
    ensures SameNorms(SpecValues(NormSpec(s)), SpecValues(s))
  {
    BaseValueNorm(s);
    HeightValueNorm(s);
    ProportionsValueNorm(s);
    OtherValues(s, NormSpec(s));
    NormsOf(SpecValues(NormSpec(s)), SpecValues(s));
  }

  lemma BaseValueNorm(s: Spec)
    ensures Norm(SpecValues(NormSpec(s))[0]) == Norm(SpecValues(s)[0])
  {
    BaseNormalises(s.base);
  }

  lemma HeightValue(s: Spec)
    ensures SpecValues(s)[3] == Num(s.height)
  {
  }

  lemma HeightValueNorm(s: Spec)
    ensures Norm(SpecValues(NormSpec(s))[3]) == Norm(SpecValues(s)[3])
  {
    HeightValue(s);
    HeightValue(NormSpec(s));
    NumberNormalises(s.height);
  }

  lemma ProportionsValueNorm(s: Spec)
    ensures Norm(SpecValues(NormSpec(s))[8]) == Norm(SpecValues(s)[8])
  {
    ProportionsNormalise(s.proportions);
  }

  lemma SpecNormalises(s: Spec)
    ensures Norm(SpecDict(NormSpec(s))) == Norm(SpecDict(s))
  {
    SpecNorms(s);
    DictsOfEqualValues(SPEC_KEYS, SpecValues(NormSpec(s)), SpecValues(s));
  }

  lemma RequestNorms(a: seq<Json>, b: seq<Json>)
    requires |a| == |b| == 6 && Norm(a[5]) == Norm(b[5]) && forall i :: 0 <= i < 5 ==> a[i] == b[i]
    ensures SameNorms(a, b)
  {
    forall i | 0 <= i < 6 ensures Norm(a[i]) == Norm(b[i]) {
      if i < 5 {
        assert a[i] == b[i];
      }
    }
  }

  lemma RequestNormalises(s: Spec)
    ensures Norm(RequestDict(NormSpec(s))) == Norm(RequestDict(s))
  {
    SpecNormalises(s);
    RequestNorms(RequestValues(NormSpec(s)), RequestValues(s));
    DictsOfEqualValues(REQUEST_KEYS, RequestValues(NormSpec(s)), RequestValues(s));
  }

  lemma SameBytes(s: Spec)
    requires ValidSpec(s) && ValidSpec(NormSpec(s))
    ensures CanonicalRequest(NormSpec(s)) == CanonicalRequest(s)
  {
    RequestNormalises(s);
    CanonicalRequestExists(s);
    CanonicalRequestExists(NormSpec(s));
  }

  // Hex digest of bytes, uninterpreted.
  type Digest = seq<Byte> -> string

  datatype Fingerprint = Fingerprint(requestHash: string, specHash: string, canonical: seq<Byte>)

  function SpecBytes(s: Spec): Result<seq<Byte>> { CanonicalBytesOf(SpecDict(s)) }

  // `RequestFingerprint.from_request` on a validated request; None when bytes do not exist.
  function FromRequest(digest: Digest, s: Spec): Option<Fingerprint> {
    if CanonicalRequest(s).Err? || SpecBytes(s).Err? then None
    else Some(Fingerprint(digest(CanonicalRequest(s).value), digest(SpecBytes(s).value), CanonicalRequest(s).value))
  }

  // `__post_init__`: the bytes are bounded, valid and canonical, and both hashes are theirs.
  predicate PostInit(digest: Digest, f: Fingerprint) {
    && 0 < |f.canonical| <= MAX_REQUEST_BYTES
    && var read := FromJson(f.canonical);
       && read.Some? && CanonicalRequest(read.value) == Ok(f.canonical) && SpecBytes(read.value).Ok?
       && digest(f.canonical) == f.requestHash && digest(SpecBytes(read.value).value) == f.specHash
  }

  lemma SpecBytesExist(s: Spec)
    requires ValidSpec(s)
    ensures SpecBytes(s).Ok?
  {
    SpecPrintable(s);
    ScalarOfNorm(SpecDict(s));
    PrintScalar(Norm(SpecDict(s)));
  }

  // Normalising the numbers changes neither the bytes of the specification nor their existence.
  lemma SameSpecBytes(s: Spec)
    requires ValidSpec(s) && ValidSpec(NormSpec(s))
    ensures SpecBytes(NormSpec(s)).Ok? && SpecBytes(NormSpec(s)) == SpecBytes(s)
  {
    SpecBytesExist(s);
    SpecBytesExist(NormSpec(s));
    SpecNormalises(s);
  }

  lemma ReadBack(s: Spec)
    requires ValidSpec(s)
    ensures CanonicalRequest(s).Ok? && FromJson(CanonicalRequest(s).value) == Some(NormSpec(s)) && ValidSpec(NormSpec(s))
  {
    CanonicalRequestExists(s);
    RequestNormalForm(s);
    RequestIsValid(Norm(RequestDict(s)));
  }

  // Reading back a request's canonical bytes gives an equal, valid request with the same bytes.
  lemma RequestRoundTrip(s: Spec)
    requires ValidSpec(s)
    ensures CanonicalRequest(s).Ok?
    ensures var read := FromJson(CanonicalRequest(s).value);
            && read.Some? && EqualSpecs(s, read.value) && ValidSpec(read.value)
            && CanonicalRequest(read.value) == CanonicalRequest(s)
  {
    ReadBack(s);
    NormSpecIsEqual(s);
    SameBytes(s);
  }

  function Hashes(digest: Digest, request: seq<Byte>, spec: seq<Byte>): Fingerprint {
    Fingerprint(digest(request), digest(spec), request)
  }

  lemma Fingerprinted(digest: Digest, s: Spec, request: seq<Byte>, spec: seq<Byte>)
    requires CanonicalRequest(s) == Ok(request) && SpecBytes(s) == Ok(spec)
    ensures FromRequest(digest, s) == Some(Hashes(digest, request, spec))
  {
  }

  // The hashes of bytes that are read back as a request with these bytes of both kinds.
  lemma Revalidated(digest: Digest, read: Spec, request: seq<Byte>, spec: seq<Byte>)
    requires 0 < |request| <= MAX_REQUEST_BYTES && FromJson(request) == Some(read)
    requires CanonicalRequest(read) == Ok(request) && SpecBytes(read) == Ok(spec)
    ensures PostInit(digest, Hashes(digest, request, spec))
  {
  }

  lemma FingerprintOfValid(digest: Digest, s: Spec)
    requires ValidSpec(s)
    ensures FromRequest(digest, s).Some? && PostInit(digest, FromRequest(digest, s).value)
  {
    CanonicalRequestExists(s);
    ReadBack(s);
    SameBytes(s);
    SameSpecBytes(s);
    Fingerprinted(digest, s, CanonicalRequest(s).value, SpecBytes(s).value);
    Revalidated(digest, NormSpec(s), CanonicalRequest(s).value, SpecBytes(s).value);
  }

  // The fingerprint of a request that was read from JSON never fails its own re-validation.
  lemma FingerprintNeverFails(digest: Digest, payload: seq<Byte>)
    requires FromJson(payload).Some?
    ensures var f := FromRequest(digest, FromJson(payload).value); f.Some? && PostInit(digest, f.value)
  {
    RequestIsValid(DecodeDocument(payload, Some(MAX_REQUEST_BYTES)).value);
    FingerprintOfValid(digest, FromJson(payload).value);
  }
}
