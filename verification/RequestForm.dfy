// Reading a normalised request, and reading what `to_dict` gives
// (shared/character_spec.py:89-106, 116-147, 165-280, 296-348). Two facts about one parser: it
// commutes with the normal form of its JSON argument, changing nothing but the spelling of
// numbers; and it inverts `to_dict`, whose keys and values are listed here once, in the order
// in which they are printed.
module RequestForm {
  import opened Options
  import opened Unicode
  import opened CanonicalNumbers
  import opened Json
  import opened JsonPrinter
  import opened CharacterSpec
  import opened RequestNumbers
  import opened Slug

  // ---- Reading the normal form of a value ----

  lemma FieldOfNorm(v: Json, key: Text, missing: Json)
    requires v.Obj? && WellFormed(v) && Norm(missing) == missing
    ensures Field(Norm(v), key, missing) == Norm(Field(v, key, missing))
    ensures Keys(Norm(v).members) == Keys(v.members)
  {
    NormObject(v.members);
    if key in Keys(v.members) {
      assert Lookup(Sort(NormMembers(v.members)), key) == Norm(Lookup(v.members, key));
    }
  }

  lemma ShapeOfNorm(v: Json, required: seq<Text>, allowed: seq<Text>)
    requires WellFormed(v)
    ensures HasShape(Norm(v), required, allowed) <==> HasShape(v, required, allowed)
  {
    if v.Obj? {
      NormObject(v.members);
    }
  }

  lemma FieldWellFormed(v: Json, key: Text, missing: Json)
    requires v.Obj? && WellFormed(v) && WellFormed(missing)
    ensures WellFormed(Field(v, key, missing))
  {
    if key in Keys(v.members) {
      LookupWellFormed(v.members, key);
    }
  }

  lemma {:induction false} TextListOfNorm(items: Items)
    ensures TextList(NormItems(items)) == TextList(items)
  {
    if items.Item? {
      TextListOfNorm(items.tail);
    }
  }

  lemma ListsOfNorm(v: Json)
    ensures PaletteFrom(Norm(v)) == PaletteFrom(v) && ComponentsFrom(Norm(v)) == ComponentsFrom(v)
  {
    if v.Arr? {
      TextListOfNorm(v.items);
    }
  }

  lemma TextOfNorm(v: Json, choices: seq<Text>)
    ensures TextIn(Norm(v), choices) == TextIn(v, choices)
    ensures NameFrom(Norm(v)) == NameFrom(v) && SlugOf(Norm(v)) == SlugOf(v)
    ensures forall t :: Norm(v) == Str(t) <==> v == Str(t)
  {
  }

  function NormNumber(n: Number): Number { FromPlain(Normalize(n)) }

  function NormProportions(p: Proportions): Proportions {
    Proportions(NormNumber(p.head), NormNumber(p.body), NormNumber(p.limb))
  }

  function NormBase(b: Base): Base { Base(b.preset, NormNumber(b.width), NormNumber(b.depth), NormNumber(b.height)) }

  // A specification with its numbers in normal form: equal to it, as Decimals compare.
  function NormSpec(s: Spec): Spec {
    s.(height := NormNumber(s.height), proportions := NormProportions(s.proportions), base := NormBase(s.base))
  }

  // A number read from a field is read in normal form from the normal form.
  lemma NumberFieldOfNorm(v: Json, key: Text, missing: Json, minimum: int, maximum: int)
    requires v.Obj? && WellFormed(v) && Norm(missing) == missing && RequestRange(minimum, maximum)
    requires NumberIn(Field(v, key, missing), minimum, maximum).Some?
    ensures NumberIn(Field(Norm(v), key, missing), minimum, maximum)
         == Some(NormNumber(NumberIn(Field(v, key, missing), minimum, maximum).value))
  {
    FieldOfNorm(v, key, missing);
    AcceptedAgain(Field(v, key, missing), minimum, maximum);
  }

  lemma ProportionsOfNorm(v: Json)
    requires WellFormed(v) && ProportionsFrom(v).Some?
    ensures ProportionsFrom(Norm(v)) == Some(NormProportions(ProportionsFrom(v).value))
  {
    ShapeOfNorm(v, PROPORTIONS_REQUIRED, PROPORTION_KEYS);
    OneIsNormal();
    NumberFieldOfNorm(v, PROPORTION_KEYS[0], Num(Dec(false, 1, 0)), 7, 14);
    NumberFieldOfNorm(v, PROPORTION_KEYS[1], Null, 7, 16);
    NumberFieldOfNorm(v, PROPORTION_KEYS[2], Null, 7, 13);
  }

  lemma OneIsNormal()
    ensures Norm(Num(Dec(false, 1, 0))) == Num(Dec(false, 1, 0))
  {
    assert Normalize(Dec(false, 1, 0)) == Plain(false, 1, 0);
  }

  lemma BaseOfNorm(v: Json)
    requires WellFormed(v) && BaseFrom(v).Some?
    ensures BaseFrom(Norm(v)) == Some(NormBase(BaseFrom(v).value))
  {
    ShapeOfNorm(v, BASE_KEYS, BASE_KEYS);
    FieldTextsOfNorm(v, BASE_KEYS[2], Null, BASES);
    var none := BaseFrom(v).value.preset == BASES[0];
    NumberFieldOfNorm(v, BASE_KEYS[3], Null, if none then 0 else 200, if none then 0 else 1600);
    NumberFieldOfNorm(v, BASE_KEYS[0], Null, if none then 0 else 200, if none then 0 else 1600);
    NumberFieldOfNorm(v, BASE_KEYS[1], Null, if none then 0 else 20, if none then 0 else 250);
  }

  lemma DefaultBaseIsNormal()
    ensures NormBase(DefaultBase()) == DefaultBase()
  {
    assert Normalize(Dec(false, 48, 0)) == Plain(false, 48, 0);
    assert Normalize(Dec(false, 5, 0)) == Plain(false, 5, 0);
  }

  // The text fields and lists of a specification are read alike from the normal form.
  lemma FieldTextsOfNorm(v: Json, key: Text, missing: Json, choices: seq<Text>)
    requires v.Obj? && WellFormed(v) && Norm(missing) == missing
    ensures TextIn(Field(Norm(v), key, missing), choices) == TextIn(Field(v, key, missing), choices)
    ensures NameFrom(Field(Norm(v), key, missing)) == NameFrom(Field(v, key, missing))
    ensures SlugOf(Field(Norm(v), key, missing)) == SlugOf(Field(v, key, missing))
    ensures forall t :: Field(Norm(v), key, missing) == Str(t) <==> Field(v, key, missing) == Str(t)
    ensures PaletteFrom(Field(Norm(v), key, missing)) == PaletteFrom(Field(v, key, missing))
    ensures ComponentsFrom(Field(Norm(v), key, missing)) == ComponentsFrom(Field(v, key, missing))
  {
    FieldOfNorm(v, key, missing);
    TextOfNorm(Field(v, key, missing), choices);
    ListsOfNorm(Field(v, key, missing));
  }

  lemma BaseFieldOfNorm(v: Json)
    requires v.Obj? && WellFormed(v) && BaseField(v).Some?
    ensures BaseField(Norm(v)) == Some(NormBase(BaseField(v).value))
  {
    FieldOfNorm(v, SPEC_KEYS[0], Null);
    FieldWellFormed(v, SPEC_KEYS[0], Null);
    if SPEC_KEYS[0] in Keys(v.members) {
      BaseOfNorm(Field(v, SPEC_KEYS[0], Null));
    } else {
      DefaultBaseIsNormal();
    }
  }

  function NormReading(r: Reading): Reading
    requires r.height.Some? && r.proportions.Some? && r.base.Some?
  {
    r.(height := Some(NormNumber(r.height.value)), proportions := Some(NormProportions(r.proportions.value)),
       base := Some(NormBase(r.base.value)))
  }

  lemma TextsOfNorm(v: Json)
    requires v.Obj? && WellFormed(v)
    ensures var r, n := Read(v), Read(Norm(v));
            n.name == r.name && n.slug == r.slug && n.style == r.style && n.pose == r.pose && n.material == r.material
            && n.eyes == r.eyes && n.palette == r.palette && n.components == r.components
  {
    FieldTextsOfNorm(v, SPEC_KEYS[5], Null, []);
    if Read(v).name.Some? {
      FieldTextsOfNorm(v, SPEC_KEYS[9], Str(SlugFrom(Read(v).name.value)), []);
    }
    FieldTextsOfNorm(v, SPEC_KEYS[6], Null, []);
    FieldTextsOfNorm(v, SPEC_KEYS[1], Arr(NoItems), []);
    FieldTextsOfNorm(v, SPEC_KEYS[11], Null, STYLES);
    FieldTextsOfNorm(v, SPEC_KEYS[7], Null, POSES);
    FieldTextsOfNorm(v, SPEC_KEYS[4], Str(MATERIALS[0]), MATERIALS);
    FieldTextsOfNorm(v, SPEC_KEYS[2], Str(EYES[0]), EYES);
  }

  lemma NumbersOfNorm(v: Json)
    requires v.Obj? && WellFormed(v) && Read(v).height.Some? && Read(v).proportions.Some? && Read(v).base.Some?
    ensures var r, n := NormReading(Read(v)), Read(Norm(v));
            n.height == r.height && n.proportions == r.proportions && n.base == r.base
  {
    NumberFieldOfNorm(v, SPEC_KEYS[3], Null, 250, 2500);
    FieldOfNorm(v, SPEC_KEYS[8], Null);
    FieldWellFormed(v, SPEC_KEYS[8], Null);
    ProportionsOfNorm(Field(v, SPEC_KEYS[8], Null));
    BaseFieldOfNorm(v);
  }

  lemma SpecOfNorm(v: Json)
    requires WellFormed(v) && SpecFrom(v).Some?
    ensures SpecFrom(Norm(v)) == Some(NormSpec(SpecFrom(v).value))
  {
    ShapeOfNorm(v, SPEC_REQUIRED, SPEC_KEYS);
    FieldTextsOfNorm(v, SPEC_KEYS[10], Null, []);
    TextsOfNorm(v);
    NumbersOfNorm(v);
    assert Read(Norm(v)) == NormReading(Read(v));
  }

  lemma RequestOfNorm(v: Json)
    requires WellFormed(v) && RequestFrom(v).Some?
    ensures RequestFrom(Norm(v)) == Some(NormSpec(RequestFrom(v).value))
  {
    ShapeOfNorm(v, REQUEST_KEYS, REQUEST_KEYS);
    FieldTextsOfNorm(v, REQUEST_KEYS[0], Null, []);
    FieldTextsOfNorm(v, REQUEST_KEYS[1], Null, []);
    FieldTextsOfNorm(v, REQUEST_KEYS[2], Null, []);
    FieldTextsOfNorm(v, REQUEST_KEYS[3], Null, []);
    FieldTextsOfNorm(v, REQUEST_KEYS[4], Null, []);
    FieldOfNorm(v, REQUEST_KEYS[5], Null);
    FieldWellFormed(v, REQUEST_KEYS[5], Null);
    SpecOfNorm(Field(v, REQUEST_KEYS[5], Null));
  }

  // ---- Reading what `to_dict` gives ----

  lemma {:induction false} ObjectHasKeys(keys: seq<Text>, values: seq<Json>)
    requires |keys| == |values|
    ensures Keys(Object(keys, values)) == KeySet(keys)
  {
    if keys != [] {
      ObjectHasKeys(keys[1..], values[1..]);
      assert keys == [keys[0]] + keys[1..];
    }
  }

  lemma {:induction false} ObjectLookup(keys: seq<Text>, values: seq<Json>, i: nat)
    requires |keys| == |values| && NoRepeat(keys) && i < |keys|
    ensures keys[i] in Keys(Object(keys, values)) && Lookup(Object(keys, values), keys[i]) == values[i]
  {
    ObjectHasKeys(keys, values);
    if i > 0 {
      ObjectLookup(keys[1..], values[1..], i - 1);
    }
  }

  lemma {:induction false} ObjectWellFormed(keys: seq<Text>, values: seq<Json>)
    requires |keys| == |values| && NoRepeat(keys) && forall v :: v in values ==> WellFormed(v)
    ensures MembersWellFormed(Object(keys, values))
  {
    if keys != [] {
      ObjectWellFormed(keys[1..], values[1..]);
      ObjectHasKeys(keys[1..], values[1..]);
    }
  }

  // The first three characters of a key tell the keys of one object apart.
  function Code(t: Text): int { if |t| < 3 then 0 else CodeOf(t[0], t[1], t[2]) }

  function CodeOf(a: int, b: int, c: int): int { 1000000 * a + 1000 * b + c }

  predicate CodesRise(keys: seq<Text>) { forall i :: 0 <= i < |keys| - 1 ==> Code(keys[i]) < Code(keys[i + 1]) }

  lemma {:induction false} CodesOrdered(keys: seq<Text>, i: nat, j: nat)
    requires CodesRise(keys) && i < j < |keys|
    ensures Code(keys[i]) < Code(keys[j])
  {
    if i + 1 < j {
      CodesOrdered(keys, i, j - 1);
    }
  }

  lemma RisingCodesDiffer(keys: seq<Text>)
    requires CodesRise(keys)
    ensures NoRepeat(keys)
  {
    forall i, j | 0 <= i < j < |keys| ensures keys[i] != keys[j] {
      CodesOrdered(keys, i, j);
    }
  }

  lemma KeysDiffer()
    ensures NoRepeat(PROPORTION_KEYS) && NoRepeat(BASE_KEYS) && NoRepeat(REQUEST_KEYS) && NoRepeat(SPEC_KEYS)
  {
    RisingCodesDiffer(PROPORTION_KEYS);
    RisingCodesDiffer(BASE_KEYS);
    RequestCodesRise();
    RisingCodesDiffer(REQUEST_KEYS);
    SpecCodesRise();
    RisingCodesDiffer(SPEC_KEYS);
  }

  lemma RequestCodesRise()
    ensures CodesRise(REQUEST_KEYS)
  {
    assert Code(REQUEST_KEYS[0]) == 103101110 && Code(REQUEST_KEYS[1]) == 111117116;
    assert Code(REQUEST_KEYS[2]) == 113117097 && Code(REQUEST_KEYS[3]) == 114101110;
    assert Code(REQUEST_KEYS[4]) == 114101113 && Code(REQUEST_KEYS[5]) == 115112101;
  }

  lemma SpecCodesRise()
    ensures CodesRise(SPEC_KEYS)
  {
    assert Code(SPEC_KEYS[0]) == 98097115 && Code(SPEC_KEYS[1]) == 99111109 && Code(SPEC_KEYS[2]) == 101121101;
    assert Code(SPEC_KEYS[3]) == 104101105 && Code(SPEC_KEYS[4]) == 109097116 && Code(SPEC_KEYS[5]) == 110097109;
    assert Code(SPEC_KEYS[6]) == 112097108 && Code(SPEC_KEYS[7]) == 112111115 && Code(SPEC_KEYS[8]) == 112114111;
    assert Code(SPEC_KEYS[9]) == 115108117 && Code(SPEC_KEYS[10]) == 115112101 && Code(SPEC_KEYS[11]) == 115116121;
  }

  // ---- Sorted text lists ----

  predicate Ascending(ts: seq<Text>) { forall i, j :: 0 <= i < j < |ts| ==> Before(ts[i], ts[j]) }

  lemma {:induction false} InsertAscending(t: Text, ts: seq<Text>)
    requires Ascending(ts) && t !in ts
    ensures Ascending(InsertKey(t, ts)) && |InsertKey(t, ts)| == |ts| + 1
    ensures forall u :: u in InsertKey(t, ts) <==> u == t || u in ts
  {
    if ts != [] {
      BeforeIsTotal(t, ts[0]);
      if Before(t, ts[0]) {
        forall j | 0 <= j < |ts| ensures Before(t, ts[j]) {
          if j > 0 {
            BeforeIsTransitive(t, ts[0], ts[j]);
          }
        }
      } else {
        InsertAscending(t, ts[1..]);
        var rest := InsertKey(t, ts[1..]);
        forall j | 0 <= j < |rest| ensures Before(ts[0], rest[j]) {
          assert rest[j] in rest;
        }
      }
    }
  }

  lemma {:induction false} SortedAscending(ts: seq<Text>)
    requires NoRepeat(ts)
    ensures Ascending(SortedKeys(ts)) && |SortedKeys(ts)| == |ts|
    ensures forall u :: u in SortedKeys(ts) <==> u in ts
  {
    if ts != [] {
      SortedAscending(ts[1..]);
      InsertAscending(ts[0], SortedKeys(ts[1..]));
    }
  }

  lemma {:induction false} AscendingIsSorted(ts: seq<Text>)
    requires Ascending(ts)
    ensures SortedKeys(ts) == ts
  {
    if ts != [] {
      AscendingIsSorted(ts[1..]);
      assert ts == [ts[0]] + ts[1..];
    }
  }

  lemma AscendingHasNoRepeat(ts: seq<Text>)
    requires Ascending(ts)
    ensures NoRepeat(ts)
  {
    forall i, j | 0 <= i < j < |ts| ensures ts[i] != ts[j] {
      BeforeIsTotal(ts[i], ts[j]);
      BeforeIsTotal(ts[i], ts[i]);
    }
  }

  lemma {:induction false} TextItemsList(ts: seq<Text>)
    ensures TextList(TextItems(ts)) == Some(ts) && ItemsWellFormed(TextItems(ts))
  {
    if ts != [] {
      TextItemsList(ts[1..]);
      assert ts == [ts[0]] + ts[1..];
    }
  }

  // ---- Valid specifications ----

  predicate ValidNumber(n: Number, minimum: int, maximum: int) { n.Dec? && InBounds(n) && InRange(n, minimum, maximum) }

  predicate ValidProportions(p: Proportions) {
    ValidNumber(p.head, 7, 16) && ValidNumber(p.body, 7, 14) && ValidNumber(p.limb, 7, 13)
  }

  predicate ValidBase(b: Base) {
    && b.preset in BASES
    && var none := b.preset == BASES[0];
       && ValidNumber(b.width, if none then 0 else 200, if none then 0 else 1600)
       && ValidNumber(b.depth, if none then 0 else 200, if none then 0 else 1600)
       && ValidNumber(b.height, if none then 0 else 20, if none then 0 else 250)
  }

  predicate ValidSpec(s: Spec) {
    && ValidName(s.name) && ValidSlug(s.slug) && s.style in STYLES && ValidNumber(s.height, 250, 2500) && s.pose in POSES
    && ValidPalette(s.palette) && ValidProportions(s.proportions) && s.material in MATERIALS && s.eyes in EYES
    && ValidComponents(s.components) && Ascending(s.components) && ValidBase(s.base)
  }

  lemma NumberIsValid(v: Json, minimum: int, maximum: int)
    requires NumberIn(v, minimum, maximum).Some?
    ensures ValidNumber(NumberIn(v, minimum, maximum).value, minimum, maximum)
  {
    DecimalOfInt(v.number);
  }

  lemma ProportionsAreValid(v: Json)
    requires ProportionsFrom(v).Some?
    ensures ValidProportions(ProportionsFrom(v).value)
  {
    NumberIsValid(Field(v, PROPORTION_KEYS[1], Null), 7, 16);
    NumberIsValid(Field(v, PROPORTION_KEYS[0], Num(Dec(false, 1, 0))), 7, 14);
    NumberIsValid(Field(v, PROPORTION_KEYS[2], Null), 7, 13);
  }

  lemma BaseIsValid(v: Json)
    requires BaseFrom(v).Some?
    ensures ValidBase(BaseFrom(v).value)
  {
    var none := BaseFrom(v).value.preset == BASES[0];
    NumberIsValid(Field(v, BASE_KEYS[3], Null), if none then 0 else 200, if none then 0 else 1600);
    NumberIsValid(Field(v, BASE_KEYS[0], Null), if none then 0 else 200, if none then 0 else 1600);
    NumberIsValid(Field(v, BASE_KEYS[1], Null), if none then 0 else 20, if none then 0 else 250);
  }

  lemma DefaultBaseIsValid()
    ensures ValidBase(DefaultBase())
  {
    assert DefaultBase().preset == BASES[1];
    assert BASES[1][0] != BASES[0][0];
    assert Digits(48) == [52, 56] && Digits(5) == [53];
  }

  lemma ComponentsAreValid(v: Json)
    requires ComponentsFrom(v).Some?
    ensures ValidComponents(ComponentsFrom(v).value) && Ascending(ComponentsFrom(v).value)
  {
    SortedAscending(TextList(v.items).value);
    AscendingHasNoRepeat(ComponentsFrom(v).value);
  }

  // Whatever `from_mapping` returns is valid.
  lemma SpecIsValid(v: Json)
    requires SpecFrom(v).Some?
    ensures ValidSpec(SpecFrom(v).value)
  {
    NumberIsValid(Field(v, SPEC_KEYS[3], Null), 250, 2500);
    ProportionsAreValid(Field(v, SPEC_KEYS[8], Null));
    ComponentsAreValid(Field(v, SPEC_KEYS[1], Arr(NoItems)));
    if SPEC_KEYS[0] in Keys(v.members) {
      BaseIsValid(Field(v, SPEC_KEYS[0], Null));
    } else {
      DefaultBaseIsValid();
    }
  }

  lemma FieldOfObject(keys: seq<Text>, values: seq<Json>, i: nat, missing: Json)
    requires |keys| == |values| && NoRepeat(keys) && i < |keys|
    ensures Field(Obj(Object(keys, values)), keys[i], missing) == values[i]
  {
    ObjectLookup(keys, values, i);
  }

  lemma ProportionsOfDict(p: Proportions)
    requires ValidProportions(p)
    ensures ProportionsFrom(ProportionsDict(p)) == Some(p) && WellFormed(ProportionsDict(p))
  {
    KeysDiffer();
    var values := ProportionsValues(p);
    ObjectHasKeys(PROPORTION_KEYS, values);
    ObjectWellFormed(PROPORTION_KEYS, values);
    FieldOfObject(PROPORTION_KEYS, values, 0, Num(Dec(false, 1, 0)));
    FieldOfObject(PROPORTION_KEYS, values, 1, Null);
    FieldOfObject(PROPORTION_KEYS, values, 2, Null);
    assert PROPORTIONS_REQUIRED == [PROPORTION_KEYS[1], PROPORTION_KEYS[2]];
  }

  lemma BaseOfDict(b: Base)
    requires ValidBase(b)
    ensures BaseFrom(BaseDict(b)) == Some(b) && WellFormed(BaseDict(b))
  {
    KeysDiffer();
    var values := BaseValues(b);
    ObjectHasKeys(BASE_KEYS, values);
    ObjectWellFormed(BASE_KEYS, values);
    FieldOfObject(BASE_KEYS, values, 0, Null);
    FieldOfObject(BASE_KEYS, values, 1, Null);
    FieldOfObject(BASE_KEYS, values, 2, Null);
    FieldOfObject(BASE_KEYS, values, 3, Null);
  }

  lemma SpecField(s: Spec, i: nat, missing: Json)
    requires i < |SPEC_KEYS|
    ensures Field(SpecDict(s), SPEC_KEYS[i], missing) == SpecValues(s)[i]
  {
    KeysDiffer();
    FieldOfObject(SPEC_KEYS, SpecValues(s), i, missing);
  }

  lemma NamesOfDict(s: Spec)
    requires ValidSpec(s)
    ensures Read(SpecDict(s)).name == Some(s.name) && Read(SpecDict(s)).slug == Some(s.slug)
  {
    SpecField(s, 5, Null);
    SpecField(s, 9, Str(SlugFrom(s.name)));
  }

  lemma PresetsOfDict(s: Spec)
    requires ValidSpec(s)
    ensures Read(SpecDict(s)).style == Some(s.style) && Read(SpecDict(s)).pose == Some(s.pose)
    ensures Read(SpecDict(s)).material == Some(s.material) && Read(SpecDict(s)).eyes == Some(s.eyes)
  {
    SpecField(s, 11, Null);
    SpecField(s, 7, Null);
    SpecField(s, 4, Str(MATERIALS[0]));
    SpecField(s, 2, Str(EYES[0]));
  }

  lemma ListsOfDict(s: Spec)
    requires ValidSpec(s)
    ensures Read(SpecDict(s)).palette == Some(s.palette) && Read(SpecDict(s)).components == Some(s.components)
  {
    SpecField(s, 6, Null);
    SpecField(s, 1, Arr(NoItems));
    TextItemsList(s.palette);
    TextItemsList(s.components);
    AscendingIsSorted(s.components);
  }

  lemma PartsOfDict(s: Spec)
    requires ValidSpec(s)
    ensures Read(SpecDict(s)).proportions == Some(s.proportions) && Read(SpecDict(s)).height == Some(s.height)
  {
    SpecField(s, 8, Null);
    SpecField(s, 3, Null);
    ProportionsOfDict(s.proportions);
  }

  lemma BaseOfSpecDict(s: Spec)
    requires ValidSpec(s)
    ensures Read(SpecDict(s)).base == Some(s.base)
  {
    SpecField(s, 0, Null);
    BaseOfDict(s.base);
    ObjectHasKeys(SPEC_KEYS, SpecValues(s));
    assert SPEC_KEYS[0] in KeySet(SPEC_KEYS);
  }

  lemma ReadOfDict(s: Spec)
    requires ValidSpec(s)
    ensures Assembled(Read(SpecDict(s))) == Some(s)
  {
    NamesOfDict(s);
    PresetsOfDict(s);
    ListsOfDict(s);
    PartsOfDict(s);
    BaseOfSpecDict(s);
  }

  lemma SpecShape(s: Spec)
    ensures HasShape(SpecDict(s), SPEC_REQUIRED, SPEC_KEYS)
  {
    ObjectHasKeys(SPEC_KEYS, SpecValues(s));
    assert SPEC_REQUIRED == [SPEC_KEYS[10], SPEC_KEYS[5], SPEC_KEYS[11], SPEC_KEYS[3], SPEC_KEYS[7], SPEC_KEYS[6],
                             SPEC_KEYS[8]];
    forall k | k in KeySet(SPEC_REQUIRED) ensures k in KeySet(SPEC_KEYS) {
    }
  }

  lemma SpecValuesWellFormed(s: Spec)
    requires ValidSpec(s)
    ensures forall v :: v in SpecValues(s) ==> WellFormed(v)
  {
    TextItemsList(s.palette);
    TextItemsList(s.components);
    ProportionsOfDict(s.proportions);
    BaseOfDict(s.base);
  }

  lemma SpecDictWellFormed(s: Spec)
    requires ValidSpec(s)
    ensures WellFormed(SpecDict(s))
  {
    KeysDiffer();
    SpecValuesWellFormed(s);
    ObjectWellFormed(SPEC_KEYS, SpecValues(s));
  }

  // `from_mapping` inverts `to_dict`.
  lemma SpecOfDict(s: Spec)
    requires ValidSpec(s)
    ensures SpecFrom(SpecDict(s)) == Some(s)
  {
    SpecShape(s);
    SpecField(s, 10, Null);
    ReadOfDict(s);
  }

  lemma RequestField(s: Spec, i: nat)
    requires i < |REQUEST_KEYS|
    ensures Field(RequestDict(s), REQUEST_KEYS[i], Null) == RequestValues(s)[i]
  {
    KeysDiffer();
    FieldOfObject(REQUEST_KEYS, RequestValues(s), i, Null);
  }

  lemma RequestDictWellFormed(s: Spec)
    requires ValidSpec(s)
    ensures WellFormed(RequestDict(s))
  {
    KeysDiffer();
    SpecDictWellFormed(s);
    ObjectWellFormed(REQUEST_KEYS, RequestValues(s));
  }

  lemma RequestOfDict(s: Spec)
    requires ValidSpec(s)
    ensures RequestFrom(RequestDict(s)) == Some(s)
  {
    ObjectHasKeys(REQUEST_KEYS, RequestValues(s));
    RequestField(s, 0);
    RequestField(s, 1);
    RequestField(s, 2);
    RequestField(s, 3);
    RequestField(s, 4);
    RequestField(s, 5);
    SpecOfDict(s);
  }

  lemma RequestIsValid(v: Json)
    requires RequestFrom(v).Some?
    ensures ValidSpec(RequestFrom(v).value)
  {
    SpecIsValid(Field(v, REQUEST_KEYS[5], Null));
  }

  // So reading the normal form of a request's own mapping gives the request, numbers normalised.
  lemma RequestNormalForm(s: Spec)
    requires ValidSpec(s)
    ensures RequestFrom(Norm(RequestDict(s))) == Some(NormSpec(s))
  {
    RequestDictWellFormed(s);
    RequestOfDict(s);
    RequestOfNorm(RequestDict(s));
  }
}
