// What a request is: which JSON values are read as which specification, field by field, in the
// terms of the published format (shared/character_spec.py:16-49, 89-106, 116-147, 165-280, 296-348).
module RequestMeaning {
  import opened Bytes
  import opened Options
  import opened Unicode
  import opened CanonicalNumbers
  import opened Json
  import opened CanonicalJson
  import opened JsonPrinter
  import opened CharacterSpec
  import opened RequestForm
  import opened RequestFingerprint
  import opened Slug
  import JsonGrammar

  // ---- Fields ----

  function Get(v: Json, key: string): Option<Json> {
    if v.Obj? && T(key) in Keys(v.members) then Some(Lookup(v.members, T(key))) else None
  }

  // An object with all of these keys, and no key that is not allowed.
  ghost predicate KeysOf(v: Json, required: set<string>, allowed: set<string>) {
    && v.Obj? && (forall k :: k in required ==> T(k) in Keys(v.members))
    && forall t :: t in Keys(v.members) ==> exists k :: k in allowed && t == T(k)
  }

  ghost predicate IsText(v: Option<Json>, text: Text, choices: set<string>) {
    v == Some(Str(text)) && exists c :: c in choices && text == T(c)
  }

  // The decimal of a JSON number.
  predicate IsDecimal(n: Number, d: Number) {
    match n
    case Dec(_, _, _) => d == n
    case Int(i) => d.Dec? && d.exponent == 0 && d.negative == (i < 0) && d.coefficient as int == if i < 0 then -i else i
  }

  // A number within the limits of the decoder, between two numbers of tenths.
  predicate IsAmount(v: Option<Json>, low: int, high: int, d: Number) {
    && v.Some? && v.value.Num? && InBounds(v.value.number) && d.Dec? && IsDecimal(v.value.number, d)
    && low * Power(Places(d)) <= Value(d, Places(d)) * 10 <= high * Power(Places(d))
  }

  // A list of exactly these texts.
  predicate IsList(items: Items, texts: seq<Text>) {
    match items
    case NoItems => texts == []
    case Item(head, tail) => texts != [] && head == Str(texts[0]) && IsList(tail, texts[1..])
  }

  predicate Differ(texts: seq<Text>) { forall i, j :: 0 <= i < j < |texts| ==> texts[j] != texts[i] }

  // ---- Patterns ----

  predicate Lower(c: CodePoint) { 'a' as int <= c <= 'z' as int || '0' as int <= c <= '9' as int }

  predicate Alphanumeric(c: CodePoint) { Lower(c) || 'A' as int <= c <= 'Z' as int }

  // 1 to 64 letters, digits, spaces, apostrophes and hyphens, a letter or digit at both ends
  predicate NamePattern(t: Text) {
    && 1 <= |t| <= 64 && Alphanumeric(t[0]) && Alphanumeric(t[|t| - 1])
    && forall i :: 0 <= i < |t| ==>
         Alphanumeric(t[i]) || t[i] == ' ' as int || t[i] == '\'' as int || t[i] == '-' as int
  }

  // 1 to 48 lower-case letters and digits, with single hyphens between them
  predicate SlugPattern(t: Text) {
    && 1 <= |t| <= 48 && (forall i :: 0 <= i < |t| ==> Lower(t[i]) || t[i] == '-' as int)
    && forall i :: 0 <= i < |t| && t[i] == '-' as int ==> 0 < i < |t| - 1 && Lower(t[i - 1]) && Lower(t[i + 1])
  }

  // # and six upper-case hexadecimal digits
  predicate ColorPattern(t: Text) {
    && |t| == 7 && t[0] == '#' as int
    && forall i :: 1 <= i < 7 ==> '0' as int <= t[i] <= '9' as int || 'A' as int <= t[i] <= 'F' as int
  }

  // ---- The format ----

  const SPEC_NEEDS: set<string> := {"spec_version", "name", "style", "height_mm", "pose", "palette", "proportions"}
  const SPEC_KNOWS: set<string> := {"spec_version", "name", "slug", "style", "height_mm", "pose", "palette",
                                    "proportions", "material_preset", "eye_preset", "components", "base"}
  const BASE_NEEDS: set<string> := {"preset", "width_mm", "depth_mm", "height_mm"}
  const REQUEST_NEEDS: set<string> := {"request_version", "generator", "spec", "output_profile", "render_profile",
                                       "quality_profile"}

  ghost predicate IsProportions(v: Option<Json>, p: Proportions) {
    && v.Some? && KeysOf(v.value, {"head_scale", "limb_scale"}, {"head_scale", "limb_scale", "body_scale"})
    && IsAmount(Get(v.value, "head_scale"), 7, 16, p.head)
    && (if Get(v.value, "body_scale").None? then p.body == Dec(false, 1, 0)
        else IsAmount(Get(v.value, "body_scale"), 7, 14, p.body))
    && IsAmount(Get(v.value, "limb_scale"), 7, 13, p.limb)
  }

  // The sizes of a base, between these tenths.
  ghost predicate IsSize(v: Json, b: Base, low: int, high: int, lowest: int, highest: int) {
    && IsAmount(Get(v, "width_mm"), low, high, b.width) && IsAmount(Get(v, "depth_mm"), low, high, b.depth)
    && IsAmount(Get(v, "height_mm"), lowest, highest, b.height)
  }

  ghost predicate IsBase(v: Json, b: Base) {
    && KeysOf(v, BASE_NEEDS, BASE_NEEDS)
    && IsText(Get(v, "preset"), b.preset, {"none", "round", "square", "hexagonal"})
    && if b.preset == T("none") then IsSize(v, b, 0, 0, 0, 0) else IsSize(v, b, 200, 1600, 20, 250)
  }

  ghost predicate IsPalette(v: Option<Json>, colors: seq<Text>) {
    && v.Some? && v.value.Arr? && IsList(v.value.items, colors) && 1 <= |colors| <= 8 && Differ(colors)
    && forall i :: 0 <= i < |colors| ==> ColorPattern(colors[i])
  }

  ghost predicate IsComponent(t: Text) {
    exists c :: c in {"antenna-pair", "backpack", "chest-badge", "long-horns", "pointed-ears", "round-ears",
                      "short-horns", "stub-tail", "swept-tail"} && t == T(c)
  }

  // At most 16 known components, all different, without both tails.
  ghost predicate MayBeListed(listed: seq<Text>) {
    && |listed| <= 16 && Differ(listed) && (forall t :: t in listed ==> IsComponent(t))
    && !(T("stub-tail") in listed && T("swept-tail") in listed)
  }

  // The listed components, in ascending order.
  ghost predicate IsComponents(v: Option<Json>, components: seq<Text>) {
    if v.None? then components == []
    else v.value.Arr? && Ascending(components) && exists listed :: ListedAs(v.value.items, listed, components)
  }

  ghost predicate ListedAs(items: Items, listed: seq<Text>, components: seq<Text>) {
    IsList(items, listed) && MayBeListed(listed) && forall t :: t in components <==> t in listed
  }

  ghost predicate IsSpec(v: Json, s: Spec) {
    && KeysOf(v, SPEC_NEEDS, SPEC_KNOWS)
    && Get(v, "spec_version") == Some(Str(T("character/v1")))
    && Get(v, "name") == Some(Str(s.name)) && NamePattern(s.name)
    && (if Get(v, "slug").None? then s.slug == SlugFrom(s.name) else Get(v, "slug") == Some(Str(s.slug)))
    && SlugPattern(s.slug)
    && IsText(Get(v, "style"), s.style, {"geometric", "low_poly", "chibi"})
    && IsAmount(Get(v, "height_mm"), 250, 2500, s.height)
    && IsText(Get(v, "pose"), s.pose, {"standing", "wave", "heroic"})
    && IsPalette(Get(v, "palette"), s.palette) && IsProportions(Get(v, "proportions"), s.proportions)
    && (if Get(v, "material_preset").None? then s.material == T("matte")
        else IsText(Get(v, "material_preset"), s.material, {"matte", "satin", "glossy"}))
    && (if Get(v, "eye_preset").None? then s.eyes == T("round")
        else IsText(Get(v, "eye_preset"), s.eyes, {"round", "visor", "sleepy"}))
    && IsComponents(Get(v, "components"), s.components)
    && if Get(v, "base").None? then s.base == Base(T("round"), Dec(false, 48, 0), Dec(false, 48, 0), Dec(false, 5, 0))
       else IsBase(Get(v, "base").value, s.base)
  }

  ghost predicate IsRequest(v: Json, s: Spec) {
    && KeysOf(v, REQUEST_NEEDS, REQUEST_NEEDS) && Versioned(v)
    && Get(v, "spec").Some? && IsSpec(Get(v, "spec").value, s)
  }

  predicate Versioned(v: Json) {
    && Get(v, "request_version") == Some(Str(T("build/v1")))
    && Get(v, "generator") == Some(Str(T("geometric-character@1.0.0")))
    && Get(v, "output_profile") == Some(Str(T("complete-v1")))
    && Get(v, "render_profile") == Some(Str(T("diagnostic-v1")))
    && Get(v, "quality_profile") == Some(Str(T("geometry-v1")))
  }

  // ---- Reading is exactly that ----

  lemma FieldIs(v: Json, key: string, missing: Json)
    requires v.Obj?
    ensures Field(v, T(key), missing) == if Get(v, key).Some? then Get(v, key).value else missing
    ensures Get(v, key).Some? <==> T(key) in Keys(v.members)
  {
  }

  lemma NumberIff(v: Json, low: int, high: int, d: Number)
    ensures NumberIn(v, low, high) == Some(d) <==> IsAmount(Some(v), low, high, d)
  {
  }

  lemma {:induction false} ListIff(items: Items, texts: seq<Text>)
    ensures TextList(items) == Some(texts) <==> IsList(items, texts)
  {
    if items.Item? {
      if texts != [] {
        ListIff(items.tail, texts[1..]);
        assert texts == [texts[0]] + texts[1..];
      }
      if TextList(items.tail).Some? && items.head.Str? {
        assert ([items.head.text] + TextList(items.tail).value)[1..] == TextList(items.tail).value;
      }
    }
  }

  lemma NameIff(t: Text)
    ensures ValidName(t) <==> NamePattern(t)
  {
    assert forall i :: 0 <= i < |t| ==> t[i] in t;
  }

  lemma SlugIff(t: Text)
    ensures ValidSlug(t) <==> SlugPattern(t)
  {
    assert forall i :: 0 <= i < |t| ==> t[i] in t;
  }

  lemma ColorIff(t: Text)
    ensures ValidColor(t) <==> ColorPattern(t)
  {
  }

  lemma PaletteIff(v: Json, colors: seq<Text>)
    ensures PaletteFrom(v) == Some(colors) <==> IsPalette(Some(v), colors)
  {
    if v.Arr? {
      ListIff(v.items, colors);
      forall t ensures ValidColor(t) <==> ColorPattern(t) {
        ColorIff(t);
      }
      assert forall i :: 0 <= i < |colors| ==> colors[i] in colors;
    }
  }

  lemma ComponentIff(t: Text)
    ensures t in COMPONENTS <==> IsComponent(t)
  {
    assert COMPONENTS == [T("antenna-pair"), T("backpack"), T("chest-badge"), T("long-horns"), T("pointed-ears"),
                          T("round-ears"), T("short-horns"), T("stub-tail"), T("swept-tail")];
  }

  // Two ascending lists of the same texts are one list.
  lemma {:induction false} AscendingIsUnique(a: seq<Text>, b: seq<Text>)
    requires Ascending(a) && Ascending(b) && forall t :: t in a <==> t in b
    ensures a == b
  {
    assert |b| > 0 ==> b[0] in b;
    if a != [] {
      assert a[0] in a;
      SameFirst(a, b);
      forall t ensures t in a[1..] <==> t in b[1..] {
        RestOf(a, t);
        RestOf(b, t);
      }
      AscendingIsUnique(a[1..], b[1..]);
      assert a == [a[0]] + a[1..] && b == [b[0]] + b[1..];
    }
  }

  lemma SameFirst(a: seq<Text>, b: seq<Text>)
    requires a != [] && b != [] && Ascending(a) && Ascending(b) && forall t :: t in a <==> t in b
    ensures a[0] == b[0]
  {
    assert a[0] in b && b[0] in a;
    BeforeIsTotal(a[0], b[0]);
  }

  lemma RestOf(a: seq<Text>, t: Text)
    requires a != [] && Ascending(a)
    ensures t in a[1..] <==> t in a && t != a[0]
  {
    AscendingHasNoRepeat(a);
    assert a == [a[0]] + a[1..];
    assert forall i :: 0 < i < |a| ==> a[i] != a[0];
  }

  lemma ListedIff(listed: seq<Text>)
    ensures ValidComponents(listed) <==> MayBeListed(listed)
  {
    forall t ensures t in COMPONENTS <==> IsComponent(t) {
      ComponentIff(t);
    }
  }

  lemma ComponentsIff(v: Json, components: seq<Text>)
    ensures ComponentsFrom(v) == Some(components) <==> IsComponents(Some(v), components)
  {
    if ComponentsFrom(v) == Some(components) {
      var listed := TextList(v.items).value;
      ListIff(v.items, listed);
      ListedIff(listed);
      SortedAscending(listed);
      assert ListedAs(v.items, listed, components);
    }
    if IsComponents(Some(v), components) {
      var listed :| ListedAs(v.items, listed, components);
      ListIff(v.items, listed);
      ListedIff(listed);
      SortedAscending(listed);
      AscendingIsUnique(components, SortedKeys(listed));
    }
  }

  lemma TextIff(v: Json, choices: seq<Text>, names: set<string>, t: Text)
    requires forall t :: t in choices <==> exists c :: c in names && t == T(c)
    ensures TextIn(v, choices) == Some(t) <==> IsText(Some(v), t, names)
  {
  }

  lemma ShapeIff(v: Json, required: seq<Text>, allowed: seq<Text>, needed: set<string>, known: set<string>)
    requires forall t :: t in required <==> exists k :: k in needed && t == T(k)
    requires forall t :: t in allowed <==> exists k :: k in known && t == T(k)
    ensures HasShape(v, required, allowed) <==> KeysOf(v, needed, known)
  {
    if KeysOf(v, needed, known) {
      forall t | t in required ensures t in Keys(v.members) {
        var k :| k in needed && t == T(k);
      }
    }
    if HasShape(v, required, allowed) {
      forall k | k in needed ensures T(k) in Keys(v.members) {
        assert T(k) in required;
        assert T(k) in KeySet(required);
      }
      forall t | t in Keys(v.members) ensures exists k :: k in known && t == T(k) {
        assert t in KeySet(allowed);
      }
    }
  }

  lemma ProportionsIff(v: Json, p: Proportions)
    ensures ProportionsFrom(v) == Some(p) <==> IsProportions(Some(v), p)
  {
    ShapeIff(v, PROPORTIONS_REQUIRED, PROPORTION_KEYS, {"head_scale", "limb_scale"},
             {"head_scale", "limb_scale", "body_scale"});
    if v.Obj? {
      FieldIs(v, "head_scale", Null);
      FieldIs(v, "body_scale", Num(Dec(false, 1, 0)));
      FieldIs(v, "limb_scale", Null);
      NumberIff(Field(v, T("head_scale"), Null), 7, 16, p.head);
      NumberIff(Field(v, T("body_scale"), Num(Dec(false, 1, 0))), 7, 14, p.body);
      NumberIff(Field(v, T("limb_scale"), Null), 7, 13, p.limb);
      OneIsAmount();
    }
  }

  lemma OneIsAmount()
    ensures NumberIn(Num(Dec(false, 1, 0)), 7, 14) == Some(Dec(false, 1, 0))
  {
  }

  lemma SizeIff(v: Json, b: Base, low: int, high: int, lowest: int, highest: int)
    requires v.Obj?
    ensures NumberIn(Field(v, BASE_KEYS[3], Null), low, high) == Some(b.width)
            && NumberIn(Field(v, BASE_KEYS[0], Null), low, high) == Some(b.depth)
            && NumberIn(Field(v, BASE_KEYS[1], Null), lowest, highest) == Some(b.height)
       <==> IsSize(v, b, low, high, lowest, highest)
  {
    FieldIs(v, "width_mm", Null);
    FieldIs(v, "depth_mm", Null);
    FieldIs(v, "height_mm", Null);
    NumberIff(Field(v, T("width_mm"), Null), low, high, b.width);
    NumberIff(Field(v, T("depth_mm"), Null), low, high, b.depth);
    NumberIff(Field(v, T("height_mm"), Null), lowest, highest, b.height);
  }

  lemma BaseKeysIff(v: Json)
    ensures HasShape(v, BASE_KEYS, BASE_KEYS) <==> KeysOf(v, BASE_NEEDS, BASE_NEEDS)
  {
    ShapeIff(v, BASE_KEYS, BASE_KEYS, BASE_NEEDS, BASE_NEEDS);
  }

  lemma PresetIff(v: Json, preset: Text)
    requires v.Obj?
    ensures TextIn(Field(v, BASE_KEYS[2], Null), BASES) == Some(preset)
       <==> IsText(Get(v, "preset"), preset, {"none", "round", "square", "hexagonal"})
  {
    FieldIs(v, "preset", Null);
    TextIff(Field(v, T("preset"), Null), BASES, {"none", "round", "square", "hexagonal"}, preset);
  }

  lemma BaseIff(v: Json, b: Base)
    ensures BaseFrom(v) == Some(b) <==> IsBase(v, b)
  {
    BaseKeysIff(v);
    if v.Obj? {
      PresetIff(v, b.preset);
      SizeIff(v, b, 0, 0, 0, 0);
      SizeIff(v, b, 200, 1600, 20, 250);
    }
  }

  lemma NameFieldIff(v: Json, name: Text)
    requires v.Obj?
    ensures NameFrom(Field(v, SPEC_KEYS[5], Null)) == Some(name)
       <==> Get(v, "name") == Some(Str(name)) && NamePattern(name)
  {
    FieldIs(v, "name", Null);
    NameIff(name);
  }

  lemma SlugFieldIff(v: Json, name: Text, slug: Text)
    requires v.Obj?
    ensures SlugField(v, Some(name)) == Some(slug) <==>
              && (if Get(v, "slug").None? then slug == SlugFrom(name) else Get(v, "slug") == Some(Str(slug)))
              && SlugPattern(slug)
  {
    FieldIs(v, "slug", Str(SlugFrom(name)));
    SlugIff(slug);
  }

  lemma StyleFieldIff(v: Json, style: Text)
    requires v.Obj?
    ensures TextIn(Field(v, SPEC_KEYS[11], Null), STYLES) == Some(style)
       <==> IsText(Get(v, "style"), style, {"geometric", "low_poly", "chibi"})
  {
    FieldIs(v, "style", Null);
    TextIff(Field(v, T("style"), Null), STYLES, {"geometric", "low_poly", "chibi"}, style);
  }

  lemma HeightFieldIff(v: Json, height: Number)
    requires v.Obj?
    ensures NumberIn(Field(v, SPEC_KEYS[3], Null), 250, 2500) == Some(height)
       <==> IsAmount(Get(v, "height_mm"), 250, 2500, height)
  {
    FieldIs(v, "height_mm", Null);
    NumberIff(Field(v, T("height_mm"), Null), 250, 2500, height);
  }

  lemma PoseFieldIff(v: Json, pose: Text)
    requires v.Obj?
    ensures TextIn(Field(v, SPEC_KEYS[7], Null), POSES) == Some(pose)
       <==> IsText(Get(v, "pose"), pose, {"standing", "wave", "heroic"})
  {
    FieldIs(v, "pose", Null);
    TextIff(Field(v, T("pose"), Null), POSES, {"standing", "wave", "heroic"}, pose);
  }

  lemma PaletteFieldIff(v: Json, palette: seq<Text>)
    requires v.Obj?
    ensures PaletteFrom(Field(v, SPEC_KEYS[6], Null)) == Some(palette) <==> IsPalette(Get(v, "palette"), palette)
  {
    FieldIs(v, "palette", Null);
    PaletteIff(Field(v, T("palette"), Null), palette);
  }

  lemma ProportionsFieldIff(v: Json, p: Proportions)
    requires v.Obj?
    ensures ProportionsFrom(Field(v, SPEC_KEYS[8], Null)) == Some(p) <==> IsProportions(Get(v, "proportions"), p)
  {
    FieldIs(v, "proportions", Null);
    ProportionsIff(Field(v, T("proportions"), Null), p);
  }

  lemma MaterialFieldIff(v: Json, material: Text)
    requires v.Obj?
    ensures TextIn(Field(v, SPEC_KEYS[4], Str(MATERIALS[0])), MATERIALS) == Some(material)
       <==> if Get(v, "material_preset").None? then material == T("matte")
            else IsText(Get(v, "material_preset"), material, {"matte", "satin", "glossy"})
  {
    FieldIs(v, "material_preset", Str(MATERIALS[0]));
    TextIff(Field(v, T("material_preset"), Str(MATERIALS[0])), MATERIALS, {"matte", "satin", "glossy"}, material);
  }

  lemma EyesFieldIff(v: Json, eyes: Text)
    requires v.Obj?
    ensures TextIn(Field(v, SPEC_KEYS[2], Str(EYES[0])), EYES) == Some(eyes)
       <==> if Get(v, "eye_preset").None? then eyes == T("round")
            else IsText(Get(v, "eye_preset"), eyes, {"round", "visor", "sleepy"})
  {
    FieldIs(v, "eye_preset", Str(EYES[0]));
    TextIff(Field(v, T("eye_preset"), Str(EYES[0])), EYES, {"round", "visor", "sleepy"}, eyes);
  }

  lemma ComponentsFieldIff(v: Json, components: seq<Text>)
    requires v.Obj?
    ensures ComponentsFrom(Field(v, SPEC_KEYS[1], Arr(NoItems))) == Some(components)
       <==> IsComponents(Get(v, "components"), components)
  {
    FieldIs(v, "components", Arr(NoItems));
    ComponentsIff(Field(v, T("components"), Arr(NoItems)), components);
    assert ComponentsFrom(Arr(NoItems)) == Some([]);
  }

  lemma BaseFieldIff(v: Json, b: Base)
    requires v.Obj?
    ensures BaseField(v) == Some(b)
       <==> if Get(v, "base").None? then b == Base(T("round"), Dec(false, 48, 0), Dec(false, 48, 0), Dec(false, 5, 0))
            else IsBase(Get(v, "base").value, b)
  {
    FieldIs(v, "base", Null);
    BaseIff(Field(v, T("base"), Null), b);
  }

  // Each field is read as what it says.
  ghost predicate FieldsRead(v: Json, s: Spec)
    requires v.Obj?
  {
    && NameFrom(Field(v, SPEC_KEYS[5], Null)) == Some(s.name) && SlugField(v, Some(s.name)) == Some(s.slug)
    && TextIn(Field(v, SPEC_KEYS[11], Null), STYLES) == Some(s.style)
    && NumberIn(Field(v, SPEC_KEYS[3], Null), 250, 2500) == Some(s.height)
    && TextIn(Field(v, SPEC_KEYS[7], Null), POSES) == Some(s.pose)
    && PaletteFrom(Field(v, SPEC_KEYS[6], Null)) == Some(s.palette)
    && ProportionsFrom(Field(v, SPEC_KEYS[8], Null)) == Some(s.proportions)
    && TextIn(Field(v, SPEC_KEYS[4], Str(MATERIALS[0])), MATERIALS) == Some(s.material)
    && TextIn(Field(v, SPEC_KEYS[2], Str(EYES[0])), EYES) == Some(s.eyes)
    && ComponentsFrom(Field(v, SPEC_KEYS[1], Arr(NoItems))) == Some(s.components) && BaseField(v) == Some(s.base)
  }

  lemma AssembledIff(v: Json, s: Spec)
    requires v.Obj?
    ensures Assembled(Read(v)) == Some(s) <==> FieldsRead(v, s)
  {
  }

  lemma SpecKeysIff(v: Json)
    ensures HasShape(v, SPEC_REQUIRED, SPEC_KEYS)
       <==> KeysOf(v, SPEC_NEEDS, SPEC_KNOWS)
  {
    ShapeIff(v, SPEC_REQUIRED, SPEC_KEYS, SPEC_NEEDS, SPEC_KNOWS);
  }

  lemma FieldsIff(v: Json, s: Spec)
    requires v.Obj? && KeysOf(v, SPEC_NEEDS, SPEC_KNOWS)
    ensures Get(v, "spec_version") == Some(Str(T("character/v1"))) && FieldsRead(v, s) <==> IsSpec(v, s)
  {
    NameFieldIff(v, s.name);
    SlugFieldIff(v, s.name, s.slug);
    StyleFieldIff(v, s.style);
    HeightFieldIff(v, s.height);
    PoseFieldIff(v, s.pose);
    PaletteFieldIff(v, s.palette);
    ProportionsFieldIff(v, s.proportions);
    MaterialFieldIff(v, s.material);
    EyesFieldIff(v, s.eyes);
    ComponentsFieldIff(v, s.components);
    BaseFieldIff(v, s.base);
  }

  // A value is read as a specification if and only if it is one in the published format.
  lemma SpecIff(v: Json, s: Spec)
    ensures SpecFrom(v) == Some(s) <==> IsSpec(v, s)
  {
    SpecKeysIff(v);
    if HasShape(v, SPEC_REQUIRED, SPEC_KEYS) {
      FieldIs(v, "spec_version", Null);
      AssembledIff(v, s);
      FieldsIff(v, s);
    }
  }

  lemma RequestKeysIff(v: Json)
    ensures HasShape(v, REQUEST_KEYS, REQUEST_KEYS) <==> KeysOf(v, REQUEST_NEEDS, REQUEST_NEEDS)
  {
    ShapeIff(v, REQUEST_KEYS, REQUEST_KEYS, REQUEST_NEEDS, REQUEST_NEEDS);
  }

  lemma ConstantIff(v: Json, key: string, text: Text)
    requires v.Obj?
    ensures Field(v, T(key), Null) == Str(text) <==> Get(v, key) == Some(Str(text))
  {
    FieldIs(v, key, Null);
  }

  lemma VersionsIff(v: Json)
    requires v.Obj?
    ensures Versioned(v) <==>
              && Field(v, REQUEST_KEYS[0], Null) == Str(GENERATOR)
              && Field(v, REQUEST_KEYS[1], Null) == Str(OUTPUT_PROFILE)
              && Field(v, REQUEST_KEYS[2], Null) == Str(QUALITY_PROFILE)
              && Field(v, REQUEST_KEYS[3], Null) == Str(RENDER_PROFILE)
              && Field(v, REQUEST_KEYS[4], Null) == Str(REQUEST_VERSION)
  {
    ConstantIff(v, "request_version", REQUEST_VERSION);
    ConstantIff(v, "generator", GENERATOR);
    ConstantIff(v, "output_profile", OUTPUT_PROFILE);
    ConstantIff(v, "render_profile", RENDER_PROFILE);
    ConstantIff(v, "quality_profile", QUALITY_PROFILE);
  }

  // And as a request.
  lemma RequestIff(v: Json, s: Spec)
    ensures RequestFrom(v) == Some(s) <==> IsRequest(v, s)
  {
    RequestKeysIff(v);
    if HasShape(v, REQUEST_KEYS, REQUEST_KEYS) {
      VersionsIff(v);
      RequestSpecIff(v, s);
    }
  }

  lemma RequestSpecIff(v: Json, s: Spec)
    requires v.Obj?
    ensures SpecFrom(Field(v, REQUEST_KEYS[5], Null)) == Some(s)
       <==> Get(v, "spec").Some? && IsSpec(Get(v, "spec").value, s)
  {
    FieldIs(v, "spec", Null);
    SpecIff(Field(v, T("spec"), Null), s);
  }

  // The UTF-8 encoding of this document, with white space around it, which is the request.
  ghost predicate SpellsRequest(payload: seq<Byte>, t: Text, before: Text, d: JsonGrammar.Doc, after: Text, s: Spec) {
    && Encode(t) == Some(payload) && JsonGrammar.Written(t, before, d, after)
    && Height(JsonGrammar.Meaning(d)) <= 32 && IsRequest(JsonGrammar.Meaning(d), s)
  }

  lemma FromJsonIff(payload: seq<Byte>, v: Json, s: Spec)
    requires DecodeDocument(payload, Some(MAX_REQUEST_BYTES)) == Ok(v)
    ensures FromJson(payload) == Some(s) <==> IsRequest(v, s)
  {
    RequestIff(v, s);
  }

  lemma RequestSpelled(payload: seq<Byte>, s: Spec) returns (t: Text, before: Text, d: JsonGrammar.Doc, after: Text)
    requires FromJson(payload) == Some(s)
    ensures |payload| <= 65536 && SpellsRequest(payload, t, before, d, after, s)
  {
    var v := DecodeDocument(payload, Some(MAX_REQUEST_BYTES)).value;
    FromJsonIff(payload, v, s);
    JsonGrammar.DecodesIff(payload, Some(MAX_REQUEST_BYTES), v);
    t, before, d, after :|
      Encode(t) == Some(payload) && JsonGrammar.Written(t, before, d, after) && JsonGrammar.Meaning(d) == v;
  }

  lemma SpelledIsRead(payload: seq<Byte>, t: Text, before: Text, d: JsonGrammar.Doc, after: Text, s: Spec)
    requires |payload| <= 65536 && SpellsRequest(payload, t, before, d, after, s)
    ensures FromJson(payload) == Some(s)
  {
    var v := JsonGrammar.Meaning(d);
    JsonGrammar.DecodesIff(payload, Some(MAX_REQUEST_BYTES), v);
    FromJsonIff(payload, v, s);
  }

  // At most 64 KiB that spell this request, nested at most 32 deep.
  ghost predicate IsPayload(payload: seq<Byte>, s: Spec) {
    |payload| <= 65536 && exists t: Text, before, d, after :: SpellsRequest(payload, t, before, d, after, s)
  }

  lemma PayloadIsRead(payload: seq<Byte>, s: Spec)
    requires IsPayload(payload, s)
    ensures FromJson(payload) == Some(s)
  {
    var t: Text, before, d, after :| SpellsRequest(payload, t, before, d, after, s);
    SpelledIsRead(payload, t, before, d, after, s);
  }

  lemma ReadIsPayload(payload: seq<Byte>, s: Spec)
    requires FromJson(payload) == Some(s)
    ensures IsPayload(payload, s)
  {
    var t, before, d, after := RequestSpelled(payload, s);
  }

  // Bytes are accepted as a request if and only if they spell it.
  lemma PayloadIff(payload: seq<Byte>, s: Spec)
    ensures FromJson(payload) == Some(s) <==> IsPayload(payload, s)
  {
    if FromJson(payload) == Some(s) {
      ReadIsPayload(payload, s);
    }
    if IsPayload(payload, s) {
      PayloadIsRead(payload, s);
    }
  }
}
