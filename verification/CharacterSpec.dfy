// Build requests and character specifications (shared/character_spec.py:23-49, 52-72, 83-356).
// Every refusal is one None.
module CharacterSpec {
  import opened Options
  import opened Unicode
  import opened CanonicalNumbers
  import opened Json
  import opened JsonPrinter
  import opened Slug

  function T(s: string): (t: Text)
    ensures |t| == |s| && IsScalarText(t)
  {
    seq(|s|, i requires 0 <= i < |s| => s[i] as int)
  }

  // ---- Numbers in a range ----

  // `bounded_decimal_value`: the Decimal of a number within the bounds.
  function AsDecimal(n: Number): (d: Number)
    ensures d.Dec?
  {
    if n.Int? then Dec(n.i < 0, Magnitude(n.i), 0) else n
  }

  // minimum <= n <= maximum, both in tenths.
  predicate InRange(n: Number, minimum: int, maximum: int) {
    var scale := Places(n);
    minimum * Power(scale) <= 10 * Value(n, scale) <= maximum * Power(scale)
  }

  // `_decimal`
  function NumberIn(v: Json, minimum: int, maximum: int): (n: Option<Number>)
    ensures n.Some? ==> n.value.Dec?
  {
    if v.Num? && InBounds(v.number) && InRange(AsDecimal(v.number), minimum, maximum) then Some(AsDecimal(v.number))
    else None
  }

  function TextIn(v: Json, choices: seq<Text>): Option<Text> {
    if v.Str? && v.text in choices then Some(v.text) else None
  }

  // ---- Objects with given keys ----

  function KeySet(keys: seq<Text>): set<Text> { set k | k in keys }

  // An object with every required key and no key that is not allowed.
  predicate HasShape(v: Json, required: seq<Text>, allowed: seq<Text>) {
    v.Obj? && KeySet(required) <= Keys(v.members) <= KeySet(allowed)
  }

  function Field(v: Json, key: Text, missing: Json): Json
    requires v.Obj?
  {
    if key in Keys(v.members) then Lookup(v.members, key) else missing
  }

  datatype Proportions = Proportions(head: Number, body: Number, limb: Number)

  datatype Base = Base(preset: Text, width: Number, depth: Number, height: Number)

  datatype Spec = Spec(name: Text, slug: Text, style: Text, height: Number, pose: Text, palette: seq<Text>,
                       proportions: Proportions, material: Text, eyes: Text, components: seq<Text>, base: Base)

  const STYLES := [T("geometric"), T("low_poly"), T("chibi")]
  const POSES := [T("standing"), T("wave"), T("heroic")]
  const MATERIALS := [T("matte"), T("satin"), T("glossy")]
  const EYES := [T("round"), T("visor"), T("sleepy")]
  const COMPONENTS := [T("antenna-pair"), T("backpack"), T("chest-badge"), T("long-horns"), T("pointed-ears"),
                       T("round-ears"), T("short-horns"), T("stub-tail"), T("swept-tail")]
  const BASES := [T("none"), T("round"), T("square"), T("hexagonal")]
  const SPEC_VERSION := T("character/v1")

  // ---- Proportions and base ----

  const PROPORTION_KEYS := [T("body_scale"), T("head_scale"), T("limb_scale")]
  const PROPORTIONS_REQUIRED := [T("head_scale"), T("limb_scale")]

  function ProportionsFrom(v: Json): Option<Proportions> {
    if !HasShape(v, PROPORTIONS_REQUIRED, PROPORTION_KEYS) then None
    else
      var head := NumberIn(Field(v, PROPORTION_KEYS[1], Null), 7, 16);
      var body := NumberIn(Field(v, PROPORTION_KEYS[0], Num(Dec(false, 1, 0))), 7, 14);
      var limb := NumberIn(Field(v, PROPORTION_KEYS[2], Null), 7, 13);
      if head.None? || body.None? || limb.None? then None else Some(Proportions(head.value, body.value, limb.value))
  }

  const BASE_KEYS := [T("depth_mm"), T("height_mm"), T("preset"), T("width_mm")]

  function BaseFrom(v: Json): Option<Base> {
    if !HasShape(v, BASE_KEYS, BASE_KEYS) then None
    else
      var preset := TextIn(Field(v, BASE_KEYS[2], Null), BASES);
      if preset.None? then None
      else
        var none := preset.value == BASES[0];
        var width := NumberIn(Field(v, BASE_KEYS[3], Null), if none then 0 else 200, if none then 0 else 1600);
        var depth := NumberIn(Field(v, BASE_KEYS[0], Null), if none then 0 else 200, if none then 0 else 1600);
        var height := NumberIn(Field(v, BASE_KEYS[1], Null), if none then 0 else 20, if none then 0 else 250);
        if width.None? || depth.None? || height.None? then None
        else Some(Base(preset.value, width.value, depth.value, height.value))
  }

  function DefaultBase(): Base { Base(T("round"), Dec(false, 48, 0), Dec(false, 48, 0), Dec(false, 5, 0)) }

  // ---- Palette and components ----

  function TextList(items: Items): Option<seq<Text>> {
    if items.NoItems? then Some([])
    else if !items.head.Str? then None
    else
      var rest := TextList(items.tail);
      if rest.None? then None else Some([items.head.text] + rest.value)
  }

  predicate NoRepeat(ts: seq<Text>) { forall i, j :: 0 <= i < j < |ts| ==> ts[i] != ts[j] }

  // COLOR_PATTERN: # and six upper-case hexadecimal digits.
  predicate ValidColor(t: Text) {
    |t| == 7 && t[0] == 35 && forall i :: 1 <= i < 7 ==> 48 <= t[i] <= 57 || 65 <= t[i] <= 70
  }

  predicate ValidPalette(ts: seq<Text>) { 1 <= |ts| <= 8 && NoRepeat(ts) && forall t :: t in ts ==> ValidColor(t) }

  predicate ValidComponents(ts: seq<Text>) {
    && |ts| <= 16 && NoRepeat(ts) && (forall t :: t in ts ==> t in COMPONENTS)
    && !(COMPONENTS[7] in ts && COMPONENTS[8] in ts)
  }

  function PaletteFrom(v: Json): Option<seq<Text>> {
    if !v.Arr? then None
    else
      var ts := TextList(v.items);
      if ts.Some? && ValidPalette(ts.value) then ts else None
  }

  function ComponentsFrom(v: Json): Option<seq<Text>> {
    if !v.Arr? then None
    else
      var ts := TextList(v.items);
      if ts.Some? && ValidComponents(ts.value) then Some(SortedKeys(ts.value)) else None
  }

  function Length(items: Items): nat { if items.NoItems? then 0 else 1 + Length(items.tail) }

  lemma {:induction false} TextListAppends(done: seq<Text>, left: Items)
    requires left.Item? && left.head.Str?
    ensures TextList(left).Some? <==> TextList(left.tail).Some?
    ensures TextList(left).Some? ==> done + TextList(left).value == (done + [left.head.text]) + TextList(left.tail).value
  {
  }

  lemma {:induction false} TextListLength(items: Items)
    ensures TextList(items).Some? ==> |TextList(items).value| == Length(items)
  {
    if items.Item? {
      TextListLength(items.tail);
    }
  }

  // The palette loop: each color is checked against those before it.
  method ReadPalette(v: Json) returns (palette: Option<seq<Text>>)
    ensures palette == PaletteFrom(v)
  {
    if !v.Arr? || !(1 <= Length(v.items) <= 8) {
      if v.Arr? {
        TextListLength(v.items);
      }
      return None;
    }
    TextListLength(v.items);
    var colors: seq<Text> := [];
    var left := v.items;
    ghost var all := TextList(v.items);
    while left.Item?
      invariant NoRepeat(colors) && forall t :: t in colors ==> ValidColor(t)
      invariant all.Some? <==> TextList(left).Some?
      invariant all.Some? ==> all.value == colors + TextList(left).value
      decreases left
    {
      if !left.head.Str? {
        return None;
      }
      TextListAppends(colors, left);
      var color := left.head.text;
      assert all.Some? ==> all.value[|colors|] == color;
      if !ValidColor(color) || color in colors {
        assert all.Some? ==> forall i :: 0 <= i < |colors| ==> all.value[i] == colors[i];
        return None;
      }
      colors := colors + [color];
      left := left.tail;
    }
    assert all.Some? && all.value == colors + [] == colors;
    return Some(colors);
  }

  // The components loop, then the two tails, then the sort.
  method ReadComponents(v: Json) returns (components: Option<seq<Text>>)
    ensures components == ComponentsFrom(v)
  {
    if !v.Arr? || Length(v.items) > 16 {
      if v.Arr? {
        TextListLength(v.items);
      }
      return None;
    }
    TextListLength(v.items);
    var found: seq<Text> := [];
    var left := v.items;
    ghost var all := TextList(v.items);
    while left.Item?
      invariant NoRepeat(found) && forall t :: t in found ==> t in COMPONENTS
      invariant all.Some? <==> TextList(left).Some?
      invariant all.Some? ==> all.value == found + TextList(left).value
      decreases left
    {
      if !left.head.Str? {
        return None;
      }
      TextListAppends(found, left);
      var component := left.head.text;
      assert all.Some? ==> all.value[|found|] == component;
      if component !in COMPONENTS || component in found {
        assert all.Some? ==> forall i :: 0 <= i < |found| ==> all.value[i] == found[i];
        return None;
      }
      found := found + [component];
      left := left.tail;
    }
    assert all.Some? && all.value == found + [] == found;
    if COMPONENTS[7] in found && COMPONENTS[8] in found {
      return None;
    }
    return Some(SortedKeys(found));
  }

  // ---- `CharacterSpec.from_mapping` and `to_dict` ----

  const SPEC_KEYS := [T("base"), T("components"), T("eye_preset"), T("height_mm"), T("material_preset"), T("name"),
                      T("palette"), T("pose"), T("proportions"), T("slug"), T("spec_version"), T("style")]
  const SPEC_REQUIRED := [T("spec_version"), T("name"), T("style"), T("height_mm"), T("pose"), T("palette"),
                          T("proportions")]

  function NameFrom(v: Json): Option<Text> { if v.Str? && ValidName(v.text) then Some(v.text) else None }

  function SlugOf(v: Json): Option<Text> { if v.Str? && ValidSlug(v.text) then Some(v.text) else None }

  // The fields of a specification as they are read, each present or refused.
  datatype Reading = Reading(name: Option<Text>, slug: Option<Text>, style: Option<Text>, height: Option<Number>,
                             pose: Option<Text>, palette: Option<seq<Text>>, proportions: Option<Proportions>,
                             material: Option<Text>, eyes: Option<Text>, components: Option<seq<Text>>,
                             base: Option<Base>)

  function SlugField(v: Json, name: Option<Text>): Option<Text>
    requires v.Obj?
  {
    if name.None? then None else SlugOf(Field(v, SPEC_KEYS[9], Str(SlugFrom(name.value))))
  }

  // The base, given or by default.
  function BaseField(v: Json): Option<Base>
    requires v.Obj?
  {
    if SPEC_KEYS[0] in Keys(v.members) then BaseFrom(Field(v, SPEC_KEYS[0], Null)) else Some(DefaultBase())
  }

  function Read(v: Json): Reading
    requires v.Obj?
  {
    var name := NameFrom(Field(v, SPEC_KEYS[5], Null));
    Reading(name, SlugField(v, name), TextIn(Field(v, SPEC_KEYS[11], Null), STYLES),
            NumberIn(Field(v, SPEC_KEYS[3], Null), 250, 2500), TextIn(Field(v, SPEC_KEYS[7], Null), POSES),
            PaletteFrom(Field(v, SPEC_KEYS[6], Null)), ProportionsFrom(Field(v, SPEC_KEYS[8], Null)),
            TextIn(Field(v, SPEC_KEYS[4], Str(MATERIALS[0])), MATERIALS), TextIn(Field(v, SPEC_KEYS[2], Str(EYES[0])), EYES),
            ComponentsFrom(Field(v, SPEC_KEYS[1], Arr(NoItems))), BaseField(v))
  }

  function Assembled(r: Reading): Option<Spec> {
    if r.name.Some? && r.slug.Some? && r.style.Some? && r.height.Some? && r.pose.Some? && r.palette.Some?
       && r.proportions.Some? && r.material.Some? && r.eyes.Some? && r.components.Some? && r.base.Some?
    then
      Some(Spec(r.name.value, r.slug.value, r.style.value, r.height.value, r.pose.value, r.palette.value,
                r.proportions.value, r.material.value, r.eyes.value, r.components.value, r.base.value))
    else None
  }

  function SpecFrom(v: Json): Option<Spec> {
    if !HasShape(v, SPEC_REQUIRED, SPEC_KEYS) || Field(v, SPEC_KEYS[10], Null) != Str(SPEC_VERSION) then None
    else Assembled(Read(v))
  }

  // An object from its keys and values.
  function Object(keys: seq<Text>, values: seq<Json>): Members
    requires |keys| == |values|
  {
    if keys == [] then NoMembers else Member(keys[0], values[0], Object(keys[1..], values[1..]))
  }

  function TextItems(ts: seq<Text>): Items {
    if ts == [] then NoItems else Item(Str(ts[0]), TextItems(ts[1..]))
  }

  function ProportionsValues(p: Proportions): seq<Json> { [Num(p.body), Num(p.head), Num(p.limb)] }

  function BaseValues(b: Base): seq<Json> { [Num(b.depth), Num(b.height), Str(b.preset), Num(b.width)] }

  function ProportionsDict(p: Proportions): Json { Obj(Object(PROPORTION_KEYS, ProportionsValues(p))) }

  function BaseDict(b: Base): Json { Obj(Object(BASE_KEYS, BaseValues(b))) }

  function SpecValues(s: Spec): (vs: seq<Json>)
    ensures |vs| == |SPEC_KEYS|
  {
    [BaseDict(s.base), Arr(TextItems(s.components)), Str(s.eyes), Num(s.height), Str(s.material), Str(s.name),
     Arr(TextItems(s.palette)), Str(s.pose), ProportionsDict(s.proportions), Str(s.slug), Str(SPEC_VERSION), Str(s.style)]
  }

  function SpecDict(s: Spec): Json { Obj(Object(SPEC_KEYS, SpecValues(s))) }

  // ---- `BuildRequest` ----

  const REQUEST_KEYS := [T("generator"), T("output_profile"), T("quality_profile"), T("render_profile"),
                         T("request_version"), T("spec")]
  const GENERATOR := T("geometric-character@1.0.0")
  const OUTPUT_PROFILE := T("complete-v1")
  const QUALITY_PROFILE := T("geometry-v1")
  const RENDER_PROFILE := T("diagnostic-v1")
  const REQUEST_VERSION := T("build/v1")

  function RequestFrom(v: Json): Option<Spec> {
    if !HasShape(v, REQUEST_KEYS, REQUEST_KEYS) then None
    else if Field(v, REQUEST_KEYS[0], Null) != Str(GENERATOR) || Field(v, REQUEST_KEYS[1], Null) != Str(OUTPUT_PROFILE)
            || Field(v, REQUEST_KEYS[2], Null) != Str(QUALITY_PROFILE)
            || Field(v, REQUEST_KEYS[3], Null) != Str(RENDER_PROFILE)
            || Field(v, REQUEST_KEYS[4], Null) != Str(REQUEST_VERSION) then None
    else SpecFrom(Field(v, REQUEST_KEYS[5], Null))
  }

  function RequestValues(s: Spec): (vs: seq<Json>)
    ensures |vs| == |REQUEST_KEYS|
  {
    [Str(GENERATOR), Str(OUTPUT_PROFILE), Str(QUALITY_PROFILE), Str(RENDER_PROFILE), Str(REQUEST_VERSION), SpecDict(s)]
  }

  function RequestDict(s: Spec): Json { Obj(Object(REQUEST_KEYS, RequestValues(s))) }
}
