// The layout arithmetic of the character generator and the primitives it asks for
// (blender/generators/geometric_character_v1/builder.py:97-660, blender/core/primitives.py:31-366),
// in exact millimetres, with the names under which the parts enter the scene.
module Layout {
  import opened Options
  import opened Vectors

  datatype Style = Geometric | LowPoly | Chibi

  datatype Pose = Standing | Wave | Heroic

  datatype Eyes = Round | Visor | Sleepy

  datatype Base = NoBase | RoundBase | SquareBase | HexagonalBase

  datatype Component =
    AntennaPair | Backpack | ChestBadge | LongHorns | PointedEars | RoundEars | ShortHorns | StubTail | SweptTail

  datatype Spec = Spec(style: Style, pose: Pose, eyes: Eyes, components: seq<Component>, height: real,
                       base: Base, baseWidth: real, baseDepth: real, baseHeight: real,
                       headScale: real, bodyScale: real, limbScale: real)

  predicate NoRepeat(cs: seq<Component>) { forall i, j :: 0 <= i < j < |cs| ==> cs[i] != cs[j] }

  predicate BothTails(cs: seq<Component>) { StubTail in cs && SweptTail in cs }

  // The ranges a validated request is in (shared/character_spec.py:90-135, 235-256).
  predicate Validated(s: Spec) {
    && NoRepeat(s.components)
    && 25.0 <= s.height <= 250.0 && 0.7 <= s.headScale <= 1.6 && 0.7 <= s.bodyScale <= 1.4 && 0.7 <= s.limbScale <= 1.3
    && if s.base.NoBase? then s.baseWidth == 0.0 && s.baseDepth == 0.0 && s.baseHeight == 0.0
       else 20.0 <= s.baseWidth <= 160.0 && 20.0 <= s.baseDepth <= 160.0 && 2.0 <= s.baseHeight <= 25.0
  }

  datatype Plan = Plan(targetH: real, baseH: real, baseW: real, baseD: real, characterH: real, penetration: real,
                       topReserve: real, headTop: real, headH: real, headW: real, headD: real, headCenterZ: real,
                       bodyH: real, bodyW: real, bodyD: real, bodyCenterZ: real, footH: real, limbRadius: real)

  const FEATURE := 3.0  // DESIGNED_MINIMUM_FEATURE_MM

  function Max(a: real, b: real): real { if a < b then b else a }

  function Min(a: real, b: real): real { if b < a then b else a }

  // `_bounded`
  function Bounded(value: real, minimum: real, maximum: real): (r: real)
    ensures minimum <= r && (minimum <= maximum ==> r <= maximum)
    ensures minimum <= value <= maximum ==> r == value
  {
    Max(minimum, Min(maximum, value))
  }

  predicate OnTop(c: Component) { c.AntennaPair? || c.LongHorns? || c.PointedEars? || c.RoundEars? || c.ShortHorns? }

  predicate AnyOnTop(cs: seq<Component>) { exists c :: c in cs && OnTop(c) }

  function Voxel(s: Spec): (v: real)
    ensures 0.26 <= v <= 0.48
  {
    Bounded(s.height / 300.0, 0.26, 0.48)
  }

  function HeadHeight(s: Spec, characterH: real): real {
    var ratio := match s.style case Geometric => 0.30 case LowPoly => 0.32 case Chibi => 0.36;
    Bounded(characterH * ratio * s.headScale, characterH * 0.25, characterH * 0.47)
  }

  function HeadWidth(s: Spec, characterH: real, footprintW: real): real {
    var ratio := match s.style case Geometric => 0.35 case LowPoly => 0.37 case Chibi => 0.40;
    Max(12.0, Min(footprintW * 0.88, characterH * ratio * s.headScale))
  }

  function BodyHeight(s: Spec, characterH: real): real {
    var ratio := match s.style case Geometric => 0.30 case LowPoly => 0.31 case Chibi => 0.28;
    Bounded(characterH * ratio * s.bodyScale, characterH * 0.20, characterH * 0.36)
  }

  function BodyWidth(s: Spec, characterH: real, footprintW: real): real {
    Max(10.0, Min(footprintW * 0.58, characterH * 0.27 * s.bodyScale))
  }

  function FootHeight(characterH: real): real { Bounded(characterH * 0.065, 4.0, 7.5) }

  function LimbRadius(s: Spec, characterH: real): real {
    Bounded(characterH * 0.043 * s.limbScale, FEATURE * 0.5, 5.4)
  }

  // `_layout`; None when it raises.
  function MakePlan(s: Spec): Option<Plan> {
    var targetH, baseH := s.height, s.baseHeight;
    var baseW := if s.base.NoBase? then Min(64.0, targetH * 0.68) else s.baseWidth;
    var baseD := if s.base.NoBase? then Min(58.0, targetH * 0.62) else s.baseDepth;
    var characterH := targetH - baseH;
    var penetration := Max(1.0, Voxel(s) * 3.0);
    var topReserve := if AnyOnTop(s.components) then Bounded(characterH * 0.115, 7.0, 16.0) else 0.0;
    var headTop := targetH - topReserve;
    var headH := HeadHeight(s, characterH);
    var footprintW, footprintD := Max(18.0, baseW - 2.0 * penetration), Max(16.0, baseD - 2.0 * penetration);
    var headW := HeadWidth(s, characterH, footprintW);
    var headD := Max(10.0, Min(footprintD * 0.86, headW * (if s.style.Geometric? then 0.74 else 0.82)));
    var headCenterZ := headTop - headH * 0.5;
    var bodyH := BodyHeight(s, characterH);
    var bodyW := BodyWidth(s, characterH, footprintW);
    var bodyD := Max(9.0, Min(footprintD * 0.55, bodyW * 0.78));
    var bodyTop := headCenterZ - headH * 0.5 + penetration;
    var bodyCenterZ := bodyTop - bodyH * 0.5;
    var footH, limbRadius := FootHeight(characterH), LimbRadius(s, characterH);
    if BothTails(s.components) || characterH < 18.0
       || bodyCenterZ - bodyH * 0.5 <= baseH + footH then None
    else
      Some(Plan(targetH, baseH, baseW, baseD, characterH, penetration, topReserve, headTop, headH, headW, headD,
                headCenterZ, bodyH, bodyW, bodyD, bodyCenterZ, footH, limbRadius))
  }

  // ---- What the primitives accept ----

  datatype Primitive =
    | Solid(center: Vec, x: real, y: real, z: real)             // ellipsoids, boxes, fitted cylinders
    | Disc(center: Vec, radius: real, depth: real)              // cylinder, its axis along y
    | Rod(start: Vec, end: Vec, radius: real)                   // cylinder_between
    | Frustum(start: Vec, end: Vec, radius: real, tip: real)    // cone_between

  // Positive sizes and radii, and a positive distance between distinct ends.
  predicate Accepted(p: Primitive) {
    match p
    case Solid(_, x, y, z) => x > 0.0 && y > 0.0 && z > 0.0
    case Disc(_, radius, depth) => radius > 0.0 && depth > 0.0
    case Rod(start, end, radius) => radius > 0.0 && Square(Sub(end, start)) > 0.0
    case Frustum(start, end, radius, tip) => radius > 0.0 && tip > 0.0 && Square(Sub(end, start)) > 0.0
  }

  // A primitive under the name of its object.
  datatype Part = Part(name: string, shape: Primitive)

  predicate AllAccepted(ps: seq<Part>) { forall p :: p in ps ==> Accepted(p.shape) }

  // `_finish_object` refuses a name that is in the scene already.
  predicate NewName(ps: seq<Part>, i: nat)
    requires i < |ps|
  {
    forall j :: 0 <= j < i ==> ps[j].name != ps[i].name
  }

  predicate Unique(ps: seq<Part>) { forall i :: 0 <= i < |ps| ==> NewName(ps, i) }

  // The parts, in this order, pass every check in a scene that was empty.
  predicate AcceptedInTurn(ps: seq<Part>) { AllAccepted(ps) && Unique(ps) }

  function Letter(sign: real): string { if sign < 0.0 then "L" else "R" }

  // ---- The composer, one side at a time ----

  function BasePart(s: Spec, l: Plan): seq<Part> {
    if s.base.NoBase? then []
    else [Part("Display_Base", Solid(Vec(0.0, 0.0, l.baseH * 0.5), l.baseW, l.baseD, l.baseH))]
  }

  function FootAndLeg(l: Plan, sign: real): seq<Part> {
    var footW, footD := Max(5.0, l.limbRadius * 2.25), Max(6.0, l.limbRadius * 2.55);
    var footBottom := if l.baseH > 0.0 then l.baseH - l.penetration else 0.0;
    var footCenterZ := footBottom + l.footH * 0.5;
    var x := sign * Min(l.bodyW * 0.24, l.baseW * 0.25);
    var bodyBottom := l.bodyCenterZ - l.bodyH * 0.5;
    [Part("Display_Foot_" + Letter(sign), Solid(Vec(x, -footD * 0.08, footCenterZ), footW, footD, l.footH)),
     Part("Display_Leg_" + Letter(sign), Rod(Vec(x, 0.0, footCenterZ + l.footH * 0.30),
                                             Vec(x, 0.0, bodyBottom + l.penetration), l.limbRadius))]
  }

  function Core(l: Plan): seq<Part> {
    [Part("Display_Body", Solid(Vec(0.0, 0.0, l.bodyCenterZ), l.bodyW, l.bodyD, l.bodyH)),
     Part("Display_Head", Solid(Vec(0.0, 0.0, l.headCenterZ), l.headW, l.headD, l.headH))]
  }

  function Hand(l: Plan, sign: real, center: Vec): Part {
    var d := Max(FEATURE, l.limbRadius * 2.25);
    Part("Display_Hand_" + Letter(sign), Solid(center, d, d, d))
  }

  function BentArm(l: Plan, sign: real, shoulder: Vec, elbow: Vec, hand: Vec): seq<Part> {
    [Part("Display_Arm_" + Letter(sign) + "_Upper", Rod(shoulder, elbow, l.limbRadius)),
     Part("Display_Arm_" + Letter(sign) + "_Lower", Rod(elbow, hand, l.limbRadius)), Hand(l, sign, hand)]
  }

  function Arm(l: Plan, pose: Pose, sign: real): seq<Part> {
    var shoulderZ, shoulderX := l.bodyCenterZ + l.bodyH * 0.26, l.bodyW * 0.46;
    var lowerZ := l.bodyCenterZ - l.bodyH * 0.24;
    var maxX := l.baseW * 0.5 - l.limbRadius * 1.25;
    var shoulder := Vec(sign * shoulderX, 0.0, shoulderZ);
    if pose.Wave? && sign > 0.0 then
      var elbow := Vec(sign * Min(maxX * 0.80, shoulderX + l.limbRadius * 2.3), 0.0, shoulderZ + l.bodyH * 0.18);
      var hand := Vec(sign * Min(maxX, shoulderX + l.limbRadius * 2.0), 0.0,
                      Min(l.headCenterZ, shoulderZ + l.bodyH * 0.62));
      BentArm(l, sign, shoulder, elbow, hand)
    else if pose.Heroic? then
      var elbow := Vec(sign * Min(maxX, shoulderX + l.limbRadius * 2.2), 0.0, l.bodyCenterZ);
      var hand := Vec(sign * l.bodyW * 0.42, -l.bodyD * 0.15, lowerZ);
      BentArm(l, sign, shoulder, elbow, hand)
    else
      var hand := Vec(sign * Min(maxX, shoulderX + l.limbRadius * 0.55), 0.0, lowerZ);
      [Part("Display_Arm_" + Letter(sign), Rod(shoulder, hand, l.limbRadius)), Hand(l, sign, hand)]
  }

  function Face(l: Plan, eyes: Eyes): seq<Part> {
    var depth := Max(FEATURE, l.headD * 0.09);
    var eyeW := Bounded(l.headW * 0.14, 3.2, 7.5);
    var y, z, gap := -l.headD * 0.5 - depth * 0.20, l.headCenterZ + l.headH * 0.05, l.headW * 0.20;
    match eyes
    case Visor =>
      [Part("Display_Eyes_Visor", Solid(Vec(0.0, y, z), l.headW * 0.52, depth, Max(3.0, eyeW * 0.70)))]
    case Sleepy => [Part("Display_Eye_L_Sleepy", Solid(Vec(-gap, y, z), eyeW * 1.35, depth, 3.0)),
                    Part("Display_Eye_R_Sleepy", Solid(Vec(gap, y, z), eyeW * 1.35, depth, 3.0))]
    case Round => [Part("Display_Eye_L_Round", Solid(Vec(-gap, y, z), eyeW, depth, eyeW)),
                   Part("Display_Eye_R_Round", Solid(Vec(gap, y, z), eyeW, depth, eyeW))]
  }

  function AttachmentZ(l: Plan): real { l.headTop - Max(l.penetration, l.headH * 0.20) }

  function Antenna(l: Plan, sign: real): seq<Part> {
    var ballD := Max(3.2, l.topReserve * 0.30);
    var topBallZ := l.targetH - ballD * 0.5;
    var x := sign * l.headW * 0.23;
    [Part("Display_Antenna_" + Letter(sign), Rod(Vec(x, 0.0, AttachmentZ(l)), Vec(x, 0.0, topBallZ), FEATURE * 0.5)),
     Part("Display_AntennaTip_" + Letter(sign), Solid(Vec(x, 0.0, topBallZ), ballD, ballD, ballD))]
  }

  function Upright(l: Plan, c: Component, sign: real): seq<Part> {
    var spread := if c.PointedEars? then 0.28 else if c.LongHorns? then 0.24 else 0.25;
    var radius := if c.PointedEars? then Max(3.2, l.headW * 0.085)
                  else if c.LongHorns? then Max(2.5, l.headW * 0.065) else Max(2.3, l.headW * 0.06);
    var kind := if c.PointedEars? then "PointedEar" else if c.LongHorns? then "LongHorn" else "ShortHorn";
    var x := sign * l.headW * spread;
    [Part("Display_" + kind + "_" + Letter(sign),
          Frustum(Vec(x, 0.0, AttachmentZ(l)), Vec(x, 0.0, l.targetH), radius, 1.5))]
  }

  function RoundEar(l: Plan, sign: real): Part {
    var attachment := Max(l.penetration, l.headH * 0.20);
    var width := Max(4.0, Min(l.headW * 0.18, l.baseW * 0.13));
    var x := Min(l.headW * 0.43, l.baseW * 0.5 - width * 0.5);
    Part("Display_RoundEar_" + Letter(sign),
         Solid(Vec(sign * x, 0.0, (l.targetH + l.headTop - attachment) * 0.5), width, l.headD * 0.34,
               l.topReserve + attachment))
  }

  function Tail(l: Plan, swept: bool): seq<Part> {
    var radius := Max(1.5, l.limbRadius * 0.62);
    var tipD := Max(FEATURE, radius * 2.2);
    var start := Vec(0.0, l.bodyD * 0.38, l.bodyCenterZ - l.bodyH * 0.14);
    if swept then
      var mid := Vec(l.bodyW * 0.24, Min(l.baseD * 0.32, l.bodyD * 0.92), l.bodyCenterZ - l.bodyH * 0.02);
      var end := Vec(l.bodyW * 0.38, Min(l.baseD * 0.40, l.bodyD * 1.18), l.bodyCenterZ + l.bodyH * 0.14);
      [Part("Display_Tail_Swept_A", Rod(start, mid, radius)), Part("Display_Tail_Swept_B", Rod(mid, end, radius)),
       Part("Display_Tail_Tip", Solid(end, tipD, tipD, tipD))]
    else
      var end := Vec(0.0, Min(l.baseD * 0.40, l.bodyD * 0.92), l.bodyCenterZ - l.bodyH * 0.06);
      [Part("Display_Tail_Stub", Rod(start, end, radius)), Part("Display_Tail_Tip", Solid(end, tipD, tipD, tipD))]
  }

  function BackpackPart(l: Plan): Part {
    var depth := Max(4.0, l.bodyD * 0.42);
    Part("Display_Backpack",
         Solid(Vec(0.0, l.bodyD * 0.5 + depth * 0.18, l.bodyCenterZ + l.bodyH * 0.02),
               Min(l.bodyW * 0.78, l.baseW * 0.42), depth, l.bodyH * 0.68))
  }

  function Badge(l: Plan): Part {
    Part("Display_ChestBadge", Disc(Vec(0.0, -l.bodyD * 0.5 - FEATURE * 0.20, l.bodyCenterZ + l.bodyH * 0.08),
                                    Bounded(l.bodyW * 0.13, 2.4, 5.0), FEATURE))
  }

  function ComponentParts(l: Plan, c: Component): seq<Part> {
    match c
    case AntennaPair => Antenna(l, -1.0) + Antenna(l, 1.0)
    case Backpack => [BackpackPart(l)]
    case ChestBadge => [Badge(l)]
    case RoundEars => [RoundEar(l, -1.0), RoundEar(l, 1.0)]
    case StubTail => Tail(l, false)
    case SweptTail => Tail(l, true)
    case _ => Upright(l, c, -1.0) + Upright(l, c, 1.0)
  }

  function AllComponents(l: Plan, cs: seq<Component>): seq<Part> {
    if cs == [] then [] else AllComponents(l, cs[..|cs| - 1]) + ComponentParts(l, cs[|cs| - 1])
  }

  // Everything but the components.
  function Body(s: Spec, l: Plan): seq<Part> {
    BasePart(s, l) + (FootAndLeg(l, -1.0) + FootAndLeg(l, 1.0)) + Core(l)
    + (Arm(l, s.pose, -1.0) + Arm(l, s.pose, 1.0)) + Face(l, s.eyes)
  }

  // Everything that `generate` asks the primitives for, in its order.
  function Parts(s: Spec, l: Plan): seq<Part> { Body(s, l) + AllComponents(l, s.components) }

  const SIDES := [-1.0, 1.0]

  // The composer functions that loop over the two sides or the components.
  method FeetAndLegs(l: Plan) returns (objects: seq<Part>)
    ensures objects == FootAndLeg(l, -1.0) + FootAndLeg(l, 1.0)
  {
    objects := [];
    for i := 0 to |SIDES|
      invariant objects == if i == 0 then [] else if i == 1 then FootAndLeg(l, -1.0)
                           else FootAndLeg(l, -1.0) + FootAndLeg(l, 1.0)
    {
      objects := objects + FootAndLeg(l, SIDES[i]);
    }
  }

  method Arms(l: Plan, pose: Pose) returns (objects: seq<Part>)
    ensures objects == Arm(l, pose, -1.0) + Arm(l, pose, 1.0)
  {
    objects := [];
    for i := 0 to |SIDES|
      invariant objects == if i == 0 then [] else if i == 1 then Arm(l, pose, -1.0)
                           else Arm(l, pose, -1.0) + Arm(l, pose, 1.0)
    {
      objects := objects + Arm(l, pose, SIDES[i]);
    }
  }

  method Components(l: Plan, cs: seq<Component>) returns (objects: seq<Part>)
    ensures objects == AllComponents(l, cs)
  {
    objects := [];
    for i := 0 to |cs|
      invariant objects == AllComponents(l, cs[..i])
    {
      assert cs[..i + 1][..i] == cs[..i];
      objects := objects + ComponentParts(l, cs[i]);
    }
    assert cs[..|cs|] == cs;
  }

  // `generate`, as far as the primitives: None when the layout refuses.
  method Generate(s: Spec) returns (objects: Option<seq<Part>>)
    requires Validated(s)
    ensures objects.Some? <==> MakePlan(s).Some?
    ensures objects.Some? ==> objects.value == Parts(s, MakePlan(s).value) && AcceptedInTurn(objects.value)
  {
    var plan := MakePlan(s);
    if plan.None? {
      return None;
    }
    var l := plan.value;
    var legs := FeetAndLegs(l);
    var arms := Arms(l, s.pose);
    var components := Components(l, s.components);
    NoPrimitiveRejects(s);
    return Some(BasePart(s, l) + legs + Core(l) + arms + Face(l, s.eyes) + components);
  }

  // ---- What a plan guarantees ----

  // Bounds on a plan from which every part follows.
  predicate Sound(l: Plan) {
    && 1.0 <= l.penetration <= 1.44 && l.characterH >= 18.0 && l.baseH >= 0.0
    && l.headH >= 4.5 && l.headW >= 12.0 && l.headD >= 10.0 && l.bodyH >= 3.6 && l.bodyW >= 10.0 && l.bodyD >= 9.0
    && 4.0 <= l.footH <= 7.5 && 1.5 <= l.limbRadius <= 5.4 && l.baseW >= 17.0 && l.baseD >= 15.5
    && l.headTop == l.targetH - l.topReserve && l.headCenterZ == l.headTop - l.headH * 0.5
    && (l.topReserve == 0.0 || 7.0 <= l.topReserve <= 16.0)
    // Head and body overlap by exactly the penetration; the body clears base and feet.
    && (l.bodyCenterZ + l.bodyH * 0.5) - (l.headCenterZ - l.headH * 0.5) == l.penetration
    && l.bodyCenterZ - l.bodyH * 0.5 > l.baseH + l.footH
  }

  lemma PlanIsSound(s: Spec)
    requires Validated(s) && MakePlan(s).Some?
    ensures Sound(MakePlan(s).value) && (AnyOnTop(s.components) ==> MakePlan(s).value.topReserve >= 7.0)
    ensures !s.base.NoBase? ==> var l := MakePlan(s).value;
              l.baseW == s.baseWidth && l.baseD == s.baseDepth && l.baseH == s.baseHeight
  {
    var h := s.height - s.baseHeight;
    assert h * 0.25 <= h * 0.47 && h * 0.20 <= h * 0.36;
  }

  lemma ApartInZ(a: Vec, b: Vec, d: Vec)
    requires a.z != b.z && d == Sub(b, a)
    ensures Square(d) > 0.0
  {
    assert d.z != 0.0;
    SquareNonNegative(d);
  }

  lemma LegAccepted(l: Plan, sign: real)
    requires Sound(l)
    ensures AllAccepted(FootAndLeg(l, sign))
  {
    var leg := FootAndLeg(l, sign)[1].shape;
    assert leg.start.z < leg.end.z;
    ApartInZ(leg.start, leg.end, Sub(leg.end, leg.start));
  }

  lemma ArmAccepted(l: Plan, pose: Pose, sign: real)
    requires Sound(l)
    ensures AllAccepted(Arm(l, pose, sign))
  {
    var arm := Arm(l, pose, sign);
    forall i | 0 <= i < |arm| && arm[i].shape.Rod? ensures Accepted(arm[i].shape) {
      var rod := arm[i].shape;
      assert rod.start.z != rod.end.z;
      ApartInZ(rod.start, rod.end, Sub(rod.end, rod.start));
    }
  }

  lemma AntennaAccepted(l: Plan, sign: real)
    requires Sound(l) && l.topReserve >= 7.0
    ensures AllAccepted(Antenna(l, sign))
  {
    var rod := Antenna(l, sign)[0].shape;
    assert rod.start.z < l.headTop < rod.end.z;
    ApartInZ(rod.start, rod.end, Sub(rod.end, rod.start));
  }

  lemma UprightAccepted(l: Plan, c: Component, sign: real)
    requires Sound(l)
    ensures AllAccepted(Upright(l, c, sign))
  {
    var cone := Upright(l, c, sign)[0].shape;
    assert cone.start.z < cone.end.z;
    ApartInZ(cone.start, cone.end, Sub(cone.end, cone.start));
  }

  lemma TailAccepted(l: Plan, swept: bool)
    requires Sound(l)
    ensures AllAccepted(Tail(l, swept))
  {
    var tail := Tail(l, swept);
    forall i | 0 <= i < |tail| && tail[i].shape.Rod? ensures Accepted(tail[i].shape) {
      var rod := tail[i].shape;
      assert rod.start.z < rod.end.z;
      ApartInZ(rod.start, rod.end, Sub(rod.end, rod.start));
    }
  }

  lemma ComponentAccepted(l: Plan, c: Component)
    requires Sound(l) && (OnTop(c) ==> l.topReserve >= 7.0)
    ensures AllAccepted(ComponentParts(l, c))
  {
    match c
    case AntennaPair =>
      AntennaAccepted(l, -1.0);
      AntennaAccepted(l, 1.0);
    case StubTail => TailAccepted(l, false);
    case SweptTail => TailAccepted(l, true);
    case LongHorns =>
      UprightAccepted(l, c, -1.0);
      UprightAccepted(l, c, 1.0);
    case PointedEars =>
      UprightAccepted(l, c, -1.0);
      UprightAccepted(l, c, 1.0);
    case ShortHorns =>
      UprightAccepted(l, c, -1.0);
      UprightAccepted(l, c, 1.0);
    case _ =>
  }

  lemma {:induction false} ComponentsAccepted(l: Plan, cs: seq<Component>)
    requires Sound(l) && (forall c :: c in cs && OnTop(c) ==> l.topReserve >= 7.0)
    ensures AllAccepted(AllComponents(l, cs))
  {
    if cs != [] {
      ComponentsAccepted(l, cs[..|cs| - 1]);
      ComponentAccepted(l, cs[|cs| - 1]);
    }
  }

  lemma BodyAndFaceAccepted(l: Plan, eyes: Eyes)
    requires Sound(l)
    ensures AllAccepted(Core(l)) && AllAccepted(Face(l, eyes))
  {
  }

  // ---- The names ----

  // The three letters after the common prefix tell the parts of the composer apart, except those
  // of one pair, one pose, one eye preset or one tail.
  type Family = (char, char, char)

  function FamilyOfName(name: string): Family { if |name| < 11 then (' ', ' ', ' ') else (name[8], name[9], name[10]) }

  predicate Within(ps: seq<Part>, families: set<Family>) {
    forall i :: 0 <= i < |ps| ==> FamilyOfName(ps[i].name) in families
  }

  lemma UniqueTogether(a: seq<Part>, b: seq<Part>, fa: set<Family>, fb: set<Family>)
    requires Unique(a) && Unique(b) && Within(a, fa) && Within(b, fb) && fa !! fb
    ensures Unique(a + b) && Within(a + b, fa + fb)
  {
    forall i, j | 0 <= j < i < |a + b| ensures (a + b)[j].name != (a + b)[i].name {
      if i < |a| {
        assert NewName(a, i);
      } else if |a| <= j {
        assert NewName(b, i - |a|);
      } else {
        assert FamilyOfName(a[j].name) in fa && FamilyOfName(b[i - |a|].name) in fb;
      }
    }
  }

  const BASE: set<Family> := {('B', 'a', 's')}
  const LEGS: set<Family> := {('F', 'o', 'o'), ('L', 'e', 'g')}
  const CORE: set<Family> := {('B', 'o', 'd'), ('H', 'e', 'a')}
  const ARMS: set<Family> := {('A', 'r', 'm'), ('H', 'a', 'n')}
  const EYES: set<Family> := {('E', 'y', 'e')}

  lemma LegNames(l: Plan)
    ensures Unique(FootAndLeg(l, -1.0) + FootAndLeg(l, 1.0)) && Within(FootAndLeg(l, -1.0) + FootAndLeg(l, 1.0), LEGS)
  {
    var left, right := FootAndLeg(l, -1.0), FootAndLeg(l, 1.0);
    assert left[0].name == "Display_Foot_L" && right[0].name == "Display_Foot_R";
    assert left[1].name == "Display_Leg_L" && right[1].name == "Display_Leg_R";
    assert left[0].name[13] != right[0].name[13] && left[1].name[12] != right[1].name[12];
  }

  lemma CoreNames(l: Plan)
    ensures Unique(Core(l)) && Within(Core(l), CORE)
  {
    assert Core(l)[0].name[8] != Core(l)[1].name[8];
  }

  // Where the name of a part of an arm has its side.
  function SideOfArm(name: string): char {
    if |name| > 12 && name[8] == 'A' then name[12] else if |name| > 13 then name[13] else ' '
  }

  predicate NamedArm(ps: seq<Part>, side: char) {
    Unique(ps) && Within(ps, ARMS) && forall i :: 0 <= i < |ps| ==> SideOfArm(ps[i].name) == side
  }

  lemma BentArmNames(l: Plan, sign: real, shoulder: Vec, elbow: Vec, hand: Vec)
    ensures NamedArm(BentArm(l, sign, shoulder, elbow, hand), Letter(sign)[0])
  {
    var ps := BentArm(l, sign, shoulder, elbow, hand);
    assert ps[0].name[14] != ps[1].name[14] && ps[0].name[8] != ps[2].name[8] && ps[1].name[8] != ps[2].name[8];
  }

  lemma ArmSide(l: Plan, pose: Pose, sign: real)
    ensures NamedArm(Arm(l, pose, sign), Letter(sign)[0])
  {
    var ps := Arm(l, pose, sign);
    if |ps| == 3 {
      BentArmNames(l, sign, ps[0].shape.start, ps[0].shape.end, ps[1].shape.end);
    } else {
      assert |ps[0].name| == 13 && ps[0].name[12] == Letter(sign)[0];
      assert ps[0].name[8] != ps[1].name[8];
    }
  }

  lemma ArmNames(l: Plan, pose: Pose)
    ensures Unique(Arm(l, pose, -1.0) + Arm(l, pose, 1.0)) && Within(Arm(l, pose, -1.0) + Arm(l, pose, 1.0), ARMS)
  {
    var left: seq<Part>, right: seq<Part> := Arm(l, pose, -1.0), Arm(l, pose, 1.0);
    ArmSide(l, pose, -1.0);
    ArmSide(l, pose, 1.0);
    forall i, j | 0 <= j < i < |left + right| ensures (left + right)[j].name != (left + right)[i].name {
      if i < |left| {
        assert NewName(left, i);
      } else if |left| <= j {
        assert NewName(right, i - |left|);
      } else {
        assert SideOfArm(left[j].name) != SideOfArm(right[i - |left|].name);
      }
    }
  }

  lemma FaceNames(l: Plan, eyes: Eyes)
    ensures Unique(Face(l, eyes)) && Within(Face(l, eyes), EYES)
  {
    assert "Display_Eye_L_Sleepy"[12] != "Display_Eye_R_Sleepy"[12];
    assert "Display_Eye_L_Round"[12] != "Display_Eye_R_Round"[12];
  }

  // A component's parts have names of their own; the two tails share theirs.
  function FamilyOf(c: Component): Family {
    match c
    case AntennaPair => ('A', 'n', 't')
    case Backpack => ('B', 'a', 'c')
    case ChestBadge => ('C', 'h', 'e')
    case LongHorns => ('L', 'o', 'n')
    case PointedEars => ('P', 'o', 'i')
    case RoundEars => ('R', 'o', 'u')
    case ShortHorns => ('S', 'h', 'o')
    case StubTail => ('T', 'a', 'i')
    case SweptTail => ('T', 'a', 'i')
  }

  lemma AntennaNames(l: Plan)
    ensures Unique(ComponentParts(l, AntennaPair)) && Within(ComponentParts(l, AntennaPair), {FamilyOf(AntennaPair)})
  {
    var ps := ComponentParts(l, AntennaPair);
    assert |ps[0].name| == |ps[2].name| == 17 && |ps[1].name| == |ps[3].name| == 20;
    assert ps[0].name[16] != ps[2].name[16] && ps[1].name[19] != ps[3].name[19];
  }

  lemma PairNames(l: Plan, c: Component)
    requires OnTop(c) && !c.AntennaPair?
    ensures Unique(ComponentParts(l, c)) && Within(ComponentParts(l, c), {FamilyOf(c)})
  {
    var ps := ComponentParts(l, c);
    match c
    case LongHorns => assert ps[0].name[17] != ps[1].name[17];
    case PointedEars => assert ps[0].name[19] != ps[1].name[19];
    case RoundEars => assert ps[0].name[17] != ps[1].name[17];
    case ShortHorns => assert ps[0].name[18] != ps[1].name[18];
  }

  lemma TailNames(l: Plan, swept: bool)
    ensures Unique(Tail(l, swept)) && Within(Tail(l, swept), {FamilyOf(StubTail)})
    ensures Tail(l, swept)[|Tail(l, swept)| - 1].name == "Display_Tail_Tip"
  {
    assert "Display_Tail_Swept_A"[19] != "Display_Tail_Swept_B"[19];
    assert "Display_Tail_Swept_A"[13] != "Display_Tail_Tip"[13] && "Display_Tail_Swept_B"[13] != "Display_Tail_Tip"[13];
    assert "Display_Tail_Stub"[13] != "Display_Tail_Tip"[13];
  }

  lemma ComponentNames(l: Plan, c: Component)
    ensures Unique(ComponentParts(l, c)) && Within(ComponentParts(l, c), {FamilyOf(c)})
  {
    if c.AntennaPair? {
      AntennaNames(l);
    } else if OnTop(c) {
      PairNames(l, c);
    } else if c.StubTail? || c.SweptTail? {
      TailNames(l, c.SweptTail?);
    }
  }

  function FamiliesOf(cs: seq<Component>): set<Family> { set c | c in cs :: FamilyOf(c) }

  lemma {:induction false} ComponentsUnique(l: Plan, cs: seq<Component>)
    requires NoRepeat(cs) && !BothTails(cs)
    ensures Unique(AllComponents(l, cs)) && Within(AllComponents(l, cs), FamiliesOf(cs))
  {
    if cs != [] {
      var before, c := cs[..|cs| - 1], cs[|cs| - 1];
      ComponentsUnique(l, before);
      ComponentNames(l, c);
      UniqueTogether(AllComponents(l, before), ComponentParts(l, c), FamiliesOf(before), {FamilyOf(c)});
      assert FamiliesOf(before) + {FamilyOf(c)} <= FamiliesOf(cs);
    }
  }

  lemma {:induction false} PartsOfComponent(l: Plan, cs: seq<Component>, c: Component, p: Part)
    requires c in cs && p in ComponentParts(l, c)
    ensures p in AllComponents(l, cs)
  {
    if c in cs[..|cs| - 1] {
      PartsOfComponent(l, cs[..|cs| - 1], c, p);
    }
  }

  // A name that was used before the last component is not used again.
  lemma LastIsNew(l: Plan, cs: seq<Component>, c: Component, p: Part, q: Part)
    requires cs != [] && Unique(AllComponents(l, cs)) && c in cs[..|cs| - 1]
    requires p in ComponentParts(l, c) && q in ComponentParts(l, cs[|cs| - 1])
    ensures p.name != q.name
  {
    var before, last := AllComponents(l, cs[..|cs| - 1]), ComponentParts(l, cs[|cs| - 1]);
    PartsOfComponent(l, cs[..|cs| - 1], c, p);
    var i :| 0 <= i < |before| && before[i] == p;
    var j :| 0 <= j < |last| && last[j] == q;
    assert NewName(before + last, |before| + j);
    assert (before + last)[i] == p && (before + last)[|before| + j] == q;
  }

  lemma UniqueStart(a: seq<Part>, b: seq<Part>)
    requires Unique(a + b)
    ensures Unique(a) && Unique(b)
  {
    forall i, j | 0 <= j < i < |a| ensures a[j].name != a[i].name {
      assert NewName(a + b, i) && (a + b)[j] == a[j];
    }
    forall i, j | 0 <= j < i < |b| ensures b[j].name != b[i].name {
      assert NewName(a + b, |a| + i) && (a + b)[|a| + j] == b[j];
    }
  }

  lemma SecondTailClashes(l: Plan, cs: seq<Component>)
    requires cs != [] && Unique(AllComponents(l, cs)) && !BothTails(cs[..|cs| - 1])
    ensures !BothTails(cs)
  {
    var c := cs[|cs| - 1];
    if BothTails(cs) {
      TailNames(l, false);
      TailNames(l, true);
      var p, q := Tail(l, c.StubTail?), Tail(l, c.SweptTail?);
      LastIsNew(l, cs, if c.StubTail? then SweptTail else StubTail, p[|p| - 1], q[|q| - 1]);
    }
  }

  lemma {:induction false} UniqueComponents(l: Plan, cs: seq<Component>)
    requires Unique(AllComponents(l, cs))
    ensures NoRepeat(cs) && !BothTails(cs)
  {
    if cs != [] {
      var before, c := cs[..|cs| - 1], cs[|cs| - 1];
      UniqueStart(AllComponents(l, before), ComponentParts(l, c));
      UniqueComponents(l, before);
      if c in before {
        LastIsNew(l, cs, c, ComponentParts(l, c)[0], ComponentParts(l, c)[0]);
      }
      SecondTailClashes(l, cs);
    }
  }

  lemma BodyNames(s: Spec, l: Plan)
    ensures Unique(Body(s, l)) && Within(Body(s, l), BASE + LEGS + CORE + ARMS + EYES)
  {
    var base, legs := BasePart(s, l), FootAndLeg(l, -1.0) + FootAndLeg(l, 1.0);
    var core, arms, face := Core(l), Arm(l, s.pose, -1.0) + Arm(l, s.pose, 1.0), Face(l, s.eyes);
    LegNames(l);
    CoreNames(l);
    ArmNames(l, s.pose);
    FaceNames(l, s.eyes);
    UniqueTogether(base, legs, BASE, LEGS);
    UniqueTogether(base + legs, core, BASE + LEGS, CORE);
    UniqueTogether(base + legs + core, arms, BASE + LEGS + CORE, ARMS);
    UniqueTogether(base + legs + core + arms, face, BASE + LEGS + CORE + ARMS, EYES);
  }

  lemma FamiliesApart(cs: seq<Component>)
    ensures BASE + LEGS + CORE + ARMS + EYES !! FamiliesOf(cs)
  {
    forall c | c in cs ensures FamilyOf(c) !in BASE + LEGS + CORE + ARMS + EYES {
    }
  }

  lemma PartsUnique(s: Spec, l: Plan)
    requires NoRepeat(s.components) && !BothTails(s.components)
    ensures Unique(Parts(s, l))
  {
    BodyNames(s, l);
    ComponentsUnique(l, s.components);
    FamiliesApart(s.components);
    UniqueTogether(Body(s, l), AllComponents(l, s.components), BASE + LEGS + CORE + ARMS + EYES,
                   FamiliesOf(s.components));
  }

  // No name is refused if and only if no component is asked for twice and the two tails, which
  // share the name of their tip, are not combined.
  lemma NamesUniqueIff(s: Spec, l: Plan)
    ensures Unique(Parts(s, l)) <==> NoRepeat(s.components) && !BothTails(s.components)
  {
    if Unique(Parts(s, l)) {
      UniqueStart(Body(s, l), AllComponents(l, s.components));
      UniqueComponents(l, s.components);
    }
    if NoRepeat(s.components) && !BothTails(s.components) {
      PartsUnique(s, l);
    }
  }

  lemma ShapesAccepted(s: Spec)
    requires Validated(s) && MakePlan(s).Some?
    ensures AllAccepted(Parts(s, MakePlan(s).value))
  {
    var l := MakePlan(s).value;
    PlanIsSound(s);
    LegAccepted(l, -1.0);
    LegAccepted(l, 1.0);
    ArmAccepted(l, s.pose, -1.0);
    ArmAccepted(l, s.pose, 1.0);
    BodyAndFaceAccepted(l, s.eyes);
    forall c | c in s.components && OnTop(c) ensures l.topReserve >= 7.0 {
      assert AnyOnTop(s.components);
    }
    ComponentsAccepted(l, s.components);
  }

  // After `preflight` accepts a validated request, no primitive refuses a part of it.
  lemma NoPrimitiveRejects(s: Spec)
    requires Validated(s) && MakePlan(s).Some?
    ensures AcceptedInTurn(Parts(s, MakePlan(s).value))
  {
    ShapesAccepted(s);
    NamesUniqueIff(s, MakePlan(s).value);
  }
}
