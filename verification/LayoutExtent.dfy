// A character stands on the ground and is exactly as high as requested, with the base it was requested with
// (blender/generators/geometric_character_v1/builder.py:101-629).
module LayoutExtent {
  import opened Options
  import opened Vectors
  import opened Layout

  function Bottom(p: Primitive): real {
    match p
    case Solid(center, _, _, z) => center.z - z * 0.5
    case Disc(center, radius, _) => center.z - radius
    case Rod(start, end, _) => Min(start.z, end.z)
    case Frustum(start, end, _, _) => Min(start.z, end.z)
  }

  // Of rods and frustums, the highest point of the axis.
  function Top(p: Primitive): real {
    match p
    case Solid(center, _, _, z) => center.z + z * 0.5
    case Disc(center, radius, _) => center.z + radius
    case Rod(start, end, _) => Max(start.z, end.z)
    case Frustum(start, end, _, _) => Max(start.z, end.z)
  }

  predicate Between(ps: seq<Part>, height: real) {
    forall p :: p in ps ==> 0.0 <= Bottom(p.shape) && Top(p.shape) <= height
  }

  // What the proportions of a plan have to do with each other.
  predicate Proportioned(l: Plan) {
    && Sound(l) && (l.baseH == 0.0 || l.baseH >= 2.0)
    && l.limbRadius * 1.125 <= l.footH && l.limbRadius * 1.125 <= l.headH * 0.5
    && l.headW <= 3.0 * l.headH && l.bodyW <= 3.0 * l.headH
  }

  // x times a, at a scale of at most b.
  lemma ScaledBelow(x: real, scale: real, b: real)
    requires x >= 0.0 && scale <= b
    ensures x * scale <= x * b
  {
    ProductSign(x, b - scale);
    assert x * (b - scale) == x * b - x * scale;
  }

  lemma LimbFits(s: Spec, h: real)
    requires Validated(s) && h >= 18.0
    ensures LimbRadius(s, h) * 1.125 <= FootHeight(h) && LimbRadius(s, h) * 1.125 <= h * 0.125
  {
    var x := h * 0.043;
    ScaledBelow(x, s.limbScale, 1.3);
    BoundedLimb(h, x * s.limbScale);
  }

  lemma BoundedLimb(h: real, x: real)
    requires h >= 18.0 && x <= h * 0.043 * 1.3
    ensures Bounded(x, FEATURE * 0.5, 5.4) * 1.125 <= FootHeight(h)
    ensures Bounded(x, FEATURE * 0.5, 5.4) * 1.125 <= h * 0.125
  {
  }

  lemma HeadFits(s: Spec, h: real, footprintW: real)
    requires Validated(s) && h >= 18.0
    ensures HeadWidth(s, h, footprintW) <= h * 0.75
  {
    var ratio := match s.style case Geometric => 0.35 case LowPoly => 0.37 case Chibi => 0.40;
    var x := h * ratio;
    ProductSign(h, ratio);
    ScaledBelow(h, ratio, 0.40);
    HeadBelow(x, s.headScale, h * 0.40, x * s.headScale);
    BoundedHead(h, x * s.headScale, footprintW * 0.88);
  }

  lemma HeadBelow(x: real, scale: real, limit: real, y: real)
    requires 0.0 <= x <= limit && scale <= 1.6 && y == x * scale
    ensures y <= limit * 1.6
  {
    ScaledBelow(x, scale, 1.6);
  }

  lemma BoundedHead(h: real, x: real, limit: real)
    requires h >= 18.0 && x <= h * 0.40 * 1.6
    ensures Max(12.0, Min(limit, x)) <= h * 0.75
  {
  }

  lemma BodyWidthFits(s: Spec, h: real, footprintW: real)
    requires Validated(s) && h >= 18.0
    ensures BodyWidth(s, h, footprintW) <= h * 0.75
  {
    ScaledBelow(h * 0.27, s.bodyScale, 1.4);
  }

  lemma PlanSizes(s: Spec) returns (footprintW: real)
    requires MakePlan(s).Some?
    ensures var l := MakePlan(s).value; var h := l.characterH;
            && l.limbRadius == LimbRadius(s, h) && l.footH == FootHeight(h) && l.baseH == s.baseHeight
            && l.headH == HeadHeight(s, h) && l.headW == HeadWidth(s, h, footprintW) && l.bodyW == BodyWidth(s, h, footprintW)
  {
    var l := MakePlan(s).value;
    footprintW := Max(18.0, l.baseW - 2.0 * l.penetration);
  }

  lemma PlanIsProportioned(s: Spec)
    requires Validated(s) && MakePlan(s).Some?
    ensures Proportioned(MakePlan(s).value)
  {
    PlanIsSound(s);
    var l := MakePlan(s).value;
    var footprintW := PlanSizes(s);
    SizesFit(s, l, footprintW);
  }

  lemma SizesFit(s: Spec, l: Plan, footprintW: real)
    requires Validated(s) && Sound(l) && l.baseH == s.baseHeight
    requires l.limbRadius == LimbRadius(s, l.characterH) && l.footH == FootHeight(l.characterH)
    requires l.headH == HeadHeight(s, l.characterH) && l.headW == HeadWidth(s, l.characterH, footprintW)
    requires l.bodyW == BodyWidth(s, l.characterH, footprintW)
    ensures Proportioned(l)
  {
    LimbFits(s, l.characterH);
    HeadFits(s, l.characterH, footprintW);
    BodyWidthFits(s, l.characterH, footprintW);
    assert l.headH >= l.characterH * 0.25;
  }

  lemma LegsBetween(l: Plan, sign: real)
    requires Proportioned(l)
    ensures Between(FootAndLeg(l, sign), l.targetH)
    ensures l.baseH == 0.0 ==> Bottom(FootAndLeg(l, sign)[0].shape) == 0.0
  {
  }

  lemma ArmsBetween(l: Plan, pose: Pose, sign: real)
    requires Proportioned(l)
    ensures Between(Arm(l, pose, sign), l.targetH)
  {
  }

  lemma FaceBetween(l: Plan, eyes: Eyes)
    requires Proportioned(l)
    ensures Between(Face(l, eyes), l.targetH)
  {
  }

  lemma BadgeBetween(l: Plan)
    requires Proportioned(l)
    ensures Between([Badge(l)], l.targetH)
  {
  }

  lemma TailBetween(l: Plan, swept: bool)
    requires Proportioned(l)
    ensures Between(Tail(l, swept), l.targetH)
  {
  }

  lemma AntennaBetween(l: Plan, sign: real)
    requires Proportioned(l) && l.topReserve >= 7.0
    ensures Between(Antenna(l, sign), l.targetH) && Top(Antenna(l, sign)[1].shape) == l.targetH
  {
  }

  lemma RoundEarBetween(l: Plan, sign: real)
    requires Proportioned(l) && l.topReserve >= 7.0
    ensures Between([RoundEar(l, sign)], l.targetH) && Top(RoundEar(l, sign).shape) == l.targetH
  {
  }

  lemma UprightBetween(l: Plan, c: Component, sign: real)
    requires Proportioned(l)
    ensures Between(Upright(l, c, sign), l.targetH) && Top(Upright(l, c, sign)[0].shape) == l.targetH
  {
  }

  // What stands on the head; its last part reaches the requested height.
  lemma PairBetween(l: Plan, c: Component)
    requires Proportioned(l) && l.topReserve >= 7.0 && OnTop(c)
    ensures Between(ComponentParts(l, c), l.targetH)
    ensures Top(ComponentParts(l, c)[|ComponentParts(l, c)| - 1].shape) == l.targetH
  {
    match c
    case AntennaPair =>
      AntennaBetween(l, -1.0);
      AntennaBetween(l, 1.0);
    case RoundEars =>
      RoundEarBetween(l, -1.0);
      RoundEarBetween(l, 1.0);
      assert ComponentParts(l, c) == [RoundEar(l, -1.0)] + [RoundEar(l, 1.0)];
    case _ =>
      UprightBetween(l, c, -1.0);
      UprightBetween(l, c, 1.0);
  }

  lemma ComponentBetween(l: Plan, c: Component)
    requires Proportioned(l) && (OnTop(c) ==> l.topReserve >= 7.0)
    ensures Between(ComponentParts(l, c), l.targetH)
  {
    match c
    case Backpack =>
    case ChestBadge => BadgeBetween(l);
    case StubTail => TailBetween(l, false);
    case SweptTail => TailBetween(l, true);
    case _ => PairBetween(l, c);
  }

  lemma {:induction false} ComponentsBetween(l: Plan, cs: seq<Component>)
    requires Proportioned(l) && (AnyOnTop(cs) ==> l.topReserve >= 7.0)
    ensures Between(AllComponents(l, cs), l.targetH)
  {
    if cs != [] {
      var front, c := cs[..|cs| - 1], cs[|cs| - 1];
      assert c in cs && forall d :: d in front ==> d in cs;
      ComponentsBetween(l, front);
      ComponentBetween(l, c);
    }
  }

  // The base is the one requested, on the ground; without one there is none.
  lemma BaseAsRequested(s: Spec)
    requires Validated(s) && MakePlan(s).Some?
    ensures BasePart(s, MakePlan(s).value)
            == if s.base.NoBase? then []
               else [Part("Display_Base", Solid(Vec(0.0, 0.0, s.baseHeight * 0.5), s.baseWidth, s.baseDepth, s.baseHeight))]
  {
    PlanIsSound(s);
  }

  lemma BodyBetween(s: Spec, l: Plan)
    requires Proportioned(l)
    ensures Between(Body(s, l), l.targetH)
  {
    LegsBetween(l, -1.0);
    LegsBetween(l, 1.0);
    ArmsBetween(l, s.pose, -1.0);
    ArmsBetween(l, s.pose, 1.0);
    FaceBetween(l, s.eyes);
  }

  // Every part is between the ground and the requested height, and both are reached.
  lemma HeightIsExact(s: Spec)
    requires Validated(s) && MakePlan(s).Some?
    ensures var ps := Parts(s, MakePlan(s).value);
            && Between(ps, s.height)
            && (exists p :: p in ps && Bottom(p.shape) == 0.0) && (exists p :: p in ps && Top(p.shape) == s.height)
  {
    var l := MakePlan(s).value;
    PlanIsProportioned(s);
    PlanIsSound(s);
    BodyBetween(s, l);
    ComponentsBetween(l, s.components);
    SomePartAtGround(s, l);
    RoomOnTop(s);
    SomePartAtTop(s, l);
  }

  lemma SomePartAtGround(s: Spec, l: Plan)
    requires Proportioned(l) && Validated(s) && MakePlan(s) == Some(l)
    ensures exists p :: p in Parts(s, l) && Bottom(p.shape) == 0.0
  {
    var p := if s.base.NoBase? then FootAndLeg(l, -1.0)[0] else BasePart(s, l)[0];
    LegsBetween(l, -1.0);
    assert p in Parts(s, l) && Bottom(p.shape) == 0.0;
  }

  lemma RoomOnTop(s: Spec)
    requires MakePlan(s).Some?
    ensures MakePlan(s).value.targetH == s.height
    ensures !AnyOnTop(s.components) ==> MakePlan(s).value.topReserve == 0.0
  {
  }

  lemma SomePartAtTop(s: Spec, l: Plan)
    requires Proportioned(l) && (if AnyOnTop(s.components) then l.topReserve >= 7.0 else l.topReserve == 0.0)
    ensures exists p :: p in Parts(s, l) && Top(p.shape) == l.targetH
  {
    if c :| c in s.components && OnTop(c) {
      PairBetween(l, c);
      var ps := ComponentParts(l, c);
      ComponentIsThere(l, s.components, c, ps[|ps| - 1]);
      assert ps[|ps| - 1] in Parts(s, l);
    } else {
      assert !AnyOnTop(s.components);
      assert Core(l)[1] in Parts(s, l) && Top(Core(l)[1].shape) == l.targetH;
    }
  }

  lemma {:induction false} ComponentIsThere(l: Plan, cs: seq<Component>, c: Component, p: Part)
    requires c in cs && p in ComponentParts(l, c)
    ensures p in AllComponents(l, cs)
  {
    if c != cs[|cs| - 1] {
      ComponentIsThere(l, cs[..|cs| - 1], c, p);
    }
  }
}
