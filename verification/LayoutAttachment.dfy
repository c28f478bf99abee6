// How the parts of a character hang together (blender/generators/geometric_character_v1/builder.py:178-610):
// every part starts in another, joints are shared, and what stands on top ends at the target height.
module LayoutAttachment {
  import opened Options
  import opened Vectors
  import opened Layout

  // The box around a solid.
  predicate InBox(p: Vec, s: Primitive)
    requires s.Solid?
  {
    && s.center.x - s.x * 0.5 <= p.x <= s.center.x + s.x * 0.5
    && s.center.y - s.y * 0.5 <= p.y <= s.center.y + s.y * 0.5
    && s.center.z - s.z * 0.5 <= p.z <= s.center.z + s.z * 0.5
  }

  // Both boxes hold a point.
  ghost predicate Overlap(a: Primitive, b: Primitive)
    requires a.Solid? && b.Solid?
  {
    exists p :: InBox(p, a) && InBox(p, b)
  }

  function BodySolid(l: Plan): Primitive { Core(l)[0].shape }

  function HeadSolid(l: Plan): Primitive { Core(l)[1].shape }

  function Mirrored(v: Vec): Vec { Vec(-v.x, v.y, v.z) }

  function MirroredShape(p: Primitive): Primitive {
    match p
    case Solid(center, x, y, z) => Solid(Mirrored(center), x, y, z)
    case Disc(center, radius, depth) => Disc(Mirrored(center), radius, depth)
    case Rod(start, end, radius) => Rod(Mirrored(start), Mirrored(end), radius)
    case Frustum(start, end, radius, tip) => Frustum(Mirrored(start), Mirrored(end), radius, tip)
  }

  // The same shapes, in the same order, on the other side.
  predicate MirrorImages(left: seq<Part>, right: seq<Part>) {
    |left| == |right| && forall i :: 0 <= i < |left| ==> left[i].shape == MirroredShape(right[i].shape)
  }

  // Rods from a point inside this solid, each from where the one before ended, to the centre of a
  // solid at the end.
  predicate Limb(ps: seq<Part>, from: Primitive)
    requires from.Solid?
  {
    && |ps| >= 2 && ps[|ps| - 1].shape.Solid? && (forall i :: 0 <= i < |ps| - 1 ==> ps[i].shape.Rod?)
    && InBox(ps[0].shape.start, from) && (forall i :: 0 < i < |ps| - 1 ==> ps[i].shape.start == ps[i - 1].shape.end)
    && ps[|ps| - 1].shape.center == ps[|ps| - 2].shape.end
  }

  // Head and body overlap by the penetration; the feet are sunk into the base by it, or stand on the
  // ground; each leg runs from its foot into the body.
  predicate LegStands(l: Plan, sign: real) {
    var foot, leg := FootAndLeg(l, sign)[0].shape, FootAndLeg(l, sign)[1].shape;
    && InBox(leg.start, foot) && InBox(leg.end, BodySolid(l))
    && foot.center.z - foot.z * 0.5 == (if l.baseH > 0.0 then l.baseH - l.penetration else 0.0)
    && -l.baseW * 0.5 < foot.center.x < l.baseW * 0.5 && leg.start.x == leg.end.x == foot.center.x
    && leg.end.z == BodySolid(l).center.z - l.bodyH * 0.5 + l.penetration
  }

  lemma LegsStand(l: Plan, sign: real)
    requires Sound(l) && (sign == -1.0 || sign == 1.0)
    ensures LegStands(l, sign)
    ensures MirrorImages(FootAndLeg(l, -1.0), FootAndLeg(l, 1.0))
  {
  }

  // Both arms hang from the body; outside the wave they are mirror images.
  lemma ArmsHang(l: Plan, pose: Pose, sign: real)
    requires Sound(l) && (sign == -1.0 || sign == 1.0)
    ensures Limb(Arm(l, pose, sign), BodySolid(l))
    ensures !pose.Wave? ==> MirrorImages(Arm(l, pose, -1.0), Arm(l, pose, 1.0))
    ensures pose.Wave? ==> MirrorImages(Arm(l, pose, -1.0), Arm(l, Standing, 1.0))
  {
  }

  lemma HeadSits(l: Plan)
    requires Sound(l)
    ensures Overlap(HeadSolid(l), BodySolid(l))
    ensures HeadSolid(l).center.z + l.headH * 0.5 == l.headTop
  {
    var seam := Vec(0.0, 0.0, l.headCenterZ - l.headH * 0.5);
    assert InBox(seam, HeadSolid(l)) && InBox(seam, BodySolid(l));
  }

  // Every eye is set into the front of the head.
  lemma EyesAreSet(l: Plan, eyes: Eyes, i: nat)
    requires Sound(l) && i < |Face(l, eyes)|
    ensures Overlap(Face(l, eyes)[i].shape, HeadSolid(l))
  {
    var eye := Face(l, eyes)[i].shape;
    var p := Vec(eye.center.x, -l.headD * 0.5, eye.center.z);
    assert InBox(p, eye) && InBox(p, HeadSolid(l));
  }

  // What stands on the head starts in it and ends exactly at the target height.
  lemma AntennaStands(l: Plan, sign: real)
    requires Sound(l) && l.topReserve >= 7.0 && (sign == -1.0 || sign == 1.0)
    ensures Limb(Antenna(l, sign), HeadSolid(l))
    ensures var tip := Antenna(l, sign)[1].shape; tip.center.z + tip.z * 0.5 == l.targetH
    ensures MirrorImages(Antenna(l, -1.0), Antenna(l, 1.0))
  {
  }

  lemma UprightStands(l: Plan, c: Component, sign: real)
    requires Sound(l) && (sign == -1.0 || sign == 1.0)
    ensures var cone := Upright(l, c, sign)[0].shape; InBox(cone.start, HeadSolid(l)) && cone.end.z == l.targetH
    ensures MirrorImages(Upright(l, c, -1.0), Upright(l, c, 1.0))
  {
  }

  lemma RoundEarStands(l: Plan, sign: real)
    requires Sound(l) && l.topReserve >= 7.0 && (sign == -1.0 || sign == 1.0)
    ensures var ear := RoundEar(l, sign).shape; Overlap(ear, HeadSolid(l)) && ear.center.z + ear.z * 0.5 == l.targetH
    ensures MirrorImages([RoundEar(l, -1.0)], [RoundEar(l, 1.0)])
  {
    var ear := RoundEar(l, sign).shape;
    var p := Vec(ear.center.x, 0.0, l.headTop);
    assert InBox(p, ear) && InBox(p, HeadSolid(l));
  }

  // A tail hangs from the back of the body, the backpack and the badge are set into it.
  lemma TailHangs(l: Plan, swept: bool)
    requires Sound(l)
    ensures Limb(Tail(l, swept), BodySolid(l))
  {
  }

  lemma BackpackIsSet(l: Plan)
    requires Sound(l)
    ensures Overlap(BackpackPart(l).shape, BodySolid(l))
  {
    var pack := BackpackPart(l).shape;
    var p := Vec(0.0, l.bodyD * 0.5, pack.center.z);
    assert InBox(p, pack) && InBox(p, BodySolid(l));
  }

  lemma BadgeIsSet(l: Plan)
    requires Sound(l)
    ensures var badge := Badge(l).shape;
            badge.center.y - badge.depth * 0.5 < -l.bodyD * 0.5 < badge.center.y + badge.depth * 0.5
            && InBox(Vec(badge.center.x, -l.bodyD * 0.5, badge.center.z), BodySolid(l))
  {
  }

  predicate EndsAtTop(p: Primitive, l: Plan) {
    match p
    case Solid(center, _, _, z) => center.z + z * 0.5 == l.targetH
    case Frustum(_, end, _, _) => end.z == l.targetH
    case _ => false
  }

  // How a component hangs on the character.
  ghost predicate ComponentHangs(l: Plan, c: Component) {
    var ps := ComponentParts(l, c);
    match c
    case AntennaPair =>
      && Limb(ps[..2], HeadSolid(l)) && Limb(ps[2..], HeadSolid(l)) && MirrorImages(ps[..2], ps[2..])
      && EndsAtTop(ps[1].shape, l) && EndsAtTop(ps[3].shape, l)
    case Backpack => |ps| == 1 && ps[0].shape.Solid? && Overlap(ps[0].shape, BodySolid(l))
    case ChestBadge =>
      && |ps| == 1 && ps[0].shape.Disc?
      && InBox(Vec(ps[0].shape.center.x, -l.bodyD * 0.5, ps[0].shape.center.z), BodySolid(l))
    case RoundEars =>
      && |ps| == 2 && MirrorImages(ps[..1], ps[1..])
      && forall i :: 0 <= i < 2 ==>
           ps[i].shape.Solid? && Overlap(ps[i].shape, HeadSolid(l)) && EndsAtTop(ps[i].shape, l)
    case StubTail => Limb(ps, BodySolid(l))
    case SweptTail => Limb(ps, BodySolid(l))
    case _ =>
      && |ps| == 2 && MirrorImages(ps[..1], ps[1..])
      && forall i :: 0 <= i < 2 ==>
           ps[i].shape.Frustum? && InBox(ps[i].shape.start, HeadSolid(l)) && EndsAtTop(ps[i].shape, l)
  }

  lemma ComponentsHang(l: Plan, c: Component)
    requires Sound(l) && (OnTop(c) ==> l.topReserve >= 7.0)
    ensures ComponentHangs(l, c)
  {
    match c
    case AntennaPair =>
      AntennaStands(l, -1.0);
      AntennaStands(l, 1.0);
      var ps := ComponentParts(l, c);
      assert ps[..2] == Antenna(l, -1.0) && ps[2..] == Antenna(l, 1.0);
    case Backpack => BackpackIsSet(l);
    case ChestBadge => BadgeIsSet(l);
    case RoundEars =>
      RoundEarStands(l, -1.0);
      RoundEarStands(l, 1.0);
    case StubTail => TailHangs(l, false);
    case SweptTail => TailHangs(l, true);
    case _ =>
      UprightStands(l, c, -1.0);
      UprightStands(l, c, 1.0);
  }

  // After preflight every part of a character is attached: legs, arms, head and eyes, and each
  // component that was asked for.
  lemma CharacterHangsTogether(s: Spec, c: Component, i: nat)
    requires Validated(s) && MakePlan(s).Some?
    ensures var l := MakePlan(s).value;
            && LegStands(l, -1.0) && LegStands(l, 1.0) && Overlap(HeadSolid(l), BodySolid(l))
            && Limb(Arm(l, s.pose, -1.0), BodySolid(l)) && Limb(Arm(l, s.pose, 1.0), BodySolid(l))
            && (i < |Face(l, s.eyes)| ==> Overlap(Face(l, s.eyes)[i].shape, HeadSolid(l)))
            && (c in s.components ==> ComponentHangs(l, c))
  {
    var l := MakePlan(s).value;
    PlanIsSound(s);
    LegsStand(l, -1.0);
    LegsStand(l, 1.0);
    HeadSits(l);
    ArmsHang(l, s.pose, -1.0);
    ArmsHang(l, s.pose, 1.0);
    if i < |Face(l, s.eyes)| {
      EyesAreSet(l, s.eyes, i);
    }
    if c in s.components {
      assert OnTop(c) ==> AnyOnTop(s.components);
      ComponentsHang(l, c);
    }
  }
}
