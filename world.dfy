/** The world's read-only sampling facade: point-in-shape tests for the
    graphical shapes, the object lookup by point, and the field-kind dispatch
    that samples input and output fields. Positions and lengths are reals. */
module WorldSampling {

  import opened Basics
  import WordTable

  datatype Vec2 = Vec2(x: real, y: real)

  const Zero: Vec2 := Vec2(0.0, 0.0)

  function Add(a: Vec2, b: Vec2): Vec2 { Vec2(a.x + b.x, a.y + b.y) }

  function Sub(a: Vec2, b: Vec2): Vec2 { Vec2(a.x - b.x, a.y - b.y) }

  function Dot(a: Vec2, b: Vec2): real { a.x * b.x + a.y * b.y }

  function Abs(v: real): (r: real)
    ensures r >= 0.0 && (r == v || r == -v)
  {
    if v < 0.0 then -v else v
  }

  /** Squared Euclidean distance between two points. */
  function Dist2(p: Vec2, q: Vec2): (d: real)
    ensures d >= 0.0
  {
    (p.x - q.x) * (p.x - q.x) + (p.y - q.y) * (p.y - q.y)
  }

  /** `p.distance(c) < r`, stated without a square root. */
  predicate InDisc(p: Vec2, c: Vec2, r: real)
  {
    r > 0.0 && Dist2(p, c) < r * r
  }

  datatype Shape =
    | Circle(radius: real)
    | Box(size: Vec2)
    | HalfSpace(normal: Vec2)
    | Capsule(halfHeight: real, radius: real)

  /** The half-space test divides by the normal's y component. */
  predicate WellFormed(s: Shape)
  {
    s.HalfSpace? ==> s.normal.y != 0.0
  }

  /** Whether a point, in the shape's own frame, lies inside the shape.
      Circles, boxes and capsules are bounded by their radius or half-width;
      a half-space is the side of the line through the origin where the
      normal's dot product has the opposite sign to normal.y. */
  predicate Contains(s: Shape, p: Vec2)
    requires WellFormed(s)
    ensures Contains(s, p) && s.Circle? ==> Abs(p.x) < s.radius && Abs(p.y) < s.radius
    ensures Contains(s, p) && s.Box? ==> 0.0 < s.size.x && Abs(p.y) < s.size.x / 2.0
    ensures s.HalfSpace? ==> (Contains(s, p) <==> Dot(s.normal, p) * s.normal.y < 0.0)
    ensures Contains(s, p) && s.Capsule? ==>
              Abs(p.x) < s.radius && Abs(p.y) < Abs(s.halfHeight) + s.radius
  {
    match s
    case Circle(r) =>
      DiscBounds(p, Zero, r);
      InDisc(p, Zero, r)
    case Box(size) => Abs(p.x) < size.x / 2.0 && Abs(p.y) < size.x / 2.0
    case HalfSpace(n) =>
      HalfSpaceSign(n, p);
      p.y < -n.x / n.y * p.x
    case Capsule(h, r) =>
      DiscBounds(p, Vec2(0.0, h), r);
      DiscBounds(p, Vec2(0.0, -h), r);
      (Abs(p.x) < r && Abs(p.y) < h) || InDisc(p, Vec2(0.0, h), r) || InDisc(p, Vec2(0.0, -h), r)
  }

  /** The slope test of a half-space, stated by the sign of the dot product. */
  lemma HalfSpaceSign(n: Vec2, p: Vec2)
    requires n.y != 0.0
    ensures p.y < -n.x / n.y * p.x <==> Dot(n, p) * n.y < 0.0
  {
    var q := n.x / n.y;
    var k := n.y * n.y;
    var v := p.y + q * p.x;
    assert n.x == q * n.y;
    assert Dot(n, p) * n.y == k * v;
    StrictSquareMonotone(0.0, Abs(n.y));
    assert k == Abs(n.y) * Abs(n.y) > 0.0;
    if v < 0.0 {
      assert k * v < 0.0;
    } else {
      assert k * v >= 0.0;
    }
  }

  /** A point of the disc of radius r about c lies within r of c on each axis. */
  lemma DiscBounds(p: Vec2, c: Vec2, r: real)
    ensures InDisc(p, c, r) ==> Abs(p.x - c.x) < r && Abs(p.y - c.y) < r
  {
    if InDisc(p, c, r) {
      var dx, dy := Abs(p.x - c.x), Abs(p.y - c.y);
      assert dx * dx <= Dist2(p, c) && dy * dy <= Dist2(p, c);
      if r <= dx { SquareMonotone(r, dx); }
      if r <= dy { SquareMonotone(r, dy); }
    }
  }

  /** InDisc agrees with comparing the true (non-negative) distance d. */
  lemma InDiscIsDistance(p: Vec2, c: Vec2, r: real, d: real)
    requires d >= 0.0 && d * d == Dist2(p, c)
    ensures InDisc(p, c, r) <==> d < r
  {
    if d < r {
      StrictSquareMonotone(d, r);
    } else if r > 0.0 {
      SquareMonotone(r, d);
    }
  }

  /** A circle of non-positive radius contains no point. */
  lemma CircleOfNonPositiveRadiusIsEmpty(r: real, p: Vec2)
    requires r <= 0.0
    ensures !Contains(Circle(r), p)
  {
  }

  /** A box is the square of half-width size.x / 2: its height is ignored and
      it is symmetric under swapping the two coordinates. */
  lemma BoxIsSquare(size: Vec2, h: real, p: Vec2)
    ensures Contains(Box(size), p) <==> Contains(Box(Vec2(size.x, h)), p)
    ensures Contains(Box(size), p) <==> Contains(Box(size), Vec2(p.y, p.x))
  {
  }

  /** With n.y > 0 the half-space is the open side opposite the normal
      (n . p < 0); with n.y < 0 it is the side the normal points to. */
  lemma HalfSpaceByDot(n: Vec2, p: Vec2)
    requires n.y != 0.0
    ensures n.y > 0.0 ==> (Contains(HalfSpace(n), p) <==> Dot(n, p) < 0.0)
    ensures n.y < 0.0 ==> (Contains(HalfSpace(n), p) <==> Dot(n, p) > 0.0)
  {
  }

  /** Negating the normal does not change the half-space. */
  lemma HalfSpaceIgnoresOrientation(n: Vec2, p: Vec2)
    requires n.y != 0.0
    ensures Contains(HalfSpace(n), p) <==> Contains(HalfSpace(Vec2(-n.x, -n.y)), p)
  {
  }

  /** The ground's up-pointing normal makes the half-space "below y = 0". */
  lemma GroundHalfSpace(p: Vec2)
    ensures Contains(HalfSpace(Vec2(0.0, 1.0)), p) <==> p.y < 0.0
  {
  }

  /** A capsule is the rectangle |x| < r, |y| < h together with the discs of
      radius r about (0, h) and (0, -h); it is mirror symmetric in both axes. */
  lemma CapsuleSymmetric(h: real, r: real, p: Vec2)
    ensures Contains(Capsule(h, r), p) <==> Contains(Capsule(h, r), Vec2(-p.x, p.y))
    ensures Contains(Capsule(h, r), p) <==> Contains(Capsule(h, r), Vec2(p.x, -p.y))
  {
  }

  /** A capsule of zero half-height is the circle of the same radius. */
  lemma CapsuleOfZeroHeightIsCircle(r: real, p: Vec2)
    ensures Contains(Capsule(0.0, r), p) <==> Contains(Circle(r), p)
  {
  }

  /** Squaring is strictly monotone on non-negative reals. */
  lemma StrictSquareMonotone(a: real, b: real)
    requires 0.0 <= a < b
    ensures a * a < b * b
  {
    var e := b - a;
    assert b * b == a * a + 2.0 * a * e + e * e;
    assert a * e >= 0.0 && e * e > 0.0;
  }

  /** Squaring is monotone on non-negative reals. */
  lemma SquareMonotone(a: real, b: real)
    requires 0.0 <= a <= b
    ensures a * a <= b * b
  {
  }

  /** Above height h (or below -h) the nearer cap centre is no farther than the origin. */
  lemma CapCentreNearer(p: Vec2, c: Vec2)
    requires c.x == 0.0 && (0.0 <= c.y <= p.y || p.y <= c.y <= 0.0)
    ensures Dist2(p, c) <= Dist2(p, Zero)
  {
  }

  /** A capsule contains the circle of its radius about its centre. */
  lemma CapsuleContainsCircle(h: real, r: real, p: Vec2)
    requires h >= 0.0
    ensures Contains(Circle(r), p) ==> Contains(Capsule(h, r), p)
  {
    if Contains(Circle(r), p) && !(Abs(p.x) < r && Abs(p.y) < h) {
      DiscBounds(p, Zero, r);
      var c := if p.y >= 0.0 then Vec2(0.0, h) else Vec2(0.0, -h);
      CapCentreNearer(p, c);
      assert InDisc(p, c, r);
    }
  }

  // ---------------------------------------------------------------------------
  // Objects and the world

  type Handle = nat

  datatype Object = Object(pos: Vec2, rot: real, shape: Shape, density: real, shapeOffset: Vec2)

  /** The vector output kinds are the word table's; the world samples only
      `Density` among the scalar input kinds. */
  type VectorOutputFieldKind = WordTable.VectorOutputFieldKind
  datatype ScalarInputFieldKind = Density

  /** Which kinds a scalar or vector sample may name. The scalar output and
      vector input kinds have no variants, so only these tags can occur. */
  datatype GenericScalarFieldKind = ScalarInput(input: ScalarInputFieldKind)
  datatype GenericVectorFieldKind = VectorOutput(output: VectorOutputFieldKind)

  /** The active output fields; the scalar table has no possible key. */
  datatype OutputFields<VF> = OutputFields(vectors: map<VectorOutputFieldKind, VF>)

  datatype World<VF> = World(playerPos: Vec2, objects: map<Handle, Object>, outputs: OutputFields<VF>)

  /** Every object shape can be tested. */
  ghost predicate Valid<VF>(w: World<VF>)
  {
    forall h :: h in w.objects ==> WellFormed(w.objects[h].shape)
  }

  /** `rotate(p - pos - shape_offset, -rot)`: the point in the object's frame. */
  function LocalPoint(rotate: (Vec2, real) -> Vec2, o: Object, p: Vec2): Vec2
  {
    rotate(Sub(Sub(p, o.pos), o.shapeOffset), -o.rot)
  }

  predicate ObjectContains(rotate: (Vec2, real) -> Vec2, o: Object, p: Vec2)
    requires WellFormed(o.shape)
  {
    Contains(o.shape, LocalPoint(rotate, o, p))
  }

  /** Containment depends only on where the point sits relative to the shape:
      moving the object and the point by the same vector changes nothing, and
      so does moving the shape offset into the position. */
  lemma LocalPointTranslated(rotate: (Vec2, real) -> Vec2, o: Object, p: Vec2, t: Vec2)
    ensures LocalPoint(rotate, o.(pos := Add(o.pos, t)), Add(p, t)) == LocalPoint(rotate, o, p)
    ensures LocalPoint(rotate, o.(pos := Add(o.pos, o.shapeOffset), shapeOffset := Zero), p)
            == LocalPoint(rotate, o, p)
    ensures WellFormed(o.shape) ==>
              (ObjectContains(rotate, o.(pos := Add(o.pos, t)), Add(p, t)) <==> ObjectContains(rotate, o, p))
  {
  }

  /** `order` is an iteration order of the object table: each key exactly once. */
  ghost predicate IsOrderOf(order: seq<Handle>, objects: map<Handle, Object>)
  {
    (forall h :: h in objects <==> h in order) &&
    (forall i, j :: 0 <= i < j < |order| ==> order[i] != order[j])
  }

  /** The first object, in `order`, that contains p. */
  function FindIn(objects: map<Handle, Object>, order: seq<Handle>,
                  rotate: (Vec2, real) -> Vec2, p: Vec2): (r: Option<Object>)
    requires forall h :: h in order ==> h in objects && WellFormed(objects[h].shape)
    ensures r.None? <==> forall i :: 0 <= i < |order| ==> !ObjectContains(rotate, objects[order[i]], p)
    ensures r.Some? ==> exists i :: 0 <= i < |order| && objects[order[i]] == r.value &&
                          forall j :: 0 <= j < i ==> !ObjectContains(rotate, objects[order[j]], p)
    ensures r.Some? ==> ObjectContains(rotate, r.value, p)
    decreases |order|
  {
    if order == [] then None
    else
      var o := objects[order[0]];
      if ObjectContains(rotate, o, p) then Some(o)
      else
        var r := FindIn(objects, order[1..], rotate, p);
        assert forall i :: 1 <= i < |order| ==> order[i] == order[1..][i - 1];
        r
  }

  /** `find_object_at`: some object whose shape contains p in its own frame,
      the first in the table's iteration order. */
  function FindObjectAt<VF>(w: World<VF>, order: seq<Handle>,
                            rotate: (Vec2, real) -> Vec2, p: Vec2): (r: Option<Object>)
    requires Valid(w) && IsOrderOf(order, w.objects)
    ensures r.None? <==> forall h :: h in w.objects ==> !ObjectContains(rotate, w.objects[h], p)
    ensures r.Some? ==> r.value in w.objects.Values && ObjectContains(rotate, r.value, p)
  {
    var r := FindIn(w.objects, order, rotate, p);
    if r.None? then
      assert forall h :: h in w.objects ==> exists i :: 0 <= i < |order| && order[i] == h;
      r
    else
      r
  }

  /** Density at p: the density of a containing object, or 0.0 if none. */
  function SampleInputScalarField<VF>(w: World<VF>, order: seq<Handle>,
                                      rotate: (Vec2, real) -> Vec2,
                                      kind: ScalarInputFieldKind, p: Vec2): (d: real)
    requires Valid(w) && IsOrderOf(order, w.objects)
    ensures (exists o :: o in w.objects.Values && ObjectContains(rotate, o, p) && d == o.density) ||
            (d == 0.0 && forall h :: h in w.objects ==> !ObjectContains(rotate, w.objects[h], p))
  {
    match kind
    case Density =>
      match FindObjectAt(w, order, rotate, p)
      case Some(o) => o.density
      case None => 0.0
  }

  /** The active output field of `kind` sampled at p, or the zero vector. */
  function SampleOutputVectorField<VF>(w: World<VF>, sample: (World<VF>, VF, Vec2) -> Vec2,
                                       kind: VectorOutputFieldKind, p: Vec2): (v: Vec2)
    ensures kind !in w.outputs.vectors ==> v == Zero
    ensures kind in w.outputs.vectors ==> v == sample(w, w.outputs.vectors[kind], p)
  {
    if kind in w.outputs.vectors then sample(w, w.outputs.vectors[kind], p) else Zero
  }

  function SampleScalarField<VF>(w: World<VF>, order: seq<Handle>, rotate: (Vec2, real) -> Vec2,
                                 kind: GenericScalarFieldKind, p: Vec2): (d: real)
    requires Valid(w) && IsOrderOf(order, w.objects)
    ensures d == SampleInputScalarField(w, order, rotate, kind.input, p)
  {
    match kind
    case ScalarInput(k) => SampleInputScalarField(w, order, rotate, k, p)
  }

  function SampleVectorField<VF>(w: World<VF>, sample: (World<VF>, VF, Vec2) -> Vec2,
                                 kind: GenericVectorFieldKind, p: Vec2): (v: Vec2)
    ensures v == SampleOutputVectorField(w, sample, kind.output, p)
  {
    match kind
    case VectorOutput(k) => SampleOutputVectorField(w, sample, k, p)
  }

  /** The density sample does not depend on the output fields, nor on the
      player position: only on the objects. */
  lemma DensityIgnoresOutputs<VF>(w: World<VF>, w': World<VF>, order: seq<Handle>,
                                  rotate: (Vec2, real) -> Vec2, p: Vec2)
    requires Valid(w) && IsOrderOf(order, w.objects) && w'.objects == w.objects
    ensures Valid(w') && IsOrderOf(order, w'.objects)
    ensures SampleInputScalarField(w, order, rotate, Density, p)
         == SampleInputScalarField(w', order, rotate, Density, p)
  {
  }

  /** With no object containing p the density is zero; when every object has
      the same density, that density is what any containing point reads,
      whatever the iteration order. */
  lemma DensityOfUniformWorld<VF>(w: World<VF>, order: seq<Handle>,
                                  rotate: (Vec2, real) -> Vec2, p: Vec2, rho: real)
    requires Valid(w) && IsOrderOf(order, w.objects)
    requires forall h :: h in w.objects ==> w.objects[h].density == rho
    ensures SampleInputScalarField(w, order, rotate, Density, p) ==
            (if exists h :: h in w.objects && ObjectContains(rotate, w.objects[h], p) then rho else 0.0)
  {
  }
}
