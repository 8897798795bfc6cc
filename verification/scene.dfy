/** The scene of the ray tracer (lab4): its objects, its light and camera,
    the Cornell-box room planes, and the nearest-hit search of Scene::trace. */
module Scenes {
  import opened RealMath
  import opened Wrappers
  import opened Vectors
  import opened Materials
  import opened Geometry
  import opened Noise

  /** What the tracer reads but does not own: the maths library, the Perlin
      table and the random perturbation vectors, one per glossy sample, in
      the order the generator would produce them. */
  datatype World = World(lib: Libm, perm: seq<int>, jitter: nat -> Vector3) {
    ghost predicate Valid() { Lawful(lib) && TableInRange(perm) }
  }

  datatype Scene = Scene(
    spheres: seq<Sphere>,
    boxes: seq<Box>,
    lightPos: Vector3,
    lightColor: Vector3,
    bgColor: Vector3,
    cameraPos: Vector3,
    lookAt: Vector3,
    fov: real)
  {
    /** Every refractive index is positive: refraction divides by eta and
        by (eta + 1)^2. */
    predicate Valid() {
      (forall i :: 0 <= i < |spheres| ==> ValidMaterial(spheres[i].mat))
      && (forall i :: 0 <= i < |boxes| ==> ValidMaterial(boxes[i].mat))
    }
  }

  /** The scene init() builds: a red mirror sphere, a glass sphere, a rough
      gold sphere and a wooden box, under the default light and camera. */
  function CornellBox(): (s: Scene)
    ensures s.Valid() && |s.spheres| == 3 && |s.boxes| == 1
  {
    var redMirror := DefaultMaterial.(color := Vector3(0.9, 0.1, 0.1), ka := 0.05, kd := 0.0,
      ks := 0.9, kr := 1.0, shininess := 100.0, roughness := 0.0, isMetallic := false);
    var glass := DefaultMaterial.(color := Vector3(0.95, 0.95, 0.95), ka := 0.0, kd := 0.0,
      ks := 0.1, kr := 0.0, eta := 1.5, isRefractive := true, isMetallic := false, roughness := 0.0);
    var gold := DefaultMaterial.(color := Vector3(1.0, 0.76, 0.33), ka := 0.1, kd := 0.05,
      ks := 1.0, kr := 0.9, shininess := 200.0, roughness := 0.2, isRefractive := false,
      isMetallic := true, eta := 1.0);
    var woodBox := DefaultMaterial.(color := Vector3(0.5, 0.3, 0.15), ka := 0.1, kd := 0.75,
      ks := 0.1, kr := 0.0, shininess := 15.0, isMetallic := false, roughness := 0.05);
    Scene(
      [Sphere(Vector3(-1.0, 0.4, 0.5), 0.4, redMirror),
       Sphere(Vector3(0.0, 0.4, -0.2), 0.4, glass),
       Sphere(Vector3(0.85, 0.25, 0.6), 0.25, gold)],
      [Box(Vector3(0.5, 0.0, -1.3), Vector3(1.3, 1.0, -0.5), woodBox)],
      Vector3(0.0, 2.9, 0.0),
      Vector3(1.5, 1.5, 1.5),
      Vector3(0.85, 0.85, 0.85),
      Vector3(0.0, 1.5, 2.5),
      Vector3(0.0, 1.5, 0.0),
      90.0 * Pi / 180.0)
  }

  /** The running state of the hit search: nearest distance so far, hit
      point, normal and material, and whether anything (a box) was hit. */
  datatype HitState = HitState(tMin: real, point: Vector3, normal: Vector3,
                               mat: Material, hasHit: bool, isBox: bool)

  /** Farther than any hit the search accepts. */
  const Horizon: real := 100000.0

  const NoHit := HitState(Horizon, Zero, Zero, DefaultMaterial, false, false)

  /** One iteration of the sphere loop: a sphere replaces the current hit
      only when it is hit strictly nearer. */
  function SphereStep(m: Libm, st: HitState, s: Sphere, ray: Ray): HitState {
    match SphereIntersect(m, s, ray)
    case Some(t) =>
      if t < st.tMin then
        var p := ray.At(t);
        HitState(t, p, p.Sub(s.center).Normalize(m), s.mat, true, false)
      else st
    case None => st
  }

  /** The sphere loop over a prefix of the spheres. */
  function SphereScan(m: Libm, st: HitState, spheres: seq<Sphere>, ray: Ray): HitState
    decreases |spheres|
  {
    if spheres == [] then st
    else SphereStep(m, SphereScan(m, st, spheres[..|spheres| - 1], ray), spheres[|spheres| - 1], ray)
  }

  /** One iteration of the box loop; a NaN distance is never nearer. */
  function BoxStep(m: Libm, st: HitState, b: Box, ray: Ray): HitState {
    match BoxTest(m, b, ray)
    case BoxHitAt(t, n) =>
      if t < st.tMin then HitState(t, ray.At(t), n, b.mat, true, true) else st
    case _ => st
  }

  function BoxScan(m: Libm, st: HitState, boxes: seq<Box>, ray: Ray): HitState
    decreases |boxes|
  {
    if boxes == [] then st
    else BoxStep(m, BoxScan(m, st, boxes[..|boxes| - 1], ray), boxes[|boxes| - 1], ray)
  }

  /** The five bounded planes of the room, in the order they are tested. */
  datatype Wall = Floor | LeftWall | RightWall | BackWall | Ceiling

  function WallPoint(w: Wall): Vector3 {
    match w
    case Floor => Vector3(0.0, 0.0, 0.0)
    case LeftWall => Vector3(-1.5, 0.0, 0.0)
    case RightWall => Vector3(1.5, 0.0, 0.0)
    case BackWall => Vector3(0.0, 0.0, -1.5)
    case Ceiling => Vector3(0.0, 3.0, 0.0)
  }

  /** The plane normal, which is also the normal reported at a hit. */
  function WallNormal(w: Wall): Vector3 {
    match w
    case Floor => Vector3(0.0, 1.0, 0.0)
    case LeftWall => Vector3(1.0, 0.0, 0.0)
    case RightWall => Vector3(-1.0, 0.0, 0.0)
    case BackWall => Vector3(0.0, 0.0, 1.0)
    case Ceiling => Vector3(0.0, -1.0, 0.0)
  }

  /** The rectangle of the plane that belongs to the room. */
  predicate OnPatch(w: Wall, p: Vector3) {
    match w
    case Floor => -1.5 <= p.x <= 1.5 && -1.5 <= p.z <= 1.5
    case LeftWall => 0.0 <= p.y <= 3.0 && -1.5 <= p.z <= 1.5
    case RightWall => 0.0 <= p.y <= 3.0 && -1.5 <= p.z <= 1.5
    case BackWall => -1.5 <= p.x <= 1.5 && 0.0 <= p.y <= 3.0
    case Ceiling => -1.5 <= p.x <= 1.5 && -1.5 <= p.z <= 1.5
  }

  /** The floor's stripe index: (int)(z * 8 * 5) % 2 with C truncation, so
      it is -1, 0 or 1 and any nonzero value selects the lighter plank. */
  function FloorStripe(z: real): (s: int)
    ensures -1 <= s <= 1
    ensures 0.0 <= z ==> 0 <= s
  {
    CRem(Trunc(z * 8.0 * 5.0), 2)
  }

  /** The floor colour: a sine ripple along x over light or dark planks. */
  function FloorColor(m: Libm, p: Vector3): Vector3 {
    var pattern := m.sin(p.x * 15.0) * 0.5 + 0.5;
    var base := if FloorStripe(p.z) != 0 then Vector3(0.55, 0.35, 0.15) else Vector3(0.45, 0.25, 0.1);
    base.Scale(0.8 + pattern * 0.2)
  }

  /** The material fields a plane hit writes into the current material.
      Fields it does not write (refractive index and refraction flag, and
      for the walls also the shininess) keep whatever the current material
      held: the default one, or that of a farther sphere or box. */
  function Paint(m: Libm, w: Wall, mat: Material, p: Vector3): Material {
    match w
    case Floor =>
      mat.(color := FloorColor(m, p), ka := 0.15, kd := 0.75, ks := 0.15, kr := 0.0,
           shininess := 20.0, isMetallic := false, roughness := 0.0)
    case LeftWall => PaintWall(mat, Vector3(0.75, 0.1, 0.1))
    case RightWall => PaintWall(mat, Vector3(0.1, 0.75, 0.1))
    case BackWall => PaintWall(mat, Vector3(0.85, 0.85, 0.85))
    case Ceiling => PaintWall(mat, Vector3(0.85, 0.85, 0.85))
  }

  function PaintWall(mat: Material, color: Vector3): Material {
    mat.(color := color, ka := 0.1, kd := 0.8, ks := 0.05, kr := 0.0, isMetallic := false, roughness := 0.0)
  }

  /** One plane test of Scene::trace: the plane replaces the current hit when
      it is hit strictly nearer and the hit point lies on its rectangle. */
  function WallStep(m: Libm, st: HitState, w: Wall, ray: Ray): HitState {
    match PlaneIntersect(ray, WallPoint(w), WallNormal(w))
    case Some(t) =>
      var p := ray.At(t);
      if t < st.tMin && OnPatch(w, p) then
        HitState(t, p, WallNormal(w), Paint(m, w, st.mat, p), true, false)
      else st
    case None => st
  }

  /** The room planes in the order Scene::trace tests them. */
  const RoomWalls: seq<Wall> := [Floor, LeftWall, RightWall, BackWall, Ceiling]

  function WallScan(m: Libm, st: HitState, walls: seq<Wall>, ray: Ray): HitState
    decreases |walls|
  {
    if walls == [] then st
    else WallStep(m, WallScan(m, st, walls[..|walls| - 1], ray), walls[|walls| - 1], ray)
  }

  /** The room scan is the five plane tests one after the other. */
  lemma RoomScan(m: Libm, st: HitState, ray: Ray)
    ensures WallScan(m, st, RoomWalls, ray)
      == WallStep(m, WallStep(m, WallStep(m, WallStep(m, WallStep(m, st, Floor, ray), LeftWall, ray), RightWall, ray), BackWall, ray), Ceiling, ray)
  {
    var w1, w2, w3, w4 := [Floor], [Floor, LeftWall], [Floor, LeftWall, RightWall], [Floor, LeftWall, RightWall, BackWall];
    assert w1[..0] == [] && w2[..1] == w1 && w3[..2] == w2 && w4[..3] == w3 && RoomWalls[..4] == w4;
    var s1 := WallScan(m, st, w1, ray);
    assert s1 == WallStep(m, st, Floor, ray);
    var s2 := WallScan(m, st, w2, ray);
    assert s2 == WallStep(m, s1, LeftWall, ray);
    var s3 := WallScan(m, st, w3, ray);
    assert s3 == WallStep(m, s2, RightWall, ray);
    var s4 := WallScan(m, st, w4, ray);
    assert s4 == WallStep(m, s3, BackWall, ray);
    assert WallScan(m, st, RoomWalls, ray) == WallStep(m, s4, Ceiling, ray);
  }

  /** The hit search of Scene::trace: spheres, then boxes, then the room. */
  function NearestHit(m: Libm, scene: Scene, ray: Ray): HitState {
    WallScan(m, BoxScan(m, SphereScan(m, NoHit, scene.spheres, ray), scene.boxes, ray), RoomWalls, ray)
  }

  // ------------------------------------------------------------ candidates

  /** A distance at which some object of the scene is hit and would be
      accepted by its own test. */
  predicate SphereCandidate(m: Libm, s: Sphere, ray: Ray, t: real) {
    SphereIntersect(m, s, ray) == Some(t)
  }

  predicate BoxCandidate(m: Libm, b: Box, ray: Ray, t: real) {
    BoxTest(m, b, ray).BoxHitAt? && BoxTest(m, b, ray).t == t
  }

  predicate WallCandidate(w: Wall, ray: Ray, t: real) {
    PlaneIntersect(ray, WallPoint(w), WallNormal(w)) == Some(t) && OnPatch(w, ray.At(t))
  }

  /** The hit state is the one sphere s writes when it wins: its distance,
      the ray point there, the radial normal, the sphere's own material,
      and not a box. */
  predicate SphereWon(m: Libm, s: Sphere, ray: Ray, r: HitState) {
    SphereCandidate(m, s, ray, r.tMin) && r.point == ray.At(r.tMin)
    && r.normal == r.point.Sub(s.center).Normalize(m)
    && r.mat == s.mat && r.hasHit && !r.isBox
  }

  /** The hit state box b writes when it wins: its distance and face
      normal, the ray point there, the box's own material, and a box. */
  predicate BoxWon(m: Libm, b: Box, ray: Ray, r: HitState) {
    BoxCandidate(m, b, ray, r.tMin) && r.point == ray.At(r.tMin)
    && r.normal == BoxTest(m, b, ray).normal
    && r.mat == b.mat && r.hasHit && r.isBox
  }

  /** The hit state plane w writes when it wins: its distance, the ray point
      there, the plane normal, a material carrying w's paint at that point
      (the fields the paint leaves alone are the earlier hit's, as
      PlaneKeepsRefraction states), and not a box. */
  predicate WallWon(m: Libm, w: Wall, ray: Ray, r: HitState) {
    WallCandidate(w, ray, r.tMin) && r.point == ray.At(r.tMin)
    && r.normal == WallNormal(w) && Paint(m, w, r.mat, r.point) == r.mat
    && r.hasHit && !r.isBox
  }

  /** The final distance is not beyond the horizon, and there is a hit
      exactly when it is nearer than the horizon. */
  predicate Settled(st: HitState) {
    st.tMin <= Horizon && (st.hasHit <==> st.tMin < Horizon)
  }

  lemma {:induction false} SphereScanNearest(m: Libm, st: HitState, spheres: seq<Sphere>, ray: Ray)
    requires Settled(st)
    ensures var r := SphereScan(m, st, spheres, ray);
      Settled(r) && r.tMin <= st.tMin
      && (forall i :: 0 <= i < |spheres| && SphereIntersect(m, spheres[i], ray).Some? ==>
            r.tMin <= SphereIntersect(m, spheres[i], ray).value)
      && (r == st || exists i :: 0 <= i < |spheres| && SphereWon(m, spheres[i], ray, r))
    decreases |spheres|
  {
    if spheres != [] {
      var n := |spheres| - 1;
      var init := spheres[..n];
      SphereScanNearest(m, st, init, ray);
      var before := SphereScan(m, st, init, ray);
      var r := SphereScan(m, st, spheres, ray);
      assert r == SphereStep(m, before, spheres[n], ray);
      forall i | 0 <= i < |spheres| && SphereIntersect(m, spheres[i], ray).Some?
        ensures r.tMin <= SphereIntersect(m, spheres[i], ray).value
      {
        if i < n {
          assert spheres[i] == init[i];
        }
      }
      if r != st && r != before {
        assert SphereWon(m, spheres[n], ray, r);
      } else if r != st {
        var i :| 0 <= i < |init| && SphereWon(m, init[i], ray, r);
        assert spheres[i] == init[i];
      }
    }
  }

  lemma {:induction false} BoxScanNearest(m: Libm, st: HitState, boxes: seq<Box>, ray: Ray)
    requires Settled(st)
    ensures var r := BoxScan(m, st, boxes, ray);
      Settled(r) && r.tMin <= st.tMin
      && (forall i :: 0 <= i < |boxes| && BoxTest(m, boxes[i], ray).BoxHitAt? ==>
            r.tMin <= BoxTest(m, boxes[i], ray).t)
      && (r == st || exists i :: 0 <= i < |boxes| && BoxWon(m, boxes[i], ray, r))
    decreases |boxes|
  {
    if boxes != [] {
      var n := |boxes| - 1;
      var init := boxes[..n];
      BoxScanNearest(m, st, init, ray);
      var before := BoxScan(m, st, init, ray);
      var r := BoxScan(m, st, boxes, ray);
      assert r == BoxStep(m, before, boxes[n], ray);
      forall i | 0 <= i < |boxes| && BoxTest(m, boxes[i], ray).BoxHitAt?
        ensures r.tMin <= BoxTest(m, boxes[i], ray).t
      {
        if i < n {
          assert boxes[i] == init[i];
        }
      }
      if r != st && r != before {
        assert BoxWon(m, boxes[n], ray, r);
      } else if r != st {
        var i :| 0 <= i < |init| && BoxWon(m, init[i], ray, r);
        assert boxes[i] == init[i];
      }
    }
  }

  lemma WallStepNearest(m: Libm, st: HitState, w: Wall, ray: Ray)
    requires Settled(st)
    ensures var r := WallStep(m, st, w, ray);
      Settled(r) && r.tMin <= st.tMin
      && (forall t :: WallCandidate(w, ray, t) ==> r.tMin <= t)
      && (r == st || WallWon(m, w, ray, r))
  {
    var r := WallStep(m, st, w, ray);
    if r != st {
      PaintTwice(m, w, st.mat, r.point);
    }
  }

  /** Painting is idempotent: a plane writes the same fields with values
      that depend only on the plane and the point. */
  lemma PaintTwice(m: Libm, w: Wall, mat: Material, p: Vector3)
    ensures Paint(m, w, Paint(m, w, mat, p), p) == Paint(m, w, mat, p)
  {
  }

  lemma {:induction false} WallScanNearest(m: Libm, st: HitState, walls: seq<Wall>, ray: Ray)
    requires Settled(st)
    ensures var r := WallScan(m, st, walls, ray);
      Settled(r) && r.tMin <= st.tMin
      && (forall i, t :: 0 <= i < |walls| && WallCandidate(walls[i], ray, t) ==> r.tMin <= t)
      && (r == st || exists i :: 0 <= i < |walls| && WallWon(m, walls[i], ray, r))
    decreases |walls|
  {
    if walls != [] {
      var n := |walls| - 1;
      var init := walls[..n];
      WallScanNearest(m, st, init, ray);
      var before := WallScan(m, st, init, ray);
      var r := WallScan(m, st, walls, ray);
      WallStepNearest(m, before, walls[n], ray);
      forall i, t | 0 <= i < |walls| && WallCandidate(walls[i], ray, t) ensures r.tMin <= t {
        if i < n {
          assert walls[i] == init[i];
        }
      }
      if r != st && r != before {
        assert WallWon(m, walls[n], ray, r);
      } else if r != st {
        var i :| 0 <= i < |init| && WallWon(m, init[i], ray, r);
        assert walls[i] == init[i];
      }
    }
  }

  /** Every room plane is tested. */
  lemma AllWallsTested(w: Wall)
    ensures exists i :: 0 <= i < |RoomWalls| && RoomWalls[i] == w
  {
    match w
    case Floor => assert RoomWalls[0] == w;
    case LeftWall => assert RoomWalls[1] == w;
    case RightWall => assert RoomWalls[2] == w;
    case BackWall => assert RoomWalls[3] == w;
    case Ceiling => assert RoomWalls[4] == w;
  }

  /** Nearest-hit selection: the search ends at a distance no farther than
      any candidate of any sphere, box or room plane; it reports a hit
      exactly when that distance is nearer than the horizon, and then the
      whole hit (distance, point, normal, material, box flag) is the one
      written by a sphere, a box or a room plane that is hit there. */
  lemma NearestHitIsNearest(m: Libm, scene: Scene, ray: Ray)
    ensures var r := NearestHit(m, scene, ray);
      Settled(r)
      && (forall i :: 0 <= i < |scene.spheres| && SphereIntersect(m, scene.spheres[i], ray).Some? ==>
            r.tMin <= SphereIntersect(m, scene.spheres[i], ray).value)
      && (forall i :: 0 <= i < |scene.boxes| && BoxTest(m, scene.boxes[i], ray).BoxHitAt? ==>
            r.tMin <= BoxTest(m, scene.boxes[i], ray).t)
      && (forall w, t :: WallCandidate(w, ray, t) ==> r.tMin <= t)
      && (r.hasHit ==>
            (exists i :: 0 <= i < |scene.spheres| && SphereWon(m, scene.spheres[i], ray, r))
            || (exists i :: 0 <= i < |scene.boxes| && BoxWon(m, scene.boxes[i], ray, r))
            || (exists w :: WallWon(m, w, ray, r)))
  {
    var s0 := SphereScan(m, NoHit, scene.spheres, ray);
    SphereScanNearest(m, NoHit, scene.spheres, ray);
    var s1 := BoxScan(m, s0, scene.boxes, ray);
    BoxScanNearest(m, s0, scene.boxes, ray);
    WallScanNearest(m, s1, RoomWalls, ray);
    var r := WallScan(m, s1, RoomWalls, ray);
    forall w, t | WallCandidate(w, ray, t) ensures r.tMin <= t {
      AllWallsTested(w);
    }
  }

  /** A hit material keeps a positive refractive index. */
  lemma NearestHitValid(m: Libm, scene: Scene, ray: Ray)
    requires scene.Valid()
    ensures ValidMaterial(NearestHit(m, scene, ray).mat)
  {
    SphereScanValid(m, NoHit, scene.spheres, ray);
    BoxScanValid(m, SphereScan(m, NoHit, scene.spheres, ray), scene.boxes, ray);
    WallScanValid(m, BoxScan(m, SphereScan(m, NoHit, scene.spheres, ray), scene.boxes, ray), RoomWalls, ray);
  }

  /** The room planes repaint a hit but keep its refractive index. */
  lemma {:induction false} WallScanValid(m: Libm, st: HitState, walls: seq<Wall>, ray: Ray)
    requires ValidMaterial(st.mat)
    ensures ValidMaterial(WallScan(m, st, walls, ray).mat)
    decreases |walls|
  {
    if walls != [] {
      WallScanValid(m, st, walls[..|walls| - 1], ray);
    }
  }

  lemma {:induction false} SphereScanValid(m: Libm, st: HitState, spheres: seq<Sphere>, ray: Ray)
    requires ValidMaterial(st.mat)
    requires forall i :: 0 <= i < |spheres| ==> ValidMaterial(spheres[i].mat)
    ensures ValidMaterial(SphereScan(m, st, spheres, ray).mat)
    decreases |spheres|
  {
    if spheres != [] {
      SphereScanValid(m, st, spheres[..|spheres| - 1], ray);
    }
  }

  lemma {:induction false} BoxScanValid(m: Libm, st: HitState, boxes: seq<Box>, ray: Ray)
    requires ValidMaterial(st.mat)
    requires forall i :: 0 <= i < |boxes| ==> ValidMaterial(boxes[i].mat)
    ensures ValidMaterial(BoxScan(m, st, boxes, ray).mat)
    decreases |boxes|
  {
    if boxes != [] {
      BoxScanValid(m, st, boxes[..|boxes| - 1], ray);
    }
  }

  /** The plane material quirk: a room plane hit in front of a farther
      refractive sphere keeps that sphere's refraction flag and index. */
  lemma PlaneKeepsRefraction(m: Libm, st: HitState, w: Wall, ray: Ray)
    requires WallStep(m, st, w, ray) != st
    ensures var r := WallStep(m, st, w, ray);
      r.mat.isRefractive == st.mat.isRefractive && r.mat.eta == st.mat.eta
      && r.mat.kr == 0.0 && r.mat.roughness == 0.0 && !r.mat.isMetallic && !r.isBox
  {
  }
}
