/** Scene::trace of the ray tracer (lab4): a specification as mutually
    recursive functions and the recursive method with the source's loops,
    proved equal. */
module Tracer {
  import opened RealMath
  import opened Wrappers
  import opened Vectors
  import opened Materials
  import opened Geometry
  import opened Noise
  import opened Scenes

  /** Recursion stops beyond this depth; children are spawned below it. */
  const MaxDepth: nat := 6

  /** The surface that is shaded: the hit point and normal with the hit
      material, whose colour is replaced by the wood texture for a box. */
  datatype Surface = Surface(point: Vector3, normal: Vector3, mat: Material)

  function SurfaceAt(w: World, st: HitState): (s: Surface)
    requires w.Valid()
    ensures s.point == st.point && s.normal == st.normal
    ensures st.isBox ==>
      DarkWood.x <= s.mat.color.x <= LightWood.x
      && DarkWood.y <= s.mat.color.y <= LightWood.y
      && DarkWood.z <= s.mat.color.z <= LightWood.z
    ensures st.isBox ==> s.mat.(color := st.mat.color) == st.mat
    ensures !st.isBox ==> s.mat == st.mat
  {
    if st.isBox then
      Surface(st.point, st.normal, st.mat.(color := WoodTextureColor(w.lib, w.perm, st.point, st.normal)))
    else Surface(st.point, st.normal, st.mat)
  }

  // ------------------------------------------------------------- shadows

  /** A sphere hit nearer than limit along the shadow ray. */
  predicate SphereBlocks(m: Libm, s: Sphere, ray: Ray, limit: real) {
    SphereIntersect(m, s, ray).Some? && SphereIntersect(m, s, ray).value < limit
  }

  /** A box hit nearer than limit; a NaN distance never is. */
  predicate BoxBlocks(m: Libm, b: Box, ray: Ray, limit: real) {
    BoxTest(m, b, ray).BoxHitAt? && BoxTest(m, b, ray).t < limit
  }

  /** The shadow test: some sphere or box blocks the way to the light. The
      room planes cast no shadows. */
  predicate Occluded(m: Libm, scene: Scene, ray: Ray, limit: real) {
    AnySphereBlocks(m, scene.spheres, ray, limit) || AnyBoxBlocks(m, scene.boxes, ray, limit)
  }

  predicate AnySphereBlocks(m: Libm, spheres: seq<Sphere>, ray: Ray, limit: real) {
    exists i :: 0 <= i < |spheres| && SphereBlocks(m, spheres[i], ray, limit)
  }

  predicate AnyBoxBlocks(m: Libm, boxes: seq<Box>, ray: Ray, limit: real) {
    exists i :: 0 <= i < |boxes| && BoxBlocks(m, boxes[i], ray, limit)
  }

  // ------------------------------------------------------- local lighting

  /** Phong lighting from the single point light when nothing blocks it. */
  function Lit(m: Libm, scene: Scene, s: Surface, lightDir: Vector3, lightDist: real): Vector3 {
    var mat := s.mat;
    var ambient := mat.color.Scale(mat.ka);
    var diff := Max(0.0, s.normal.Dot(lightDir));
    SquareNonNegative(lightDist);
    var attenuation := 1.0 / (1.0 + 0.05 * (lightDist * lightDist));
    var tint := mat.color.Mul(scene.lightColor);
    var diffuse :=
      if mat.isMetallic then tint.Scale(mat.kd * diff * attenuation * 0.1)
      else tint.Scale(mat.kd * diff * attenuation);
    var viewDir := scene.cameraPos.Sub(s.point).Normalize(m);
    var reflectDir := s.normal.Scale(2.0 * s.normal.Dot(lightDir)).Sub(lightDir).Normalize(m);
    var spec := m.pow(Max(0.0, viewDir.Dot(reflectDir)), mat.shininess);
    var highlight := (if mat.isMetallic then mat.color else scene.lightColor).Scale(mat.ks * spec * attenuation);
    Zero.Add(ambient).Add(diffuse).Add(highlight)
  }

  /** The shadow ray towards the light, from just above the surface. */
  function ShadowRay(m: Libm, scene: Scene, s: Surface): Ray
    requires Lawful(m)
  {
    MakeRay(m, s.point.Add(s.normal.Scale(0.001)), scene.lightPos.Sub(s.point).Normalize(m))
  }

  /** The local colour: lit, or half the ambient term in shadow. */
  function LocalColor(m: Libm, scene: Scene, s: Surface): (c: Vector3)
    requires Lawful(m)
    ensures var lightDist := scene.lightPos.Sub(s.point).Length(m);
      Occluded(m, scene, ShadowRay(m, scene, s), lightDist - 0.001) ==> c == s.mat.color.Scale(s.mat.ka).Scale(0.5)
  {
    var toLight := scene.lightPos.Sub(s.point);
    var lightDir := toLight.Normalize(m);
    var lightDist := toLight.Length(m);
    if !Occluded(m, scene, ShadowRay(m, scene, s), lightDist - 0.001) then
      Lit(m, scene, s, lightDir, lightDist)
    else s.mat.color.Scale(s.mat.ka).Scale(0.5)
  }

  // ------------------------------------------------------- secondary rays

  /** The mirror direction of d about the normal n. */
  function Reflect(m: Libm, d: Vector3, n: Vector3): Vector3 {
    d.Sub(n.Scale(2.0).Scale(d.Dot(n))).Normalize(m)
  }

  /** Number of glossy samples: 16 on a rough surface, otherwise 1. */
  function Samples(mat: Material): (k: nat)
    ensures k == 1 || k == 16
  {
    if mat.roughness > 0.001 then 16 else 1
  }

  /** A perturbed reflection direction from one random vector; a direction
      that would leave the normal's hemisphere falls back to the mirror one. */
  function Perturb(m: Libm, reflectDir: Vector3, r: Vector3, roughness: real, normal: Vector3): (d: Vector3)
    ensures d != reflectDir ==> d.Dot(normal) >= 0.0
  {
    var randomVec := r.Normalize(m);
    var perturbed := reflectDir.Add(randomVec.Scale(roughness)).Normalize(m);
    if perturbed.Dot(normal) < 0.0 then reflectDir else perturbed
  }

  /** Mixing the local colour with the averaged reflection. */
  function BlendReflection(local: Vector3, glossy: Vector3, mat: Material): Vector3 {
    if mat.isMetallic then local.Scale(1.0 - mat.kr).Add(glossy.Mul(mat.color).Scale(mat.kr))
    else local.Scale(1.0 - mat.kr).Add(glossy.Scale(mat.kr))
  }

  /** The refraction parameters after orienting the normal against the ray:
      cos of the incidence angle, the normal used, and the relative index. */
  function Orient(d: Vector3, normal: Vector3, eta: real): (r: (real, Vector3, real))
    requires eta > 0.0
    ensures r.0 >= 0.0 && r.2 > 0.0
  {
    var cosI := -d.Dot(normal);
    if cosI > 0.0 then (cosI, normal, eta)
    else (-cosI, normal.Scale(-1.0), 1.0 / eta)
  }

  /** sin^2 of the refraction angle by Snell's law. */
  function SinT2(eta: real, cosI: real): real { eta * eta * (1.0 - cosI * cosI) }

  /** The refracted direction for relative index eta. */
  function RefractDir(m: Libm, d: Vector3, n: Vector3, eta: real, cosI: real, cosT: real): Vector3 {
    d.Scale(eta).Add(n.Scale(eta * cosI - cosT)).Normalize(m)
  }

  /** Schlick's approximation of the Fresnel reflectance. */
  function Fresnel(m: Libm, eta: real, cosI: real): real
    requires eta > 0.0
  {
    var r0 := ((eta - 1.0) * (eta - 1.0)) / ((eta + 1.0) * (eta + 1.0));
    r0 + (1.0 - r0) * m.pow(1.0 - cosI, 5.0)
  }

  /** The two children mixed by the Fresnel reflectance. */
  function FresnelMix(refractColor: Vector3, reflectColor: Vector3, fresnel: real): Vector3 {
    refractColor.Scale(1.0 - fresnel).Add(reflectColor.Scale(fresnel))
  }

  /** A secondary ray leaving the surface point p offset by e along n. */
  function Offset(m: Libm, p: Vector3, n: Vector3, dir: Vector3): Ray
    requires Lawful(m)
  {
    MakeRay(m, p.Add(n.Scale(0.001)), dir)
  }

  /** The secondary rays of the refraction block: a refracted and a
      reflected ray with the Fresnel reflectance that mixes them, or one
      reflected ray on total internal reflection. */
  datatype Children =
    | Split(refracted: Ray, reflected: Ray, fresnel: real)
    | TotalReflection(reflected: Ray)

  /** The refraction block's geometry: orient, apply Snell's law, and build
      the child rays. The refracted ray starts just below the surface, the
      reflected ones just above it (on the side of the normal used). */
  function Bending(m: Libm, ray: Ray, s: Surface): (c: Children)
    requires Lawful(m) && ValidMaterial(s.mat)
    ensures var (cosI, n, eta) := Orient(ray.direction, s.normal, s.mat.eta);
      c.TotalReflection? <==> SinT2(eta, cosI) >= 1.0
    ensures var (cosI, n, eta) := Orient(ray.direction, s.normal, s.mat.eta);
      c.Split? ==> (c.refracted.origin == s.point.Add(n.Scale(-1.0).Scale(0.001))
        && c.reflected.origin == s.point.Add(s.normal.Scale(0.001)))
    ensures var (cosI, n, eta) := Orient(ray.direction, s.normal, s.mat.eta);
      c.TotalReflection? ==> c.reflected.origin == s.point.Add(n.Scale(0.001))
  {
    var d := ray.direction;
    var (cosI, n, eta) := Orient(d, s.normal, s.mat.eta);
    if SinT2(eta, cosI) < 1.0 then
      var cosT := m.sqrt(1.0 - SinT2(eta, cosI));
      Split(Offset(m, s.point, n.Scale(-1.0), RefractDir(m, d, n, eta, cosI, cosT)),
            Offset(m, s.point, s.normal, Reflect(m, d, s.normal)),
            Fresnel(m, eta, cosI))
    else TotalReflection(Offset(m, s.point, n, Reflect(m, d, n)))
  }

  /** One glossy sample: the child ray along the mirror direction, or on a
      rough surface along the direction perturbed by the random vector at
      the stream position, which is then consumed. */
  function GlossyRay(w: World, s: Surface, reflectDir: Vector3, cursor: nat): (r: (Ray, nat))
    requires Lawful(w.lib)
    ensures r.0.origin == s.point.Add(s.normal.Scale(0.001))
    ensures r.1 == if s.mat.roughness > 0.001 then cursor + 1 else cursor
    ensures s.mat.roughness <= 0.001 ==> r.0 == MakeRay(w.lib, r.0.origin, reflectDir)
  {
    if s.mat.roughness > 0.001 then
      (Offset(w.lib, s.point, s.normal, Perturb(w.lib, reflectDir, w.jitter(cursor), s.mat.roughness, s.normal)), cursor + 1)
    else (Offset(w.lib, s.point, s.normal, reflectDir), cursor)
  }

  // -------------------------------------------------------- specification

  /** Scene::trace: the colour seen along ray at the given depth, and the
      position in the random stream after it. */
  function TraceSpec(w: World, scene: Scene, ray: Ray, depth: nat, cursor: nat): (r: (Vector3, nat))
    requires w.Valid() && scene.Valid()
    ensures depth > MaxDepth ==> r == (scene.bgColor, cursor)
    ensures cursor <= r.1
    ensures depth >= MaxDepth ==> r.1 == cursor
    decreases 7 - depth, 3, 0
  {
    if depth > MaxDepth then (scene.bgColor, cursor)
    else Shade(w, scene, ray, depth, cursor)
  }

  /** Below the depth cut-off: the nearest hit of the ray, shaded
      (background when nothing is hit). */
  function Shade(w: World, scene: Scene, ray: Ray, depth: nat, cursor: nat): (r: (Vector3, nat))
    requires w.Valid() && scene.Valid() && depth <= MaxDepth
    ensures cursor <= r.1
    ensures depth == MaxDepth ==> r.1 == cursor
    decreases 7 - depth, 2, 0
  {
    var st := NearestHit(w.lib, scene, ray);
    if !st.hasHit then (scene.bgColor, cursor)
    else
      NearestHitValid(w.lib, scene, ray);
      var s := SurfaceAt(w, st);
      if s.mat.isRefractive && depth < MaxDepth then Refracted(w, scene, ray, s, depth, cursor)
      else
        var local := LocalColor(w.lib, scene, s);
        if s.mat.kr > 0.0 && depth < MaxDepth then
          var reflectDir := Reflect(w.lib, ray.direction, s.normal);
          var k := Samples(s.mat);
          var (sum, next) := GlossySum(w, scene, s, reflectDir, depth, k, cursor);
          (BlendReflection(local, sum.Scale(1.0 / k as real), s.mat), next)
        else (local, cursor)
  }

  /** The refraction branch: the children of Bending traced in order (the
      refracted one first) and blended by the Fresnel term, or the single
      reflected child. It returns without local lighting. */
  function Refracted(w: World, scene: Scene, ray: Ray, s: Surface, depth: nat, cursor: nat): (r: (Vector3, nat))
    requires w.Valid() && scene.Valid() && ValidMaterial(s.mat) && depth < MaxDepth
    ensures cursor <= r.1
    decreases 7 - depth, 1, 0
  {
    match Bending(w.lib, ray, s)
    case Split(refracted, reflected, fresnel) =>
      var (refractColor, c1) := TraceSpec(w, scene, refracted, depth + 1, cursor);
      var (reflectColor, c2) := TraceSpec(w, scene, reflected, depth + 1, c1);
      (FresnelMix(refractColor, reflectColor, fresnel), c2)
    case TotalReflection(reflected) =>
      TraceSpec(w, scene, reflected, depth + 1, cursor)
  }

  /** The sum of the first i glossy samples and the stream position after
      them. */
  function GlossySum(w: World, scene: Scene, s: Surface, reflectDir: Vector3, depth: nat, i: nat, cursor: nat): (r: (Vector3, nat))
    requires w.Valid() && scene.Valid() && depth < MaxDepth
    ensures cursor <= r.1
    ensures s.mat.roughness > 0.001 ==> cursor + i <= r.1
    decreases 7 - depth, 1, i
  {
    if i == 0 then (Zero, cursor)
    else
      var (sum, c) := GlossySum(w, scene, s, reflectDir, depth, i - 1, cursor);
      var (child, c') := GlossyRay(w, s, reflectDir, c);
      var (color, next) := TraceSpec(w, scene, child, depth + 1, c');
      (sum.Add(color), next)
  }

  // ---------------------------------------------------------------- lemmas

  /** The refraction cut-off: at depth 6 a refractive hit is not refracted
      (nor reflected) and gets exactly its local lighting. */
  lemma RefractionCutOff(w: World, scene: Scene, ray: Ray, cursor: nat)
    requires w.Valid() && scene.Valid()
    requires NearestHit(w.lib, scene, ray).hasHit
    ensures var st := NearestHit(w.lib, scene, ray);
      TraceSpec(w, scene, ray, MaxDepth, cursor) == (LocalColor(w.lib, scene, SurfaceAt(w, st)), cursor)
  {
  }

  /** Below the cut-off a refractive hit returns the refraction result and
      never reaches local lighting or glossy sampling. */
  lemma RefractiveReturnsEarly(w: World, scene: Scene, ray: Ray, depth: nat, cursor: nat)
    requires w.Valid() && scene.Valid() && depth < MaxDepth
    requires NearestHit(w.lib, scene, ray).hasHit
    requires SurfaceAt(w, NearestHit(w.lib, scene, ray)).mat.isRefractive
    ensures var s := SurfaceAt(w, NearestHit(w.lib, scene, ray));
      ValidMaterial(s.mat) && TraceSpec(w, scene, ray, depth, cursor) == Refracted(w, scene, ray, s, depth, cursor)
  {
    NearestHitValid(w.lib, scene, ray);
  }

  /** A rough reflective hit below the cut-off draws at least 16 random
      vectors: one per glossy sample. */
  lemma RoughHitDrawsSixteen(w: World, scene: Scene, ray: Ray, depth: nat, cursor: nat)
    requires w.Valid() && scene.Valid() && depth < MaxDepth
    requires NearestHit(w.lib, scene, ray).hasHit
    requires var s := SurfaceAt(w, NearestHit(w.lib, scene, ray));
      !s.mat.isRefractive && s.mat.kr > 0.0 && s.mat.roughness > 0.001
    ensures cursor + 16 <= TraceSpec(w, scene, ray, depth, cursor).1
  {
  }

  /** A ray that hits nothing below the cut-off sees the background and
      draws no random vectors. */
  lemma NoHitGivesBackground(w: World, scene: Scene, ray: Ray, depth: nat, cursor: nat)
    requires w.Valid() && scene.Valid()
    requires !NearestHit(w.lib, scene, ray).hasHit
    ensures TraceSpec(w, scene, ray, depth, cursor) == (scene.bgColor, cursor)
  {
    if depth <= MaxDepth {
      assert TraceSpec(w, scene, ray, depth, cursor) == Shade(w, scene, ray, depth, cursor);
    }
  }

  /** For an incidence cosine in [0, 1] Schlick's reflectance lies in
      [0, 1], so the refraction block mixes its two children convexly. */
  lemma FresnelInUnit(m: Libm, eta: real, cosI: real)
    requires Lawful(m) && eta > 0.0 && 0.0 <= cosI <= 1.0
    ensures 0.0 <= Fresnel(m, eta, cosI) <= 1.0
  {
    var a, b := (eta - 1.0) * (eta - 1.0), (eta + 1.0) * (eta + 1.0);
    SquareNonNegative(eta - 1.0);
    assert b == a + 4.0 * eta;
    var r0 := a / b;
    DivBelowOne(a, b);
    var p := m.pow(1.0 - cosI, 5.0);
    assert 0.0 <= p <= 1.0;
    MulUnit(p, 1.0 - r0);
  }

  // ---------------------------------------------------------------- method

  /** The sphere and box loops of Scene::trace followed by the plane tests. */
  method FindNearest(m: Libm, scene: Scene, ray: Ray) returns (st: HitState)
    ensures st == NearestHit(m, scene, ray)
  {
    st := NoHit;
    for i := 0 to |scene.spheres|
      invariant st == SphereScan(m, NoHit, scene.spheres[..i], ray)
    {
      var sphere := scene.spheres[i];
      var hit := SphereIntersect(m, sphere, ray);
      if hit.Some? && hit.value < st.tMin {
        var t := hit.value;
        var p := ray.At(t);
        st := HitState(t, p, p.Sub(sphere.center).Normalize(m), sphere.mat, true, false);
      }
      assert scene.spheres[..i + 1][..i] == scene.spheres[..i];
    }
    assert scene.spheres[..|scene.spheres|] == scene.spheres;
    var afterSpheres := st;
    for i := 0 to |scene.boxes|
      invariant st == BoxScan(m, afterSpheres, scene.boxes[..i], ray)
    {
      var box := scene.boxes[i];
      var hit := BoxTest(m, box, ray);
      if hit.BoxHitAt? && hit.t < st.tMin {
        st := HitState(hit.t, ray.At(hit.t), hit.normal, box.mat, true, true);
      }
      assert scene.boxes[..i + 1][..i] == scene.boxes[..i];
    }
    assert scene.boxes[..|scene.boxes|] == scene.boxes;
    ghost var afterBoxes := st;
    st := WallStep(m, st, Floor, ray);
    st := WallStep(m, st, LeftWall, ray);
    st := WallStep(m, st, RightWall, ray);
    st := WallStep(m, st, BackWall, ray);
    st := WallStep(m, st, Ceiling, ray);
    RoomScan(m, afterBoxes, ray);
  }

  /** The two shadow loops, each stopping at the first blocker; the box
      loop runs only when no sphere blocks. */
  method InShadow(m: Libm, scene: Scene, ray: Ray, limit: real) returns (inShadow: bool)
    ensures inShadow == Occluded(m, scene, ray, limit)
  {
    inShadow := false;
    var i := 0;
    while i < |scene.spheres|
      invariant 0 <= i <= |scene.spheres|
      invariant !inShadow ==> forall k :: 0 <= k < i ==> !SphereBlocks(m, scene.spheres[k], ray, limit)
      invariant inShadow ==> AnySphereBlocks(m, scene.spheres, ray, limit)
      decreases |scene.spheres| - i, if inShadow then 0 else 1
    {
      var st := SphereIntersect(m, scene.spheres[i], ray);
      if st.Some? && st.value < limit {
        inShadow := true;
        break;
      }
      i := i + 1;
    }
    if !inShadow {
      var j := 0;
      while j < |scene.boxes|
        invariant 0 <= j <= |scene.boxes|
        invariant !inShadow ==> forall k :: 0 <= k < j ==> !BoxBlocks(m, scene.boxes[k], ray, limit)
        invariant inShadow ==> AnyBoxBlocks(m, scene.boxes, ray, limit)
        decreases |scene.boxes| - j, if inShadow then 0 else 1
      {
        var bt := BoxTest(m, scene.boxes[j], ray);
        if bt.BoxHitAt? && bt.t < limit {
          inShadow := true;
          break;
        }
        j := j + 1;
      }
    }
  }

  /** The local-lighting block of Scene::trace. */
  method Illuminate(m: Libm, scene: Scene, s: Surface) returns (localColor: Vector3)
    requires Lawful(m)
    ensures localColor == LocalColor(m, scene, s)
  {
    var lightDir := scene.lightPos.Sub(s.point).Normalize(m);
    var lightDist := scene.lightPos.Sub(s.point).Length(m);
    var shadowRay := MakeRay(m, s.point.Add(s.normal.Scale(0.001)), lightDir);
    var inShadow := InShadow(m, scene, shadowRay, lightDist - 0.001);
    if !inShadow {
      localColor := Lit(m, scene, s, lightDir, lightDist);
    } else {
      localColor := s.mat.color.Scale(s.mat.ka).Scale(0.5);
    }
  }

  /** Scene::trace: the depth cut-off, then the shading of the nearest hit. */
  method Trace(w: World, scene: Scene, ray: Ray, depth: nat, cursor: nat) returns (color: Vector3, next: nat)
    requires w.Valid() && scene.Valid()
    ensures (color, next) == TraceSpec(w, scene, ray, depth, cursor)
    decreases 7 - depth, 3
  {
    if depth > MaxDepth {
      return scene.bgColor, cursor;
    }
    color, next := ShadeHit(w, scene, ray, depth, cursor);
  }

  /** The rest of Scene::trace: the nearest-hit search, background on a
      miss, the refraction block for glass, else local lighting blended with
      the glossy reflection. */
  method ShadeHit(w: World, scene: Scene, ray: Ray, depth: nat, cursor: nat) returns (color: Vector3, next: nat)
    requires w.Valid() && scene.Valid() && depth <= MaxDepth
    ensures (color, next) == Shade(w, scene, ray, depth, cursor)
    decreases 7 - depth, 2
  {
    var st := FindNearest(w.lib, scene, ray);
    if !st.hasHit {
      return scene.bgColor, cursor;
    }
    NearestHitValid(w.lib, scene, ray);
    var s := SurfaceAt(w, st);
    var mat := s.mat;
    if mat.isRefractive && depth < MaxDepth {
      color, next := Refract(w, scene, ray, s, depth, cursor);
      return;
    }
    var localColor := Illuminate(w.lib, scene, s);
    color, next := localColor, cursor;
    if mat.kr > 0.0 && depth < MaxDepth {
      var reflectDir := Reflect(w.lib, ray.direction, s.normal);
      var samples := Samples(mat);
      var glossy, cur := SampleGlossy(w, scene, s, reflectDir, depth, samples, cursor);
      glossy := glossy.Scale(1.0 / samples as real);
      color := BlendReflection(localColor, glossy, mat);
      next := cur;
    }
  }

  /** The glossy-sampling loop of Scene::trace: each sample perturbs the
      mirror direction on a rough surface and traces one child ray. */
  method SampleGlossy(w: World, scene: Scene, s: Surface, reflectDir: Vector3, depth: nat, samples: nat, cursor: nat)
    returns (glossy: Vector3, cur: nat)
    requires w.Valid() && scene.Valid() && depth < MaxDepth
    ensures (glossy, cur) == GlossySum(w, scene, s, reflectDir, depth, samples, cursor)
    decreases 7 - depth, 1
  {
    var m := w.lib;
    glossy, cur := Zero, cursor;
    for i := 0 to samples
      invariant (glossy, cur) == GlossySum(w, scene, s, reflectDir, depth, i, cursor)
    {
      var dir := reflectDir;
      var drawn := cur;
      if s.mat.roughness > 0.001 {
        dir := Perturb(m, reflectDir, w.jitter(cur), s.mat.roughness, s.normal);
        drawn := cur + 1;
      }
      var child := Offset(m, s.point, s.normal, dir);
      assert (child, drawn) == GlossyRay(w, s, reflectDir, cur);
      var sample, after := Trace(w, scene, child, depth + 1, drawn);
      glossy := glossy.Add(sample);
      cur := after;
    }
  }

  /** The refraction block of Scene::trace. */
  method Refract(w: World, scene: Scene, ray: Ray, s: Surface, depth: nat, cursor: nat) returns (color: Vector3, next: nat)
    requires w.Valid() && scene.Valid() && ValidMaterial(s.mat) && depth < MaxDepth
    ensures (color, next) == Refracted(w, scene, ray, s, depth, cursor)
    decreases 7 - depth, 1
  {
    var children := BendRay(w.lib, ray, s);
    match children
    case Split(refracted, reflected, fresnel) =>
      var refractColor, c1 := Trace(w, scene, refracted, depth + 1, cursor);
      var reflectColor, c2 := Trace(w, scene, reflected, depth + 1, c1);
      color, next := FresnelMix(refractColor, reflectColor, fresnel), c2;
    case TotalReflection(reflected) =>
      color, next := Trace(w, scene, reflected, depth + 1, cursor);
  }

  /** The orientation and Snell's-law steps of the refraction block, with
      the normal, cosine and index flipped in place for a ray leaving the
      medium. */
  method BendRay(m: Libm, ray: Ray, s: Surface) returns (children: Children)
    requires Lawful(m) && ValidMaterial(s.mat)
    ensures children == Bending(m, ray, s)
  {
    var d := ray.direction;
    var cosI, n, eta := -d.Dot(s.normal), s.normal, s.mat.eta;
    var entering := cosI > 0.0;
    if !entering {
      cosI := -cosI;
      n := s.normal.Scale(-1.0);
      eta := 1.0 / eta;
    }
    assert (cosI, n, eta) == Orient(d, s.normal, s.mat.eta);
    var sinT2 := SinT2(eta, cosI);
    if sinT2 < 1.0 {
      var cosT := m.sqrt(1.0 - sinT2);
      var refractDir := RefractDir(m, d, n, eta, cosI, cosT);
      var refractRay := Offset(m, s.point, n.Scale(-1.0), refractDir);
      var fresnel := Fresnel(m, eta, cosI);
      var reflectDir := Reflect(m, d, s.normal);
      children := Split(refractRay, Offset(m, s.point, s.normal, reflectDir), fresnel);
    } else {
      var reflectDir := Reflect(m, d, n);
      children := TotalReflection(Offset(m, s.point, n, reflectDir));
    }
  }
}
