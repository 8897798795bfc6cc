/** The surface description shared by spheres, boxes and the room planes (lab4). */
module Materials {
  import opened Vectors

  datatype Material = Material(
    color: Vector3,
    ka: real,          // ambient coefficient
    kd: real,          // diffuse coefficient
    ks: real,          // specular coefficient
    kr: real,          // reflective coefficient
    shininess: real,   // Phong exponent
    eta: real,         // refractive index
    roughness: real,   // 0 is a perfect mirror
    isRefractive: bool,
    isMetallic: bool)

  /** A default-constructed Material: the member initializers of the struct. */
  const DefaultMaterial := Material(Zero, 0.1, 0.8, 0.2, 0.0, 32.0, 1.0, 0.0, false, false)

  /** The refraction branch divides by eta and by eta + 1. */
  predicate ValidMaterial(mat: Material) { mat.eta > 0.0 }
}
