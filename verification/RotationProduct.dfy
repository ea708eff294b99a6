/** What rotation matrices do to vectors, and the product of quaternions. */
module RotationProduct {
  import opened Rotation

  datatype Vec = Vec(x: real, y: real, z: real)

  function Apply(m: Mat, u: Vec): Vec {
    Vec(m.r00 * u.x + m.r01 * u.y + m.r02 * u.z,
        m.r10 * u.x + m.r11 * u.y + m.r12 * u.z,
        m.r20 * u.x + m.r21 * u.y + m.r22 * u.z)
  }

  /** The scalar part of a product of quaternions. */
  function Scalar(a: real, b: real, c: real, d: real, e: real, f: real, g: real, h: real): real {
    a * e - b * f - c * g - d * h
  }

  /** The first vector component; the others follow by renaming the axes. */
  function First(a: real, b: real, c: real, d: real, e: real, f: real, g: real, h: real): real {
    a * f + b * e + c * h - d * g
  }

  function Product(p: Quat, q: Quat): Quat {
    Quat(Scalar(p.w, p.x, p.y, p.z, q.w, q.x, q.y, q.z), First(p.w, p.x, p.y, p.z, q.w, q.x, q.y, q.z),
         First(p.w, p.y, p.z, p.x, q.w, q.y, q.z, q.x), First(p.w, p.z, p.x, p.y, q.w, q.z, q.x, q.y))
  }

  function Conjugate(q: Quat): Quat {
    Quat(q.w, -q.x, -q.y, -q.z)
  }

  const ONE := Quat(1.0, 0.0, 0.0, 0.0)

  function Pure(u: Vec): Quat {
    Quat(0.0, u.x, u.y, u.z)
  }

  lemma ScalarAssociates(a: real, b: real, c: real, d: real, e: real, f: real, g: real, h: real,
                         i: real, j: real, k: real, l: real)
    ensures Scalar(Scalar(a, b, c, d, e, f, g, h), First(a, b, c, d, e, f, g, h),
                   First(a, c, d, b, e, g, h, f), First(a, d, b, c, e, h, f, g), i, j, k, l)
         == Scalar(a, b, c, d, Scalar(e, f, g, h, i, j, k, l), First(e, f, g, h, i, j, k, l),
                   First(e, g, h, f, i, k, l, j), First(e, h, f, g, i, l, j, k))
  {
  }

  lemma FirstAssociates(a: real, b: real, c: real, d: real, e: real, f: real, g: real, h: real,
                        i: real, j: real, k: real, l: real)
    ensures First(Scalar(a, b, c, d, e, f, g, h), First(a, b, c, d, e, f, g, h),
                  First(a, c, d, b, e, g, h, f), First(a, d, b, c, e, h, f, g), i, j, k, l)
         == First(a, b, c, d, Scalar(e, f, g, h, i, j, k, l), First(e, f, g, h, i, j, k, l),
                  First(e, g, h, f, i, k, l, j), First(e, h, f, g, i, l, j, k))
  {
  }

  lemma ScalarCycles(a: real, b: real, c: real, d: real, e: real, f: real, g: real, h: real)
    ensures Scalar(a, b, c, d, e, f, g, h) == Scalar(a, c, d, b, e, g, h, f) == Scalar(a, d, b, c, e, h, f, g)
  {
  }

  lemma ProductAssociates(p: Quat, q: Quat, r: Quat)
    ensures Product(Product(p, q), r) == Product(p, Product(q, r))
  {
    hide Scalar, First;
    ScalarCycles(p.w, p.x, p.y, p.z, q.w, q.x, q.y, q.z);
    ScalarCycles(q.w, q.x, q.y, q.z, r.w, r.x, r.y, r.z);
    ScalarAssociates(p.w, p.x, p.y, p.z, q.w, q.x, q.y, q.z, r.w, r.x, r.y, r.z);
    FirstAssociates(p.w, p.x, p.y, p.z, q.w, q.x, q.y, q.z, r.w, r.x, r.y, r.z);
    FirstAssociates(p.w, p.y, p.z, p.x, q.w, q.y, q.z, q.x, r.w, r.y, r.z, r.x);
    FirstAssociates(p.w, p.z, p.x, p.y, q.w, q.z, q.x, q.y, r.w, r.z, r.x, r.y);
  }

  lemma FirstReverses(a: real, b: real, c: real, d: real, e: real, f: real, g: real, h: real)
    ensures -First(a, b, c, d, e, f, g, h) == First(e, -f, -g, -h, a, -b, -c, -d)
    ensures Scalar(a, b, c, d, e, f, g, h) == Scalar(e, -f, -g, -h, a, -b, -c, -d)
  {
  }

  lemma ConjugateProduct(p: Quat, q: Quat)
    ensures Conjugate(Product(p, q)) == Product(Conjugate(q), Conjugate(p))
  {
    hide Scalar, First;
    FirstReverses(p.w, p.x, p.y, p.z, q.w, q.x, q.y, q.z);
    FirstReverses(p.w, p.y, p.z, p.x, q.w, q.y, q.z, q.x);
    FirstReverses(p.w, p.z, p.x, p.y, q.w, q.z, q.x, q.y);
  }

  lemma OneIsNeutral(q: Quat)
    ensures Product(ONE, q) == q && Product(q, ONE) == q
  {
  }

  /** Unit quaternions are those whose conjugate is their inverse. */
  lemma UnitInverse(q: Quat)
    ensures Unit(q) <==> Product(q, Conjugate(q)) == ONE
  {
  }

  lemma SandwichFirst(w: real, x: real, y: real, z: real, a: real, b: real, c: real)
    requires Norm(w, x, y, z) == 1.0
    ensures First(Scalar(w, x, y, z, 0.0, a, b, c), First(w, x, y, z, 0.0, a, b, c),
                  First(w, y, z, x, 0.0, b, c, a), First(w, z, x, y, 0.0, c, a, b), w, -x, -y, -z)
         == Diagonal(w, x, y, z) * a + Above(w, x, y, z) * b + Below(w, z, x, y) * c
  {
  }

  /** The same for a matrix row `i j k` that has these entries. */
  lemma SandwichRow(w: real, x: real, y: real, z: real, a: real, b: real, c: real, i: real, j: real, k: real)
    requires Norm(w, x, y, z) == 1.0
    requires i == Diagonal(w, x, y, z) && j == Above(w, x, y, z) && k == Below(w, z, x, y)
    ensures First(Scalar(w, x, y, z, 0.0, a, b, c), First(w, x, y, z, 0.0, a, b, c),
                  First(w, y, z, x, 0.0, b, c, a), First(w, z, x, y, 0.0, c, a, b), w, -x, -y, -z)
         == i * a + j * b + k * c
  {
    hide Scalar, First, Diagonal, Above, Below, Norm;
    SandwichFirst(w, x, y, z, a, b, c);
  }

  lemma SandwichScalar(w: real, x: real, y: real, z: real, a: real, b: real, c: real)
    ensures Scalar(Scalar(w, x, y, z, 0.0, a, b, c), First(w, x, y, z, 0.0, a, b, c),
                   First(w, y, z, x, 0.0, b, c, a), First(w, z, x, y, 0.0, c, a, b), w, -x, -y, -z) == 0.0
  {
  }

  /** Turning a vector by the matrix is the sandwich product: `u` becomes `q u q*`. */
  lemma Sandwich(q: Quat, u: Vec)
    requires Unit(q)
    ensures Product(Product(q, Pure(u)), Conjugate(q)) == Pure(Apply(Quat2Rot(q), u))
  {
    hide Scalar, First, Diagonal, Above, Below, Norm, Unit, Quat2Rot;
    HomogeneousEntries(q);
    var m := Quat2Rot(q);
    ScalarCycles(q.w, q.x, q.y, q.z, 0.0, u.x, u.y, u.z);
    SandwichScalar(q.w, q.x, q.y, q.z, u.x, u.y, u.z);
    SandwichRow(q.w, q.x, q.y, q.z, u.x, u.y, u.z, m.r00, m.r01, m.r02);
    SandwichRow(q.w, q.y, q.z, q.x, u.y, u.z, u.x, m.r11, m.r12, m.r10);
    SandwichRow(q.w, q.z, q.x, q.y, u.z, u.x, u.y, m.r22, m.r20, m.r21);
  }

  lemma UnitProduct(p: Quat, q: Quat)
    requires Unit(p) && Unit(q)
    ensures Unit(Product(p, q))
  {
    hide Product, Unit, Conjugate;
    var (r, pc, qc) := (Product(p, q), Conjugate(p), Conjugate(q));
    UnitInverse(p);
    UnitInverse(q);
    UnitInverse(r);
    ConjugateProduct(p, q);
    ProductAssociates(p, q, Product(qc, pc));
    ProductAssociates(q, qc, pc);
    OneIsNeutral(pc);
  }

  /** The product of two quaternions turns by the second and then by the first: the direction is fixed. */
  lemma ProductComposes(p: Quat, q: Quat, u: Vec)
    requires Unit(p) && Unit(q)
    ensures Unit(Product(p, q))
    ensures Apply(Quat2Rot(Product(p, q)), u) == Apply(Quat2Rot(p), Apply(Quat2Rot(q), u))
  {
    hide Product, Unit, Conjugate, Quat2Rot, Apply;
    var (r, pc, qc, v) := (Product(p, q), Conjugate(p), Conjugate(q), Pure(u));
    UnitProduct(p, q);
    Sandwich(r, u);
    Sandwich(q, u);
    Sandwich(p, Apply(Quat2Rot(q), u));
    ConjugateProduct(p, q);
    // (p q) u (q* p*) == p (q u q*) p*
    ProductAssociates(p, q, v);
    ProductAssociates(Product(r, v), qc, pc);
    ProductAssociates(p, Product(q, v), qc);
  }

  /** A quarter turn about the third axis takes the first axis to the second. */
  lemma QuarterTurn(h: real)
    requires h > 0.0 && h * h == 0.5
    ensures Unit(Quat(h, 0.0, 0.0, h))
    ensures Apply(Quat2Rot(Quat(h, 0.0, 0.0, h)), Vec(1.0, 0.0, 0.0)) == Vec(0.0, 1.0, 0.0)
  {
  }
}
