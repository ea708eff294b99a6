/**
 Quaternions and rotation matrices over exact reals.  Square roots enter as a number `root` with
 the right square, so nothing is assumed about a square root function.
 */
module Rotation {
  import opened Arithmetic

  datatype Quat = Quat(w: real, x: real, y: real, z: real)

  datatype Mat = Mat(
    r00: real, r01: real, r02: real,
    r10: real, r11: real, r12: real,
    r20: real, r21: real, r22: real)

  function Neg(q: Quat): Quat {
    Quat(-q.w, -q.x, -q.y, -q.z)
  }

  ghost predicate Unit(q: Quat) {
    Mul(q.w, q.w) + Mul(q.x, q.x) + Mul(q.y, q.y) + Mul(q.z, q.z) == 1.0
  }

  function Quat2Rot(q: Quat): Mat {
    var (xx, yy, zz) := (Mul(q.x, q.x), Mul(q.y, q.y), Mul(q.z, q.z));
    var (xy, xz, yz) := (Mul(q.x, q.y), Mul(q.x, q.z), Mul(q.y, q.z));
    var (wx, wy, wz) := (Mul(q.w, q.x), Mul(q.w, q.y), Mul(q.w, q.z));
    Mat(1.0 - 2.0 * (yy + zz), 2.0 * (xy - wz), 2.0 * (xz + wy),
        2.0 * (xy + wz), 1.0 - 2.0 * (xx + zz), 2.0 * (yz - wx),
        2.0 * (xz - wy), 2.0 * (yz + wx), 1.0 - 2.0 * (xx + yy))
  }

  /** Which component the conversion divides by. */
  datatype Branch = ByW | ByX | ByY | ByZ

  function Trace(m: Mat): real {
    m.r00 + m.r11 + m.r22
  }

  function BranchOf(m: Mat): Branch {
    if Trace(m) > 0.0 then ByW
    else if m.r00 > m.r11 && m.r00 > m.r22 then ByX
    else if m.r11 > m.r22 then ByY
    else ByZ
  }

  /** The number under the square root. */
  function Radicand(m: Mat): real {
    match BranchOf(m)
    case ByW => Trace(m) + 1.0
    case ByX => 1.0 + m.r00 - m.r11 - m.r22
    case ByY => 1.0 + m.r11 - m.r00 - m.r22
    case ByZ => 1.0 + m.r22 - m.r00 - m.r11
  }

  /** The quaternion before its sign is fixed. */
  function Unsigned(m: Mat, root: real): Quat
    requires root > 0.0
  {
    match BranchOf(m)
    case ByW =>
      var s := 0.5 / root;
      Quat(0.25 / s, Mul(m.r21 - m.r12, s), Mul(m.r02 - m.r20, s), Mul(m.r10 - m.r01, s))
    case ByX =>
      var s := 2.0 * root;
      Quat((m.r21 - m.r12) / s, 0.25 * s, (m.r01 + m.r10) / s, (m.r02 + m.r20) / s)
    case ByY =>
      var s := 2.0 * root;
      Quat((m.r02 - m.r20) / s, (m.r01 + m.r10) / s, 0.25 * s, (m.r12 + m.r21) / s)
    case ByZ =>
      var s := 2.0 * root;
      Quat((m.r10 - m.r01) / s, (m.r02 + m.r20) / s, (m.r12 + m.r21) / s, 0.25 * s)
  }

  /** The quaternion of a rotation matrix, with non-negative scalar part; `root` is the root of the radicand. */
  function Rot2Quat(m: Mat, root: real): (q: Quat)
    requires root > 0.0
    ensures q.w >= 0.0
  {
    var q := Unsigned(m, root);
    if q.w < 0.0 then Neg(q) else q
  }

  // ---------- quaternion to matrix and back ----------

  /** The component that the branch divides by. */
  function Pivot(b: Branch, q: Quat): real {
    match b
    case ByW => q.w
    case ByX => q.x
    case ByY => q.y
    case ByZ => q.z
  }

  lemma Square(a: real)
    ensures Mul(a, a) >= 0.0 && (a == 0.0 ==> Mul(a, a) == 0.0) && Mul(-a, -a) == Mul(a, a)
  {
  }

  lemma MulSigns(a: real, b: real)
    ensures Mul(-a, -b) == Mul(a, b) && Mul(a, b) == Mul(b, a)
  {
  }

  /** In every branch the radicand is four times the square of a component that cannot vanish. */
  lemma RadicandIsPivot(q: Quat)
    requires Unit(q)
    ensures var m := Quat2Rot(q);
            var p := Pivot(BranchOf(m), q);
            Radicand(m) == 4.0 * Mul(p, p) && p != 0.0
  {
  }

  lemma RootOfSquare(root: real, p: real)
    requires root >= 0.0 && root * root == 4.0 * Mul(p, p)
    ensures root == 2.0 * p || root == -2.0 * p
  {
  }

  lemma DivideByPivot(a: real, p: real, c: real, root: real)
    requires root > 0.0 && root == 2.0 * p && a == 4.0 * Mul(p, c)
    ensures a / (2.0 * root) == c
  {
  }

  lemma ScaleByPivot(a: real, p: real, c: real, root: real)
    requires root > 0.0 && root == 2.0 * p && a == 4.0 * Mul(p, c)
    ensures Mul(a, 0.5 / root) == c
  {
  }

  lemma HalfRoot(root: real)
    requires root > 0.0
    ensures 0.5 / root > 0.0 && 0.25 / (0.5 / root) == 0.5 * root
  {
  }

  /** Up to sign, the conversion recovers the quaternion whichever component it divides by. */
  lemma UnsignedIsQuat(q: Quat, root: real)
    requires root > 0.0
    requires root == 2.0 * Pivot(BranchOf(Quat2Rot(q)), q)
    ensures Unsigned(Quat2Rot(q), root) == q
  {
    hide Mul;
    var m := Quat2Rot(q);
    MulSigns(q.w, q.x);
    MulSigns(q.w, q.y);
    MulSigns(q.w, q.z);
    MulSigns(q.x, q.y);
    MulSigns(q.x, q.z);
    MulSigns(q.y, q.z);
    match BranchOf(m)
    case ByW =>
      HalfRoot(root);
      ScaleByPivot(m.r21 - m.r12, q.w, q.x, root);
      ScaleByPivot(m.r02 - m.r20, q.w, q.y, root);
      ScaleByPivot(m.r10 - m.r01, q.w, q.z, root);
    case ByX =>
      DivideByPivot(m.r21 - m.r12, q.x, q.w, root);
      DivideByPivot(m.r01 + m.r10, q.x, q.y, root);
      DivideByPivot(m.r02 + m.r20, q.x, q.z, root);
    case ByY =>
      DivideByPivot(m.r02 - m.r20, q.y, q.w, root);
      DivideByPivot(m.r01 + m.r10, q.y, q.x, root);
      DivideByPivot(m.r12 + m.r21, q.y, q.z, root);
    case ByZ =>
      DivideByPivot(m.r10 - m.r01, q.z, q.w, root);
      DivideByPivot(m.r02 + m.r20, q.z, q.x, root);
      DivideByPivot(m.r12 + m.r21, q.z, q.y, root);
  }

  lemma NegSameRotation(q: Quat)
    ensures Quat2Rot(Neg(q)) == Quat2Rot(q)
  {
  }

  /**
   For every unit quaternion the divisors do not vanish, and the round trip gives it back with
   non-negative scalar part.
   */
  lemma QuatRoundTrip(q: Quat, root: real)
    requires Unit(q)
    requires root >= 0.0 && root * root == Radicand(Quat2Rot(q))
    ensures root > 0.0
    ensures q.w > 0.0 ==> Rot2Quat(Quat2Rot(q), root) == q
    ensures q.w < 0.0 ==> Rot2Quat(Quat2Rot(q), root) == Neg(q)
    ensures q.w == 0.0 ==> Rot2Quat(Quat2Rot(q), root) in {q, Neg(q)}
  {
    hide Quat2Rot, BranchOf, Unsigned, Mul, Unit;
    var m := Quat2Rot(q);
    var p := Pivot(BranchOf(m), q);
    RadicandIsPivot(q);
    RootOfSquare(root, p);
    if root == 2.0 * p {
      UnsignedIsQuat(q, root);
    } else {
      NegSameRotation(q);
      UnsignedIsQuat(Neg(q), root);
    }
  }

  // ---------- matrix to quaternion and back ----------

  /** Rows are orthonormal and the determinant is one. */
  ghost predicate OrthonormalRows(a: real, b: real, c: real, d: real, e: real, f: real, g: real, h: real, i: real) {
    && a * a + b * b + c * c == 1.0 && d * d + e * e + f * f == 1.0 && g * g + h * h + i * i == 1.0
    && a * d + b * e + c * f == 0.0 && a * g + b * h + c * i == 0.0 && d * g + e * h + f * i == 0.0
    && a * (e * i - f * h) + b * (f * g - d * i) + c * (d * h - e * g) == 1.0
  }

  ghost predicate IsRotation(m: Mat) {
    OrthonormalRows(m.r00, m.r01, m.r02, m.r10, m.r11, m.r12, m.r20, m.r21, m.r22)
  }

  lemma PositiveProduct(p: real, q: real)
    requires p > 0.0 && q > 0.0
    ensures Mul(p, q) > 0.0
  {
  }

  lemma PositiveSquare(p: real)
    ensures p == 0.0 || Mul(p, p) > 0.0
  {
    hide Mul;
    Square(p);
    if p > 0.0 {
      PositiveProduct(p, p);
    } else if p < 0.0 {
      PositiveProduct(-p, -p);
    }
  }

  lemma SumOfSquaresZero(p: real, q: real, r: real)
    requires Mul(p, p) + Mul(q, q) + Mul(r, r) == 0.0
    ensures p == 0.0 && q == 0.0 && r == 0.0
  {
    hide Mul;
    PositiveSquare(p);
    PositiveSquare(q);
    PositiveSquare(r);
    Square(p);
    Square(q);
    Square(r);
  }

  /** Lagrange's identity. */
  lemma CrossNorm(d: real, e: real, f: real, g: real, h: real, i: real)
    ensures (e * i - f * h) * (e * i - f * h) + (f * g - d * i) * (f * g - d * i) + (d * h - e * g) * (d * h - e * g)
         == (d * d + e * e + f * f) * (g * g + h * h + i * i) - (d * g + e * h + f * i) * (d * g + e * h + f * i)
  {
  }

  lemma DistanceSquared(a: real, b: real, c: real, x: real, y: real, z: real)
    ensures Mul(a - x, a - x) + Mul(b - y, b - y) + Mul(c - z, c - z)
         == (a * a + b * b + c * c) - 2.0 * (a * x + b * y + c * z) + (x * x + y * y + z * z)
  {
  }

  lemma UnitVectorsMeet(a: real, b: real, c: real, x: real, y: real, z: real)
    requires a * a + b * b + c * c == 1.0 && x * x + y * y + z * z == 1.0 && a * x + b * y + c * z == 1.0
    ensures a == x && b == y && c == z
  {
    DistanceSquared(a, b, c, x, y, z);
    SumOfSquaresZero(a - x, b - y, c - z);
  }

  /** A unit vector whose triple product with two orthonormal ones is one is their cross product. */
  lemma CrossProduct(a: real, b: real, c: real, d: real, e: real, f: real, g: real, h: real, i: real)
    requires a * a + b * b + c * c == 1.0 && d * d + e * e + f * f == 1.0 && g * g + h * h + i * i == 1.0
    requires d * g + e * h + f * i == 0.0
    requires a * (e * i - f * h) + b * (f * g - d * i) + c * (d * h - e * g) == 1.0
    ensures a == e * i - f * h && b == f * g - d * i && c == d * h - e * g
  {
    CrossIsUnit(d, e, f, g, h, i);
    UnitVectorsMeet(a, b, c, e * i - f * h, f * g - d * i, d * h - e * g);
  }

  lemma CrossIsUnit(d: real, e: real, f: real, g: real, h: real, i: real)
    requires d * d + e * e + f * f == 1.0 && g * g + h * h + i * i == 1.0 && d * g + e * h + f * i == 0.0
    ensures (e * i - f * h) * (e * i - f * h) + (f * g - d * i) * (f * g - d * i) + (d * h - e * g) * (d * h - e * g)
         == 1.0
  {
    CrossNorm(d, e, f, g, h, i);
  }

  /** The nine entries are their own cofactors, and rows and columns are orthonormal. */
  ghost predicate Orthogonal(a: real, b: real, c: real, d: real, e: real, f: real, g: real, h: real, i: real) {
    && a == e * i - f * h && b == f * g - d * i && c == d * h - e * g
    && d == c * h - b * i && e == a * i - c * g && f == b * g - a * h
    && g == b * f - c * e && h == c * d - a * f && i == a * e - b * d
    && a * a + b * b + c * c == 1.0 && d * d + e * e + f * f == 1.0 && g * g + h * h + i * i == 1.0
    && a * d + b * e + c * f == 0.0 && a * g + b * h + c * i == 0.0 && d * g + e * h + f * i == 0.0
    && a * a + d * d + g * g == 1.0 && b * b + e * e + h * h == 1.0 && c * c + f * f + i * i == 1.0
    && a * b + d * e + g * h == 0.0 && a * c + d * f + g * i == 0.0 && b * c + e * f + h * i == 0.0
  }

  lemma TripleProductCycles(a: real, b: real, c: real, d: real, e: real, f: real, g: real, h: real, i: real)
    ensures a * (e * i - f * h) + b * (f * g - d * i) + c * (d * h - e * g)
         == d * (h * c - i * b) + e * (i * a - g * c) + f * (g * b - h * a)
  {
  }

  lemma RotationCofactors(a: real, b: real, c: real, d: real, e: real, f: real, g: real, h: real, i: real)
    requires OrthonormalRows(a, b, c, d, e, f, g, h, i)
    ensures a == e * i - f * h && b == f * g - d * i && c == d * h - e * g
    ensures d == c * h - b * i && e == a * i - c * g && f == b * g - a * h
    ensures g == b * f - c * e && h == c * d - a * f && i == a * e - b * d
  {
    TripleProductCycles(a, b, c, d, e, f, g, h, i);
    TripleProductCycles(d, e, f, g, h, i, a, b, c);
    CrossProduct(a, b, c, d, e, f, g, h, i);
    CrossProduct(d, e, f, g, h, i, a, b, c);
    CrossProduct(g, h, i, a, b, c, d, e, f);
  }

  lemma RotationOrthogonal(a: real, b: real, c: real, d: real, e: real, f: real, g: real, h: real, i: real)
    requires OrthonormalRows(a, b, c, d, e, f, g, h, i)
    ensures Orthogonal(a, b, c, d, e, f, g, h, i)
  {
    RotationCofactors(a, b, c, d, e, f, g, h, i);
    ColumnFacts(a, b, c, d, e, f, g, h, i);
  }

  lemma ColumnFacts(a: real, b: real, c: real, d: real, e: real, f: real, g: real, h: real, i: real)
    requires a == e * i - f * h && b == f * g - d * i && c == d * h - e * g
    requires d == c * h - b * i && e == a * i - c * g && f == b * g - a * h
    requires g == b * f - c * e && h == c * d - a * f && i == a * e - b * d
    requires a * (e * i - f * h) + b * (f * g - d * i) + c * (d * h - e * g) == 1.0
    ensures a * a + d * d + g * g == 1.0 && b * b + e * e + h * h == 1.0 && c * c + f * f + i * i == 1.0
    ensures a * b + d * e + g * h == 0.0 && a * c + d * f + g * i == 0.0 && b * c + e * f + h * i == 0.0
  {
  }

  // Renaming the axes cyclically turns each of the next identities into two more.

  lemma IdentityWX(a: real, b: real, c: real, d: real, e: real, f: real, g: real, h: real, i: real)
    requires Orthogonal(a, b, c, d, e, f, g, h, i)
    ensures Mul(h - f, h - f) == Mul(1.0 + a + e + i, 1.0 + a - e - i)
  {
  }

  lemma IdentityXY(a: real, b: real, c: real, d: real, e: real, f: real, g: real, h: real, i: real)
    requires Orthogonal(a, b, c, d, e, f, g, h, i)
    ensures Mul(b + d, b + d) == Mul(1.0 + a - e - i, 1.0 - a + e - i)
  {
  }

  lemma IdentityWxWy(a: real, b: real, c: real, d: real, e: real, f: real, g: real, h: real, i: real)
    requires Orthogonal(a, b, c, d, e, f, g, h, i)
    ensures Mul(h - f, c - g) == Mul(1.0 + a + e + i, b + d)
  {
  }

  lemma IdentityXwXy(a: real, b: real, c: real, d: real, e: real, f: real, g: real, h: real, i: real)
    requires Orthogonal(a, b, c, d, e, f, g, h, i)
    ensures Mul(h - f, b + d) == Mul(1.0 + a - e - i, c - g)
  {
  }

  lemma IdentityXwXz(a: real, b: real, c: real, d: real, e: real, f: real, g: real, h: real, i: real)
    requires Orthogonal(a, b, c, d, e, f, g, h, i)
    ensures Mul(h - f, c + g) == Mul(1.0 + a - e - i, d - b)
  {
  }

  lemma IdentityXyXz(a: real, b: real, c: real, d: real, e: real, f: real, g: real, h: real, i: real)
    requires Orthogonal(a, b, c, d, e, f, g, h, i)
    ensures Mul(b + d, c + g) == Mul(1.0 + a - e - i, f + h)
  {
  }

  /** Four times the products of the components of the quaternion, read off the matrix. */
  datatype Kernel = Kernel(ww: real, xx: real, yy: real, zz: real,
                           wx: real, wy: real, wz: real, xy: real, xz: real, yz: real)

  function KernelOf(m: Mat): Kernel {
    Kernel(1.0 + m.r00 + m.r11 + m.r22, 1.0 + m.r00 - m.r11 - m.r22,
           1.0 - m.r00 + m.r11 - m.r22, 1.0 - m.r00 - m.r11 + m.r22,
           m.r21 - m.r12, m.r02 - m.r20, m.r10 - m.r01,
           m.r01 + m.r10, m.r02 + m.r20, m.r12 + m.r21)
  }

  /** The row of the kernel that the branch scales to a quaternion. */
  function RowOf(k: Kernel, b: Branch): Quat {
    match b
    case ByW => Quat(k.ww, k.wx, k.wy, k.wz)
    case ByX => Quat(k.wx, k.xx, k.xy, k.xz)
    case ByY => Quat(k.wy, k.xy, k.yy, k.yz)
    case ByZ => Quat(k.wz, k.xz, k.yz, k.zz)
  }

  /** Products of two entries of the row are the pivot times the kernel entry: the kernel has rank one. */
  ghost predicate RankOne(k: Kernel, r: Quat, p: real) {
    && Mul(r.w, r.w) == Mul(p, k.ww) && Mul(r.x, r.x) == Mul(p, k.xx)
    && Mul(r.y, r.y) == Mul(p, k.yy) && Mul(r.z, r.z) == Mul(p, k.zz)
    && Mul(r.w, r.x) == Mul(p, k.wx) && Mul(r.w, r.y) == Mul(p, k.wy) && Mul(r.w, r.z) == Mul(p, k.wz)
    && Mul(r.x, r.y) == Mul(p, k.xy) && Mul(r.x, r.z) == Mul(p, k.xz) && Mul(r.y, r.z) == Mul(p, k.yz)
  }

  ghost predicate OrthogonalMat(m: Mat) {
    Orthogonal(m.r00, m.r01, m.r02, m.r10, m.r11, m.r12, m.r20, m.r21, m.r22)
  }

  /** The matrix with its axes renamed cyclically. */
  function Cycle(m: Mat): Mat {
    Mat(m.r11, m.r12, m.r10, m.r21, m.r22, m.r20, m.r01, m.r02, m.r00)
  }

  lemma CycleOrthogonal(m: Mat)
    requires OrthogonalMat(m)
    ensures OrthogonalMat(Cycle(m))
  {
  }

  /** The identities around the first axis. */
  lemma AxisIdentities(m: Mat)
    requires OrthogonalMat(m)
    ensures var k := KernelOf(m);
            && Mul(k.wx, k.wx) == Mul(k.ww, k.xx) == Mul(k.xx, k.ww)
            && Mul(k.xy, k.xy) == Mul(k.xx, k.yy) == Mul(k.yy, k.xx)
            && Mul(k.wx, k.wy) == Mul(k.wy, k.wx) == Mul(k.ww, k.xy)
            && Mul(k.wx, k.xy) == Mul(k.xx, k.wy)
            && Mul(k.wx, k.xz) == Mul(k.xx, k.wz)
            && Mul(k.xy, k.xz) == Mul(k.xz, k.xy) == Mul(k.xx, k.yz)
            && Mul(k.wx, k.xx) == Mul(k.xx, k.wx) && Mul(k.xy, k.xx) == Mul(k.xx, k.xy)
            && Mul(k.xz, k.xx) == Mul(k.xx, k.xz)
  {
    hide Mul, Orthogonal;
    var Mat(a, b, c, d, e, f, g, h, i) := m;
    var k := KernelOf(m);
    IdentityWX(a, b, c, d, e, f, g, h, i);
    IdentityXY(a, b, c, d, e, f, g, h, i);
    IdentityWxWy(a, b, c, d, e, f, g, h, i);
    IdentityXwXy(a, b, c, d, e, f, g, h, i);
    IdentityXwXz(a, b, c, d, e, f, g, h, i);
    IdentityXyXz(a, b, c, d, e, f, g, h, i);
    MulSigns(k.ww, k.xx);
    MulSigns(k.xx, k.yy);
    MulSigns(k.wx, k.wy);
    MulSigns(k.xy, k.xz);
    MulSigns(k.wx, k.xx);
    MulSigns(k.xy, k.xx);
    MulSigns(k.xz, k.xx);
  }

  lemma CycleKernel(m: Mat)
    ensures var k, c := KernelOf(m), KernelOf(Cycle(m));
            c == Kernel(k.ww, k.yy, k.zz, k.xx, k.wy, k.wz, k.wx, k.yz, k.xy, k.xz)
  {
  }

  /** Whatever the branch, the chosen row generates the whole kernel. */
  lemma KernelRankOne(m: Mat, b: Branch)
    requires OrthogonalMat(m)
    ensures var k := KernelOf(m);
            RankOne(k, RowOf(k, b), Pivot(b, Quat(k.ww, k.xx, k.yy, k.zz)))
  {
    hide Mul, KernelOf, OrthogonalMat;
    AxisIdentities(m);
    CycleOrthogonal(m);
    AxisIdentities(Cycle(m));
    CycleOrthogonal(Cycle(m));
    AxisIdentities(Cycle(Cycle(m)));
    CycleKernel(m);
    CycleKernel(Cycle(m));
    hide Cycle;
  }

  /** The pivot of the branch is positive on every rotation: it is the largest of four numbers with sum four. */
  lemma RadicandPositive(m: Mat)
    ensures var k := KernelOf(m);
            Radicand(m) == Pivot(BranchOf(m), Quat(k.ww, k.xx, k.yy, k.zz)) > 0.0
  {
  }

  lemma ScaledProduct(a: real, b: real, root: real, p: real, entry: real)
    requires root > 0.0 && root * root == p > 0.0 && Mul(a, b) == Mul(p, entry)
    ensures Mul(a / (2.0 * root), b / (2.0 * root)) == entry / 4.0
  {
  }

  /** The products of the components of `q` are a quarter of the kernel. */
  ghost predicate QuarterProducts(k: Kernel, q: Quat) {
    && Mul(q.w, q.w) == k.ww / 4.0 && Mul(q.x, q.x) == k.xx / 4.0
    && Mul(q.y, q.y) == k.yy / 4.0 && Mul(q.z, q.z) == k.zz / 4.0
    && Mul(q.w, q.x) == k.wx / 4.0 && Mul(q.w, q.y) == k.wy / 4.0 && Mul(q.w, q.z) == k.wz / 4.0
    && Mul(q.x, q.y) == k.xy / 4.0 && Mul(q.x, q.z) == k.xz / 4.0 && Mul(q.y, q.z) == k.yz / 4.0
  }

  lemma ScaledRowProducts(k: Kernel, r: Quat, root: real, p: real)
    requires root > 0.0 && root * root == p > 0.0 && RankOne(k, r, p)
    ensures QuarterProducts(k, Quat(r.w / (2.0 * root), r.x / (2.0 * root), r.y / (2.0 * root), r.z / (2.0 * root)))
  {
    hide Mul;
    ScaledProduct(r.w, r.w, root, p, k.ww);
    ScaledProduct(r.x, r.x, root, p, k.xx);
    ScaledProduct(r.y, r.y, root, p, k.yy);
    ScaledProduct(r.z, r.z, root, p, k.zz);
    ScaledProduct(r.w, r.x, root, p, k.wx);
    ScaledProduct(r.w, r.y, root, p, k.wy);
    ScaledProduct(r.w, r.z, root, p, k.wz);
    ScaledProduct(r.x, r.y, root, p, k.xy);
    ScaledProduct(r.x, r.z, root, p, k.xz);
    ScaledProduct(r.y, r.z, root, p, k.yz);
  }

  /** The conversion scales the chosen row of the kernel. */
  lemma UnsignedIsScaledRow(m: Mat, root: real)
    requires root > 0.0 && root * root == Radicand(m)
    ensures var r := RowOf(KernelOf(m), BranchOf(m));
            var s := 2.0 * root;
            Unsigned(m, root) == Quat(r.w / s, r.x / s, r.y / s, r.z / s)
  {
    HalfOfRoot(root, Radicand(m));
    HalfRoot(root);
    ScaleIsDivide(m.r21 - m.r12, root);
    ScaleIsDivide(m.r02 - m.r20, root);
    ScaleIsDivide(m.r10 - m.r01, root);
    hide Mul;
  }

  lemma HalfOfRoot(root: real, p: real)
    requires root > 0.0 && root * root == p
    ensures p / (2.0 * root) == 0.5 * root
  {
  }

  lemma ScaleIsDivide(a: real, root: real)
    requires root > 0.0
    ensures Mul(a, 0.5 / root) == a / (2.0 * root)
  {
  }

  lemma FromKernel(m: Mat, q: Quat)
    requires QuarterProducts(KernelOf(m), q)
    ensures Unit(q) && Quat2Rot(q) == m
  {
  }

  lemma MatOrthogonal(m: Mat)
    requires IsRotation(m)
    ensures OrthogonalMat(m)
  {
    hide Orthogonal, OrthonormalRows;
    RotationOrthogonal(m.r00, m.r01, m.r02, m.r10, m.r11, m.r12, m.r20, m.r21, m.r22);
  }

  /** On every rotation matrix the conversion yields a unit quaternion that converts back to the matrix. */
  lemma MatRoundTrip(m: Mat, root: real)
    requires IsRotation(m)
    requires root >= 0.0 && root * root == Radicand(m)
    ensures root > 0.0
    ensures Unit(Rot2Quat(m, root)) && Quat2Rot(Rot2Quat(m, root)) == m
  {
    hide IsRotation, OrthogonalMat, RankOne, QuarterProducts, Mul, Quat2Rot, Unsigned;
    hide KernelOf, RowOf, Unit, Radicand, BranchOf;
    MatOrthogonal(m);
    RadicandPositive(m);
    var k, r := KernelOf(m), RowOf(KernelOf(m), BranchOf(m));
    KernelRankOne(m, BranchOf(m));
    ScaledRowProducts(k, r, root, Radicand(m));
    UnsignedIsScaledRow(m, root);
    var q := Unsigned(m, root);
    FromKernel(m, q);
    NegSameRotation(q);
    NegUnit(q);
  }

  lemma NegUnit(q: Quat)
    requires Unit(q)
    ensures Unit(Neg(q))
  {
  }

  // The rotation matrix of any quaternion, in homogeneous form: entries are quadratic in the components.

  function Diagonal(w: real, x: real, y: real, z: real): real {
    w * w + x * x - y * y - z * z
  }

  function Above(w: real, x: real, y: real, z: real): real {
    2.0 * (x * y - w * z)
  }

  function Below(w: real, x: real, y: real, z: real): real {
    2.0 * (x * y + w * z)
  }

  function Norm(w: real, x: real, y: real, z: real): real {
    w * w + x * x + y * y + z * z
  }

  lemma RowNorm(w: real, x: real, y: real, z: real)
    ensures var (a, b, c) := (Diagonal(w, x, y, z), Above(w, x, y, z), Below(w, z, x, y));
            a * a + b * b + c * c == Norm(w, x, y, z) * Norm(w, x, y, z)
  {
  }

  lemma RowsOrthogonal(w: real, x: real, y: real, z: real)
    ensures var (a, b, c) := (Diagonal(w, x, y, z), Above(w, x, y, z), Below(w, z, x, y));
            var (d, e, f) := (Below(w, x, y, z), Diagonal(w, y, z, x), Above(w, y, z, x));
            a * d + b * e + c * f == 0.0
  {
  }

  lemma CrossDiagonal(w: real, x: real, y: real, z: real)
    ensures Diagonal(w, y, z, x) * Diagonal(w, z, x, y) - Above(w, y, z, x) * Below(w, y, z, x)
         == Norm(w, x, y, z) * Diagonal(w, x, y, z)
  {
  }

  lemma CrossAbove(w: real, x: real, y: real, z: real)
    ensures Above(w, y, z, x) * Above(w, z, x, y) - Below(w, x, y, z) * Diagonal(w, z, x, y)
         == Norm(w, x, y, z) * Above(w, x, y, z)
  {
  }

  lemma CrossBelow(w: real, x: real, y: real, z: real)
    ensures Below(w, x, y, z) * Below(w, y, z, x) - Diagonal(w, y, z, x) * Above(w, z, x, y)
         == Norm(w, x, y, z) * Below(w, z, x, y)
  {
  }

  lemma HomogeneousEntries(q: Quat)
    requires Unit(q)
    ensures var (w, x, y, z) := (q.w, q.x, q.y, q.z);
            && Norm(w, x, y, z) == Norm(w, y, z, x) == Norm(w, z, x, y) == 1.0
            && Quat2Rot(q) == Mat(Diagonal(w, x, y, z), Above(w, x, y, z), Below(w, z, x, y),
                                  Below(w, x, y, z), Diagonal(w, y, z, x), Above(w, y, z, x),
                                  Above(w, z, x, y), Below(w, y, z, x), Diagonal(w, z, x, y))
  {
  }

  /** The matrix of a unit quaternion is a rotation, so each conversion inverts the other on its whole domain. */
  lemma QuatGivesRotation(q: Quat)
    requires Unit(q)
    ensures IsRotation(Quat2Rot(q))
  {
    hide Unit, Quat2Rot, Diagonal, Above, Below, Norm, UnitBeside, CrossRows, IsRotation;
    var (w, x, y, z) := (q.w, q.x, q.y, q.z);
    HomogeneousEntries(q);
    var m := Quat2Rot(q);
    UnitRow(w, x, y, z, m.r00, m.r01, m.r02, m.r10, m.r11, m.r12);
    UnitRow(w, y, z, x, m.r11, m.r12, m.r10, m.r21, m.r22, m.r20);
    UnitRow(w, z, x, y, m.r22, m.r20, m.r21, m.r02, m.r00, m.r01);
    FirstCofactors(w, x, y, z, m);
    UnitRows(m);
  }

  /** `a b c` is a unit vector and orthogonal to `d e f`. */
  ghost predicate UnitBeside(a: real, b: real, c: real, d: real, e: real, f: real) {
    a * a + b * b + c * c == 1.0 && a * d + b * e + c * f == 0.0
  }

  /** The first row is the cross product of the other two. */
  ghost predicate CrossRows(m: Mat) {
    && m.r11 * m.r22 - m.r12 * m.r21 == m.r00
    && m.r12 * m.r20 - m.r10 * m.r22 == m.r01
    && m.r10 * m.r21 - m.r11 * m.r20 == m.r02
  }

  /** Of a unit quaternion the first row, `a b c`, is a unit vector and orthogonal to the second, `d e f`. */
  lemma UnitRow(w: real, x: real, y: real, z: real, a: real, b: real, c: real, d: real, e: real, f: real)
    requires Norm(w, x, y, z) == 1.0
    requires a == Diagonal(w, x, y, z) && b == Above(w, x, y, z) && c == Below(w, z, x, y)
    requires d == Below(w, x, y, z) && e == Diagonal(w, y, z, x) && f == Above(w, y, z, x)
    ensures UnitBeside(a, b, c, d, e, f)
  {
    hide Norm, Diagonal, Above, Below;
    RowNorm(w, x, y, z);
    RowsOrthogonal(w, x, y, z);
  }

  lemma FirstCofactors(w: real, x: real, y: real, z: real, m: Mat)
    requires Norm(w, x, y, z) == 1.0
    requires m == Mat(Diagonal(w, x, y, z), Above(w, x, y, z), Below(w, z, x, y),
                      Below(w, x, y, z), Diagonal(w, y, z, x), Above(w, y, z, x),
                      Above(w, z, x, y), Below(w, y, z, x), Diagonal(w, z, x, y))
    ensures CrossRows(m)
  {
    hide Norm, Diagonal, Above, Below;
    CrossDiagonal(w, x, y, z);
    CrossAbove(w, x, y, z);
    CrossBelow(w, x, y, z);
  }

  lemma UnitRows(m: Mat)
    requires UnitBeside(m.r00, m.r01, m.r02, m.r10, m.r11, m.r12)
    requires UnitBeside(m.r11, m.r12, m.r10, m.r21, m.r22, m.r20)
    requires UnitBeside(m.r22, m.r20, m.r21, m.r02, m.r00, m.r01)
    requires CrossRows(m)
    ensures IsRotation(m)
  {
  }

  /** Two unit quaternions describe the same rotation exactly when they are equal or opposite. */
  lemma DoubleCover(q: Quat, r: Quat)
    requires Unit(q) && Unit(r)
    ensures Quat2Rot(q) == Quat2Rot(r) <==> r == q || r == Neg(q)
  {
    hide Quat2Rot, BranchOf, Radicand, Mul, Unit, Rot2Quat;
    NegSameRotation(q);
    if Quat2Rot(q) == Quat2Rot(r) {
      RadicandIsPivot(q);
      var p := Pivot(BranchOf(Quat2Rot(q)), q);
      var root := if p >= 0.0 then 2.0 * p else -2.0 * p;
      assert root * root == 4.0 * Mul(p, p) by { SquareOfDouble(p); }
      QuatRoundTrip(q, root);
      QuatRoundTrip(r, root);
    }
  }

  lemma SquareOfDouble(p: real)
    ensures (2.0 * p) * (2.0 * p) == 4.0 * Mul(p, p) == (-2.0 * p) * (-2.0 * p)
  {
  }
}
