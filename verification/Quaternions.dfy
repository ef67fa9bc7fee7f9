/** Unit quaternions and rotation matrices (math3d.py): both conversions and both round trips. */
module Quaternions {
  import opened Prelude
  import opened Geometry
  import opened Twists

  datatype Quaternion = Quaternion(x: real, y: real, z: real, w: real)

  function SquaredNorm(q: Quaternion): real {
    q.x * q.x + q.y * q.y + q.z * q.z + q.w * q.w
  }

  function Divided(q: Quaternion, d: real): Quaternion
    requires d != 0.0
  {
    Quaternion(q.x / d, q.y / d, q.z / d, q.w / d)
  }

  function Opposite(q: Quaternion): Quaternion {
    Quaternion(-q.x, -q.y, -q.z, -q.w)
  }

  function UnitToMatrix(q: Quaternion): Mat3 {
    Mat3(Vec3(1.0 - 2.0 * (q.y * q.y + q.z * q.z), 2.0 * (q.x * q.y - q.z * q.w), 2.0 * (q.x * q.z + q.y * q.w)),
         Vec3(2.0 * (q.x * q.y + q.z * q.w), 1.0 - 2.0 * (q.x * q.x + q.z * q.z), 2.0 * (q.y * q.z - q.x * q.w)),
         Vec3(2.0 * (q.x * q.z - q.y * q.w), 2.0 * (q.y * q.z + q.x * q.w), 1.0 - 2.0 * (q.x * q.x + q.y * q.y)))
  }

  /** None is the ValueError for a quaternion without length. */
  function QuaternionToMatrix(lib: Library, q: Quaternion): Option<Mat3> {
    var norm := lib.sqrt(SquaredNorm(q));
    if norm < AXIS_EPSILON then None else Some(UnitToMatrix(Divided(q, norm)))
  }

  /** The component that matrix_to_quaternion_xyzw computes first, from a square root. */
  datatype Pivot = PivotW | PivotX | PivotY | PivotZ

  function Trace(m: Mat3): real {
    m.r0.x + m.r1.y + m.r2.z
  }

  function Branch(m: Mat3): Pivot {
    if Trace(m) > 0.0 then PivotW
    else if m.r0.x > m.r1.y && m.r0.x > m.r2.z then PivotX
    else if m.r1.y > m.r2.z then PivotY
    else PivotZ
  }

  /** Four times the products of two components of a quaternion. */
  datatype Products = Products(ww: real, xx: real, yy: real, zz: real,
                               wx: real, wy: real, wz: real, xy: real, xz: real, yz: real)

  /** The products as they are read off a rotation matrix. */
  function ProductsOf(m: Mat3): Products {
    Products(1.0 + Trace(m), 1.0 + m.r0.x - m.r1.y - m.r2.z, 1.0 + m.r1.y - m.r0.x - m.r2.z, 1.0 + m.r2.z - m.r0.x - m.r1.y,
             m.r2.y - m.r1.z, m.r0.z - m.r2.x, m.r1.x - m.r0.y, m.r0.y + m.r1.x, m.r0.z + m.r2.x, m.r1.z + m.r2.y)
  }

  function PivotValue(pivot: Pivot, p: Products): real {
    match pivot
    case PivotW => p.ww
    case PivotX => p.xx
    case PivotY => p.yy
    case PivotZ => p.zz
  }

  function Unnormalized(pivot: Pivot, p: Products, scale: real): Quaternion
    requires scale != 0.0
  {
    match pivot
    case PivotW => Quaternion(p.wx / scale, p.wy / scale, p.wz / scale, 0.25 * scale)
    case PivotX => Quaternion(0.25 * scale, p.xy / scale, p.xz / scale, p.wx / scale)
    case PivotY => Quaternion(p.xy / scale, 0.25 * scale, p.yz / scale, p.wy / scale)
    case PivotZ => Quaternion(p.xz / scale, p.yz / scale, 0.25 * scale, p.wz / scale)
  }

  /** None is a square root or a division that fails; no rotation matrix leads there. */
  function MatrixToQuaternion(lib: Library, m: Mat3): Option<Quaternion> {
    var (pivot, p) := (Branch(m), ProductsOf(m));
    if PivotValue(pivot, p) < 0.0 then None
    else
      var scale := lib.sqrt(PivotValue(pivot, p)) * 2.0;
      if scale == 0.0 then None
      else
        var q := Unnormalized(pivot, p, scale);
        var norm := lib.sqrt(SquaredNorm(q));
        if norm == 0.0 then None else Some(Divided(q, norm))
  }

  // ---------------------------------------------------------------------------------------------
  // The ten products
  // ---------------------------------------------------------------------------------------------

  function Four(a: real, b: real): real {
    4.0 * (a * b)
  }

  predicate IsRoot(q: Quaternion, p: Products) {
    && Four(q.w, q.w) == p.ww && Four(q.x, q.x) == p.xx && Four(q.y, q.y) == p.yy && Four(q.z, q.z) == p.zz
    && Four(q.w, q.x) == p.wx && Four(q.w, q.y) == p.wy && Four(q.w, q.z) == p.wz
    && Four(q.x, q.y) == p.xy && Four(q.x, q.z) == p.xz && Four(q.y, q.z) == p.yz
  }

  lemma SquareScalars(x: real, y: real, z: real, w: real, a: real, b: real, c: real)
    requires x * x + y * y + z * z + w * w == 1.0
    requires a == 1.0 - 2.0 * (y * y + z * z) && b == 1.0 - 2.0 * (x * x + z * z) && c == 1.0 - 2.0 * (x * x + y * y)
    ensures Four(w, w) == 1.0 + (a + b + c) && Four(x, x) == 1.0 + a - b - c
    ensures Four(y, y) == 1.0 + b - a - c && Four(z, z) == 1.0 + c - a - b
  {
  }

  lemma Diagonal(q: Quaternion)
    ensures UnitToMatrix(q).r0.x == 1.0 - 2.0 * (q.y * q.y + q.z * q.z)
    ensures UnitToMatrix(q).r1.y == 1.0 - 2.0 * (q.x * q.x + q.z * q.z)
    ensures UnitToMatrix(q).r2.z == 1.0 - 2.0 * (q.x * q.x + q.y * q.y)
  {
  }

  lemma SquaresRead(q: Quaternion, p: Products)
    requires SquaredNorm(q) == 1.0 && p == ProductsOf(UnitToMatrix(q))
    ensures Four(q.w, q.w) == p.ww && Four(q.x, q.x) == p.xx && Four(q.y, q.y) == p.yy && Four(q.z, q.z) == p.zz
  {
    hide UnitToMatrix, Four;
    var m := UnitToMatrix(q);
    Diagonal(q);
    SquareScalars(q.x, q.y, q.z, q.w, m.r0.x, m.r1.y, m.r2.z);
  }

  lemma DifferencesRead(q: Quaternion, p: Products)
    requires p == ProductsOf(UnitToMatrix(q))
    ensures Four(q.w, q.x) == p.wx && Four(q.w, q.y) == p.wy && Four(q.w, q.z) == p.wz
  {
  }

  lemma SumsRead(q: Quaternion, p: Products)
    requires p == ProductsOf(UnitToMatrix(q))
    ensures Four(q.x, q.y) == p.xy && Four(q.x, q.z) == p.xz && Four(q.y, q.z) == p.yz
  {
  }

  lemma RootOfItsMatrix(q: Quaternion)
    requires SquaredNorm(q) == 1.0
    ensures IsRoot(q, ProductsOf(UnitToMatrix(q)))
  {
    hide Four, SquaredNorm, ProductsOf, UnitToMatrix;
    SquaresRead(q, ProductsOf(UnitToMatrix(q)));
    DifferencesRead(q, ProductsOf(UnitToMatrix(q)));
    SumsRead(q, ProductsOf(UnitToMatrix(q)));
  }

  lemma MatrixOfRoot(q: Quaternion, m: Mat3)
    requires IsRoot(q, ProductsOf(m))
    ensures UnitToMatrix(q) == m && SquaredNorm(q) == 1.0
  {
  }

  /** The products through one component multiply as products of components do. */
  predicate PivotProducts(pp: real, aa: real, bb: real, cc: real, pa: real, pb: real, pc: real, ab: real, ac: real, bc: real) {
    && pa * pa == pp * aa && pb * pb == pp * bb && pc * pc == pp * cc
    && pa * pb == pp * ab && pa * pc == pp * ac && pb * pc == pp * bc
  }

  predicate RankOne(p: Products) {
    && PivotProducts(p.ww, p.xx, p.yy, p.zz, p.wx, p.wy, p.wz, p.xy, p.xz, p.yz)
    && PivotProducts(p.xx, p.ww, p.yy, p.zz, p.wx, p.xy, p.xz, p.wy, p.wz, p.yz)
    && PivotProducts(p.yy, p.ww, p.xx, p.zz, p.wy, p.xy, p.yz, p.wx, p.wz, p.xz)
    && PivotProducts(p.zz, p.ww, p.xx, p.yy, p.wz, p.xz, p.yz, p.wx, p.wy, p.xy)
  }

  /** The four squares sum to four, and the branch taken has one that is at least one. */
  lemma PivotIsLarge(m: Mat3)
    ensures PivotValue(Branch(m), ProductsOf(m)) >= 1.0
  {
  }

  lemma QuotientProduct(a: real, b: real, s: real, p: real, c: real)
    requires s != 0.0 && p != 0.0 && s * s == 4.0 * p && a * b == p * c
    ensures Four(a / s, b / s) == c
  {
    var x, y := a / s, b / s;
    assert a == x * s && b == y * s;
    assert a * b == (x * y) * (s * s);
    assert p * (4.0 * (x * y)) == p * c;
  }

  lemma QuotientPivot(a: real, s: real)
    requires s != 0.0
    ensures Four(0.25 * s, a / s) == a
  {
  }

  lemma ComponentsFromPivot(pp: real, aa: real, bb: real, cc: real, pa: real, pb: real, pc: real, ab: real, ac: real, bc: real,
                            s: real)
    requires PivotProducts(pp, aa, bb, cc, pa, pb, pc, ab, ac, bc) && pp >= 1.0 && s != 0.0 && s * s == 4.0 * pp
    ensures Four(0.25 * s, 0.25 * s) == pp
    ensures Four(0.25 * s, pa / s) == pa && Four(0.25 * s, pb / s) == pb && Four(0.25 * s, pc / s) == pc
    ensures Four(pa / s, pa / s) == aa && Four(pb / s, pb / s) == bb && Four(pc / s, pc / s) == cc
    ensures Four(pa / s, pb / s) == ab && Four(pa / s, pc / s) == ac && Four(pb / s, pc / s) == bc
  {
    assert Four(0.25 * s, 0.25 * s) == pp;
    hide Four;
    QuotientPivot(pa, s);
    QuotientPivot(pb, s);
    QuotientPivot(pc, s);
    QuotientProduct(pa, pa, s, pp, aa);
    QuotientProduct(pb, pb, s, pp, bb);
    QuotientProduct(pc, pc, s, pp, cc);
    QuotientProduct(pa, pb, s, pp, ab);
    QuotientProduct(pa, pc, s, pp, ac);
    QuotientProduct(pb, pc, s, pp, bc);
  }

  lemma UnnormalizedIsRoot(pivot: Pivot, p: Products, scale: real)
    requires RankOne(p) && PivotValue(pivot, p) >= 1.0 && scale != 0.0 && scale * scale == 4.0 * PivotValue(pivot, p)
    ensures IsRoot(Unnormalized(pivot, p, scale), p)
  {
    hide PivotProducts, Four;
    var q := Unnormalized(pivot, p, scale);
    AllCommute(q);
    match pivot {
      case PivotW => ComponentsFromPivot(p.ww, p.xx, p.yy, p.zz, p.wx, p.wy, p.wz, p.xy, p.xz, p.yz, scale);
      case PivotX => ComponentsFromPivot(p.xx, p.ww, p.yy, p.zz, p.wx, p.xy, p.xz, p.wy, p.wz, p.yz, scale);
      case PivotY => ComponentsFromPivot(p.yy, p.ww, p.xx, p.zz, p.wy, p.xy, p.yz, p.wx, p.wz, p.xz, scale);
      case PivotZ => ComponentsFromPivot(p.zz, p.ww, p.xx, p.yy, p.wz, p.xz, p.yz, p.wx, p.wy, p.xy, scale);
    }
  }

  lemma AllCommute(q: Quaternion)
    ensures Four(q.x, q.w) == Four(q.w, q.x) && Four(q.y, q.w) == Four(q.w, q.y) && Four(q.z, q.w) == Four(q.w, q.z)
    ensures Four(q.y, q.x) == Four(q.x, q.y) && Four(q.z, q.x) == Four(q.x, q.z) && Four(q.z, q.y) == Four(q.y, q.z)
  {
  }

  lemma UnitUnchanged(lib: Library, q: Quaternion)
    requires lib.Valid() && SquaredNorm(q) == 1.0
    ensures lib.sqrt(SquaredNorm(q)) == 1.0 && Divided(q, 1.0) == q
  {
    assert lib.RootLaw(1.0);
    RootOfOne(lib.sqrt(1.0));
  }

  lemma ScaleSquared(r: real, s: real, p: real)
    requires r * r == p && s == r * 2.0
    ensures s * s == 4.0 * p
  {
  }

  lemma ScaleIsDefined(lib: Library, value: real)
    requires lib.Valid() && value >= 1.0
    ensures var scale := lib.sqrt(value) * 2.0; scale != 0.0 && scale * scale == 4.0 * value
  {
    assert lib.RootLaw(value);
    var r := lib.sqrt(value);
    ScaleSquared(r, r * 2.0, value);
    NotZero(r, value);
  }

  lemma NotZero(r: real, s: real)
    requires r * r == s && s != 0.0
    ensures r != 0.0
  {
  }

  /** For every matrix whatsoever the square root and both divisions are defined: the value under the
      root is at least one in the branch taken. */
  lemma ConversionNeverFails(lib: Library, m: Mat3)
    requires lib.Valid()
    ensures MatrixToQuaternion(lib, m).Some? && PivotValue(Branch(m), ProductsOf(m)) >= 1.0
  {
    PivotIsLarge(m);
    var value := PivotValue(Branch(m), ProductsOf(m));
    ScaleIsDefined(lib, value);
    var scale := lib.sqrt(value) * 2.0;
    var q := Unnormalized(Branch(m), ProductsOf(m), scale);
    SumOfSquares(q, scale);
    assert lib.RootLaw(SquaredNorm(q));
    hide PivotValue, Unnormalized, SquaredNorm, Branch, ProductsOf;
    NotZero(lib.sqrt(SquaredNorm(q)), SquaredNorm(q));
  }

  lemma SumOfSquares(q: Quaternion, s: real)
    requires s != 0.0 && 0.25 * s in {q.x, q.y, q.z, q.w}
    ensures SquaredNorm(q) > 0.0
  {
    SquareIsZero(q.x, q.x * q.x);
    SquareIsZero(q.y, q.y * q.y);
    SquareIsZero(q.z, q.z * q.z);
    SquareIsZero(q.w, q.w * q.w);
  }

  lemma ConvertsToRoot(lib: Library, m: Mat3)
    requires lib.Valid() && RankOne(ProductsOf(m))
    ensures MatrixToQuaternion(lib, m).Some? && IsRoot(MatrixToQuaternion(lib, m).value, ProductsOf(m))
  {
    hide PivotValue, Unnormalized, SquaredNorm, RankOne, IsRoot, ProductsOf, Branch, Divided, UnitToMatrix;
    PivotIsLarge(m);
    var value := PivotValue(Branch(m), ProductsOf(m));
    ScaleIsDefined(lib, value);
    var scale := lib.sqrt(value) * 2.0;
    var q := Unnormalized(Branch(m), ProductsOf(m), scale);
    UnnormalizedIsRoot(Branch(m), ProductsOf(m), scale);
    MatrixOfRoot(q, m);
    UnitUnchanged(lib, q);
  }

  // ---------------------------------------------------------------------------------------------
  // Quaternion to matrix to quaternion
  // ---------------------------------------------------------------------------------------------

  lemma ProductOfProducts(p: real, a: real, b: real)
    ensures Four(p, a) * Four(p, b) == Four(p, p) * Four(a, b)
  {
  }

  lemma ProductsOfComponents(p: real, a: real, b: real, c: real)
    ensures PivotProducts(Four(p, p), Four(a, a), Four(b, b), Four(c, c), Four(p, a), Four(p, b), Four(p, c),
                          Four(a, b), Four(a, c), Four(b, c))
  {
    ProductOfProducts(p, a, a);
    ProductOfProducts(p, b, b);
    ProductOfProducts(p, c, c);
    ProductOfProducts(p, a, b);
    ProductOfProducts(p, a, c);
    ProductOfProducts(p, b, c);
    hide Four;
  }

  lemma RootIsRankOne(q: Quaternion, p: Products)
    requires IsRoot(q, p)
    ensures RankOne(p)
  {
    hide PivotProducts, Four;
    AllCommute(q);
    ProductsOfComponents(q.w, q.x, q.y, q.z);
    ProductsOfComponents(q.x, q.w, q.y, q.z);
    ProductsOfComponents(q.y, q.w, q.x, q.z);
    ProductsOfComponents(q.z, q.w, q.x, q.y);
  }

  lemma SameSquare(a: real, b: real)
    requires a * a == b * b
    ensures a == b || a == -b
  {
    assert (a - b) * (a + b) == 0.0;
  }

  lemma SameProduct(p: real, a: real, r: real, b: real)
    requires p != 0.0 && p * a == r * b
    ensures r == p ==> b == a
    ensures r == -p ==> b == -a
  {
  }

  lemma NoZero(p: real)
    requires p * p != 0.0
    ensures p != 0.0
  {
  }

  /** Two quaternions with the same products are equal or opposite. */
  lemma RootsAgree(q: Quaternion, r: Quaternion, p: Products)
    requires IsRoot(q, p) && IsRoot(r, p) && SquaredNorm(q) == 1.0
    ensures r == q || r == Opposite(q)
  {
    SumOfFours(q);
    AllCommute(q);
    AllCommute(r);
    hide Four, SquaredNorm;
    if Four(q.w, q.w) != 0.0 {
      AgreeThrough(q.w, q.x, q.y, q.z, r.w, r.x, r.y, r.z);
    } else if Four(q.x, q.x) != 0.0 {
      AgreeThrough(q.x, q.w, q.y, q.z, r.x, r.w, r.y, r.z);
    } else if Four(q.y, q.y) != 0.0 {
      AgreeThrough(q.y, q.w, q.x, q.z, r.y, r.w, r.x, r.z);
    } else {
      AgreeThrough(q.z, q.w, q.x, q.y, r.z, r.w, r.x, r.y);
    }
  }

  lemma SumOfFours(q: Quaternion)
    ensures Four(q.w, q.w) + Four(q.x, q.x) + Four(q.y, q.y) + Four(q.z, q.z) == 4.0 * SquaredNorm(q)
  {
  }

  lemma AgreeThrough(p: real, a: real, b: real, c: real, r: real, d: real, e: real, f: real)
    requires Four(p, p) != 0.0 && Four(p, p) == Four(r, r)
    requires Four(p, a) == Four(r, d) && Four(p, b) == Four(r, e) && Four(p, c) == Four(r, f)
    ensures (r == p && d == a && e == b && f == c) || (r == -p && d == -a && e == -b && f == -c)
  {
    NoZero(p);
    SameSquare(r, p);
    SameProduct(p, a, r, d);
    SameProduct(p, b, r, e);
    SameProduct(p, c, r, f);
  }

  /** For every unit quaternion the way to its matrix and back gives the quaternion or its opposite,
      whichever of the four branches is taken. */
  lemma QuaternionRoundTrip(lib: Library, q: Quaternion)
    requires lib.Valid() && SquaredNorm(q) == 1.0
    ensures QuaternionToMatrix(lib, q) == Some(UnitToMatrix(q))
    ensures MatrixToQuaternion(lib, UnitToMatrix(q)) in {Some(q), Some(Opposite(q))}
  {
    UnitUnchanged(lib, q);
    RootOfItsMatrix(q);
    hide UnitToMatrix, SquaredNorm, IsRoot, RankOne, MatrixToQuaternion, Opposite, Divided, ProductsOf;
    var p := ProductsOf(UnitToMatrix(q));
    RootIsRankOne(q, p);
    ConvertsToRoot(lib, UnitToMatrix(q));
    RootsAgree(q, MatrixToQuaternion(lib, UnitToMatrix(q)).value, p);
  }

  // ---------------------------------------------------------------------------------------------
  // Matrix to quaternion to matrix
  // ---------------------------------------------------------------------------------------------

  lemma RowsCross(m: Mat3)
    requires IsRotation(m)
    ensures Cross(m.r0, m.r1) == m.r2 && Cross(m.r1, m.r2) == m.r0 && Cross(m.r2, m.r0) == m.r1
  {
    RightHanded(m);
    hide IsRotation;
  }

  lemma DetOfRows(a: real, b: real, c: real, d: real, e: real, f: real, g: real, h: real, i: real)
    ensures Det9(a, b, c, d, e, f, g, h, i) == (e * i - f * h) * a + (f * g - d * i) * b + (d * h - e * g) * c
  {
  }

  lemma DetByRows(m: Mat3)
    ensures Det(m) == Dot(Cross(m.r1, m.r2), m.r0) == Dot(Cross(m.r2, m.r0), m.r1) == Dot(Cross(m.r0, m.r1), m.r2)
  {
    assert Det(m) == Dot(Cross(m.r1, m.r2), m.r0) by {
      DetOfRows(m.r0.x, m.r0.y, m.r0.z, m.r1.x, m.r1.y, m.r1.z, m.r2.x, m.r2.y, m.r2.z);
    }
    Cyclic(m.r1, m.r2, m.r0);
    Cyclic(m.r2, m.r0, m.r1);
    hide Det, Dot, Cross;
  }

  lemma FirstPerpendicular(u: Vec3, v: Vec3)
    ensures Dot(Cross(u, v), u) == 0.0
  {
  }

  /** The rows of a rotation are orthonormal too. */
  lemma RowsOfRotation(m: Mat3)
    requires IsRotation(m)
    ensures Dot(m.r0, m.r0) == 1.0 && Dot(m.r1, m.r1) == 1.0 && Dot(m.r2, m.r2) == 1.0
    ensures Dot(m.r0, m.r1) == 0.0 && Dot(m.r1, m.r2) == 0.0 && Dot(m.r2, m.r0) == 0.0
  {
    hide Dot, Cross, Det;
    RowsCross(m);
    DetByRows(m);
    assert Det(m) == 1.0;
    FirstPerpendicular(m.r0, m.r1);
    FirstPerpendicular(m.r1, m.r2);
    FirstPerpendicular(m.r2, m.r0);
    DotCommutes(m.r0, m.r1);
    DotCommutes(m.r1, m.r2);
    DotCommutes(m.r2, m.r0);
  }

  /** Facts about entries of a rotation, by the cyclic index triple (i, j, k). */
  predicate EntriesOk(d: real, e: real, h: real, ij: real, ji: real, ik: real, ki: real, jk: real, kj: real) {
    && ij == jk * ki - ji * h && ji == ik * kj - ij * h
    && d * ij + ji * e + ki * kj == 0.0 && d * ji + ij * e + ik * jk == 0.0
    && h == d * e - ij * ji && d * d + e * e + ij * ij + ji * ji - h * h == 1.0
  }

  lemma EntriesOfRotation(m: Mat3)
    requires IsRotation(m)
    ensures EntriesOk(m.r0.x, m.r1.y, m.r2.z, m.r0.y, m.r1.x, m.r0.z, m.r2.x, m.r1.z, m.r2.y)
  {
    RightHanded(m);
    RowsOfRotation(m);
    hide Det;
  }

  /** Renaming the axes cyclically. */
  function Cycled(m: Mat3): Mat3 {
    Mat3(Vec3(m.r1.y, m.r1.z, m.r1.x), Vec3(m.r2.y, m.r2.z, m.r2.x), Vec3(m.r0.y, m.r0.z, m.r0.x))
  }

  lemma CycledRotation(m: Mat3)
    requires IsRotation(m)
    ensures IsRotation(Cycled(m))
  {
    var n := Cycled(m);
    DotsCycle(m);
    DetByRows(m);
    DetByRows(n);
    TriplesCycle(m.r1, m.r2, m.r0);
    hide Dot, Det, Cross, Column0, Column1, Column2;
  }

  function Turned(v: Vec3): Vec3 {
    Vec3(v.y, v.z, v.x)
  }

  lemma TriplesCycle(u: Vec3, v: Vec3, w: Vec3)
    ensures Dot(Cross(Turned(v), Turned(w)), Turned(u)) == Dot(Cross(v, w), u)
  {
  }

  lemma DotsCycle(m: Mat3)
    ensures var (n, a, b, c) := (Cycled(m), Column0(m), Column1(m), Column2(m));
      && Dot(Column0(n), Column0(n)) == Dot(b, b) && Dot(Column1(n), Column1(n)) == Dot(c, c)
      && Dot(Column2(n), Column2(n)) == Dot(a, a) && Dot(Column0(n), Column1(n)) == Dot(b, c)
      && Dot(Column1(n), Column2(n)) == Dot(c, a) && Dot(Column2(n), Column0(n)) == Dot(a, b)
  {
  }

  /** A third of the relations among the products; renaming the axes gives the others. */
  predicate Third(p: Products) {
    MixedThird(p) && SquareThird(p)
  }

  predicate MixedThird(p: Products) {
    && p.wx * p.wy == p.ww * p.xy && p.wx * p.xz == p.xx * p.wz
    && p.wy * p.yz == p.yy * p.wz && p.xz * p.yz == p.zz * p.xy
  }

  predicate SquareThird(p: Products) {
    p.wz * p.wz == p.ww * p.zz && p.xy * p.xy == p.xx * p.yy
  }

  lemma ThirdOfRotation(m: Mat3)
    requires IsRotation(m)
    ensures Third(ProductsOf(m))
  {
    EntriesOfRotation(m);
    ThirdOfEntries(m.r0.x, m.r1.y, m.r2.z, m.r0.y, m.r1.x, m.r0.z, m.r2.x, m.r1.z, m.r2.y, ProductsOf(m));
    hide IsRotation, EntriesOk, Third;
  }

  lemma SquareRelations(d: real, e: real, h: real, ij: real, ji: real, ww: real, xx: real, yy: real, zz: real, wz: real, xy: real)
    requires h == d * e - ij * ji && d * d + e * e + ij * ij + ji * ji - h * h == 1.0
    requires ww == 1.0 + (d + e + h) && xx == 1.0 + d - e - h && yy == 1.0 + e - d - h && zz == 1.0 + h - d - e
    requires wz == ji - ij && xy == ij + ji
    ensures wz * wz == ww * zz && xy * xy == xx * yy
  {
  }

  lemma MixedRelations(d: real, e: real, h: real, ij: real, ji: real, ik: real, ki: real, jk: real, kj: real,
                       ww: real, xx: real, yy: real, zz: real, wx: real, wy: real, wz: real, xy: real, xz: real, yz: real)
    requires ij == jk * ki - ji * h && ji == ik * kj - ij * h
    requires d * ij + ji * e + ki * kj == 0.0 && d * ji + ij * e + ik * jk == 0.0
    requires ww == 1.0 + (d + e + h) && xx == 1.0 + d - e - h && yy == 1.0 + e - d - h && zz == 1.0 + h - d - e
    requires wx == kj - jk && wy == ik - ki && wz == ji - ij && xy == ij + ji && xz == ik + ki && yz == jk + kj
    ensures wx * wy == ww * xy && wx * xz == xx * wz && wy * yz == yy * wz && xz * yz == zz * xy
  {
  }

  lemma SquareThirdOfEntries(d: real, e: real, h: real, ij: real, ji: real, ik: real, ki: real, jk: real, kj: real, p: Products)
    requires EntriesOk(d, e, h, ij, ji, ik, ki, jk, kj)
    requires p == Products(1.0 + (d + e + h), 1.0 + d - e - h, 1.0 + e - d - h, 1.0 + h - d - e,
                           kj - jk, ik - ki, ji - ij, ij + ji, ik + ki, jk + kj)
    ensures SquareThird(p)
  {
    SquareRelations(d, e, h, ij, ji, p.ww, p.xx, p.yy, p.zz, p.wz, p.xy);
  }

  lemma MixedThirdOfEntries(d: real, e: real, h: real, ij: real, ji: real, ik: real, ki: real, jk: real, kj: real, p: Products)
    requires EntriesOk(d, e, h, ij, ji, ik, ki, jk, kj)
    requires p == Products(1.0 + (d + e + h), 1.0 + d - e - h, 1.0 + e - d - h, 1.0 + h - d - e,
                           kj - jk, ik - ki, ji - ij, ij + ji, ik + ki, jk + kj)
    ensures MixedThird(p)
  {
    MixedRelations(d, e, h, ij, ji, ik, ki, jk, kj, p.ww, p.xx, p.yy, p.zz, p.wx, p.wy, p.wz, p.xy, p.xz, p.yz);
  }

  lemma ThirdOfEntries(d: real, e: real, h: real, ij: real, ji: real, ik: real, ki: real, jk: real, kj: real, p: Products)
    requires EntriesOk(d, e, h, ij, ji, ik, ki, jk, kj)
    requires p == Products(1.0 + (d + e + h), 1.0 + d - e - h, 1.0 + e - d - h, 1.0 + h - d - e,
                           kj - jk, ik - ki, ji - ij, ij + ji, ik + ki, jk + kj)
    ensures Third(p)
  {
    hide EntriesOk, SquareThird, MixedThird;
    SquareThirdOfEntries(d, e, h, ij, ji, ik, ki, jk, kj, p);
    MixedThirdOfEntries(d, e, h, ij, ji, ik, ki, jk, kj, p);
  }

  function CycledProducts(p: Products): Products {
    Products(p.ww, p.yy, p.zz, p.xx, p.wy, p.wz, p.wx, p.yz, p.xy, p.xz)
  }

  lemma CycleOfProducts(m: Mat3)
    ensures ProductsOf(Cycled(m)) == CycledProducts(ProductsOf(m))
  {
  }

  lemma ThroughW(p: Products)
    requires Third(p) && Third(CycledProducts(p)) && Third(CycledProducts(CycledProducts(p)))
    ensures PivotProducts(p.ww, p.xx, p.yy, p.zz, p.wx, p.wy, p.wz, p.xy, p.xz, p.yz)
  {
  }

  lemma ThroughX(p: Products)
    requires Third(p) && Third(CycledProducts(p)) && Third(CycledProducts(CycledProducts(p)))
    ensures PivotProducts(p.xx, p.ww, p.yy, p.zz, p.wx, p.xy, p.xz, p.wy, p.wz, p.yz)
  {
  }

  lemma ThroughY(p: Products)
    requires Third(p) && Third(CycledProducts(p)) && Third(CycledProducts(CycledProducts(p)))
    ensures PivotProducts(p.yy, p.ww, p.xx, p.zz, p.wy, p.xy, p.yz, p.wx, p.wz, p.xz)
  {
  }

  lemma ThroughZ(p: Products)
    requires Third(p) && Third(CycledProducts(p)) && Third(CycledProducts(CycledProducts(p)))
    ensures PivotProducts(p.zz, p.ww, p.xx, p.yy, p.wz, p.xz, p.yz, p.wx, p.wy, p.xy)
  {
  }

  lemma ThreeThirds(p: Products)
    requires Third(p) && Third(CycledProducts(p)) && Third(CycledProducts(CycledProducts(p)))
    ensures RankOne(p)
  {
    hide Third, PivotProducts;
    ThroughW(p);
    ThroughX(p);
    ThroughY(p);
    ThroughZ(p);
  }

  lemma RotationIsRankOne(m: Mat3)
    requires IsRotation(m)
    ensures RankOne(ProductsOf(m))
  {
    hide IsRotation, Third, RankOne, ProductsOf, CycledProducts;
    var n := Cycled(m);
    CycledRotation(m);
    CycledRotation(n);
    CycleOfProducts(m);
    CycleOfProducts(n);
    ThirdOfRotation(m);
    ThirdOfRotation(n);
    ThirdOfRotation(Cycled(n));
    ThreeThirds(ProductsOf(m));
  }

  /** For every rotation matrix the way to its quaternion and back gives the same matrix: storing a
      transform as a translation and a quaternion loses nothing. */
  lemma RotationRoundTrip(lib: Library, m: Mat3)
    requires lib.Valid() && IsRotation(m)
    ensures MatrixToQuaternion(lib, m).Some?
    ensures var q := MatrixToQuaternion(lib, m).value;
      SquaredNorm(q) == 1.0 && QuaternionToMatrix(lib, q) == Some(m)
  {
    hide IsRotation, UnitToMatrix, SquaredNorm, IsRoot, RankOne, MatrixToQuaternion, Divided, ProductsOf;
    RotationIsRankOne(m);
    ConvertsToRoot(lib, m);
    var q := MatrixToQuaternion(lib, m).value;
    MatrixOfRoot(q, m);
    UnitUnchanged(lib, q);
  }

  // ---------------------------------------------------------------------------------------------
  // Quaternions give rotations
  // ---------------------------------------------------------------------------------------------

  lemma NormIsPositive(q: Quaternion)
    ensures SquaredNorm(q) >= 0.0
  {
    SquareIsZero(q.x, q.x * q.x);
    SquareIsZero(q.y, q.y * q.y);
    SquareIsZero(q.z, q.z * q.z);
    SquareIsZero(q.w, q.w * q.w);
  }

  lemma NormalizedQuaternion(lib: Library, q: Quaternion)
    requires lib.Valid() && lib.sqrt(SquaredNorm(q)) >= AXIS_EPSILON
    ensures SquaredNorm(Divided(q, lib.sqrt(SquaredNorm(q)))) == 1.0
  {
    NormIsPositive(q);
    assert lib.RootLaw(SquaredNorm(q));
    DividedByNorm(q, lib.sqrt(SquaredNorm(q)));
  }

  lemma DividedByNorm(q: Quaternion, n: real)
    requires n != 0.0 && n * n == SquaredNorm(q)
    ensures SquaredNorm(Divided(q, n)) == 1.0
  {
    var u := Divided(q, n);
    assert q.x == u.x * n && q.y == u.y * n && q.z == u.z * n && q.w == u.w * n;
    NormalizedScalars(u.x, u.y, u.z, u.w, q.x, q.y, q.z, q.w, n, SquaredNorm(u));
  }

  lemma NormalizedScalars(x: real, y: real, z: real, w: real, a: real, b: real, c: real, e: real, n: real, d: real)
    requires n != 0.0 && a == x * n && b == y * n && c == z * n && e == w * n && d == x * x + y * y + z * z + w * w
    requires n * n == a * a + b * b + c * c + e * e
    ensures d == 1.0
  {
    var nn, xx, yy, zz, ww := n * n, x * x, y * y, z * z, w * w;
    SquareOfProduct(x, n, a, xx, nn);
    SquareOfProduct(y, n, b, yy, nn);
    SquareOfProduct(z, n, c, zz, nn);
    SquareOfProduct(w, n, e, ww, nn);
    assert d * nn == xx * nn + yy * nn + zz * nn + ww * nn;
    SquareIsZero(n, nn);
    assert d == nn / nn;
  }

  // The entries of the matrix, for a quaternion whose squared norm is s.

  function DiagonalEntry(s: real, a: real, b: real): real {
    s - 2.0 * (a * a + b * b)
  }

  function SumEntry(a: real, b: real, c: real, d: real): real {
    2.0 * (a * b + c * d)
  }

  function DifferenceEntry(a: real, b: real, c: real, d: real): real {
    2.0 * (a * b - c * d)
  }

  lemma ColumnNorm(x: real, y: real, z: real, w: real, s: real)
    requires s == x * x + y * y + z * z + w * w
    ensures (s - 2.0 * (y * y + z * z)) * (s - 2.0 * (y * y + z * z)) + (2.0 * (x * y + z * w)) * (2.0 * (x * y + z * w))
            + (2.0 * (x * z - y * w)) * (2.0 * (x * z - y * w)) == s * s
  {
  }

  lemma ColumnsPerpendicular(x: real, y: real, z: real, w: real, s: real)
    requires s == x * x + y * y + z * z + w * w
    ensures (s - 2.0 * (y * y + z * z)) * (2.0 * (x * y - z * w)) + (2.0 * (x * y + z * w)) * (s - 2.0 * (x * x + z * z))
            + (2.0 * (x * z - y * w)) * (2.0 * (y * z + x * w)) == 0.0
  {
  }

  lemma DetOfEntries(x: real, y: real, z: real, w: real, s: real)
    requires s == x * x + y * y + z * z + w * w
    ensures Det9(s - 2.0 * (y * y + z * z), 2.0 * (x * y - z * w), 2.0 * (x * z + y * w),
                 2.0 * (x * y + z * w), s - 2.0 * (x * x + z * z), 2.0 * (y * z - x * w),
                 2.0 * (x * z - y * w), 2.0 * (y * z + x * w), s - 2.0 * (x * x + y * y)) == s * s * s
  {
  }

  lemma NamedColumns(x: real, y: real, z: real, w: real)
    requires 1.0 == x * x + y * y + z * z + w * w
    ensures var (a, b, c) := (DiagonalEntry(1.0, y, z), SumEntry(x, y, z, w), DifferenceEntry(x, z, y, w));
      var (d, e, f) := (DifferenceEntry(x, y, z, w), DiagonalEntry(1.0, x, z), SumEntry(y, z, x, w));
      Dot(Vec3(a, b, c), Vec3(a, b, c)) == 1.0 && Dot(Vec3(a, b, c), Vec3(d, e, f)) == 0.0
  {
    ColumnNorm(x, y, z, w, 1.0);
    ColumnsPerpendicular(x, y, z, w, 1.0);
  }

  lemma NamedDet(x: real, y: real, z: real, w: real)
    requires 1.0 == x * x + y * y + z * z + w * w
    ensures Det9(DiagonalEntry(1.0, y, z), DifferenceEntry(x, y, z, w), SumEntry(x, z, y, w),
                 SumEntry(x, y, z, w), DiagonalEntry(1.0, x, z), DifferenceEntry(y, z, x, w),
                 DifferenceEntry(x, z, y, w), SumEntry(y, z, x, w), DiagonalEntry(1.0, x, y)) == 1.0
  {
    DetOfEntries(x, y, z, w, 1.0);
    hide Det9;
  }

  /** The matrix by its named entries. */
  lemma Entries(q: Quaternion)
    ensures UnitToMatrix(q)
         == Mat3(Vec3(DiagonalEntry(1.0, q.y, q.z), DifferenceEntry(q.x, q.y, q.z, q.w), SumEntry(q.x, q.z, q.y, q.w)),
                 Vec3(SumEntry(q.x, q.y, q.z, q.w), DiagonalEntry(1.0, q.x, q.z), DifferenceEntry(q.y, q.z, q.x, q.w)),
                 Vec3(DifferenceEntry(q.x, q.z, q.y, q.w), SumEntry(q.y, q.z, q.x, q.w), DiagonalEntry(1.0, q.x, q.y)))
  {
  }

  lemma FirstColumns(q: Quaternion)
    requires SquaredNorm(q) == 1.0
    ensures var m := UnitToMatrix(q);
      Dot(Column0(m), Column0(m)) == 1.0 && Dot(Column0(m), Column1(m)) == 0.0
  {
    Entries(q);
    hide UnitToMatrix, Dot, DiagonalEntry, SumEntry, DifferenceEntry;
    NamedColumns(q.x, q.y, q.z, q.w);
  }

  lemma EntriesCommute(s: real, a: real, b: real, c: real, d: real)
    ensures DiagonalEntry(s, a, b) == DiagonalEntry(s, b, a)
    ensures SumEntry(a, b, c, d) == SumEntry(b, a, c, d) && DifferenceEntry(a, b, c, d) == DifferenceEntry(b, a, c, d)
  {
  }

  lemma CycledNorm(q: Quaternion)
    ensures SquaredNorm(Quaternion(q.y, q.z, q.x, q.w)) == SquaredNorm(q)
  {
  }

  lemma CycledQuaternion(q: Quaternion)
    ensures UnitToMatrix(Quaternion(q.y, q.z, q.x, q.w)) == Cycled(UnitToMatrix(q))
    ensures SquaredNorm(Quaternion(q.y, q.z, q.x, q.w)) == SquaredNorm(q)
  {
    hide UnitToMatrix, SquaredNorm, DiagonalEntry, SumEntry, DifferenceEntry;
    CycledNorm(q);
    Entries(q);
    Entries(Quaternion(q.y, q.z, q.x, q.w));
    EntriesCommute(1.0, q.z, q.x, q.y, q.w);
    EntriesCommute(1.0, q.y, q.x, q.z, q.w);
  }

  lemma DetOfUnit(q: Quaternion)
    requires SquaredNorm(q) == 1.0
    ensures Det(UnitToMatrix(q)) == 1.0
  {
    Entries(q);
    hide UnitToMatrix, Det9, DiagonalEntry, SumEntry, DifferenceEntry;
    NamedDet(q.x, q.y, q.z, q.w);
  }

  /** The matrix of a unit quaternion is a rotation. */
  lemma UnitIsRotation(q: Quaternion)
    requires SquaredNorm(q) == 1.0
    ensures IsRotation(UnitToMatrix(q))
  {
    hide UnitToMatrix, SquaredNorm, Dot, Column0, Column1, Column2, Det, Cycled;
    var r := Quaternion(q.y, q.z, q.x, q.w);
    var s := Quaternion(r.y, r.z, r.x, r.w);
    var m := UnitToMatrix(q);
    FirstColumns(q);
    CycledQuaternion(q);
    FirstColumns(r);
    CycledQuaternion(r);
    FirstColumns(s);
    DotsCycle(m);
    DotsCycle(Cycled(m));
    DetOfUnit(q);
  }

  /** Every quaternion with a length gives a rotation; the others are refused. */
  lemma QuaternionGivesRotation(lib: Library, q: Quaternion)
    requires lib.Valid()
    ensures QuaternionToMatrix(lib, q).None? <==> lib.sqrt(SquaredNorm(q)) < AXIS_EPSILON
    ensures QuaternionToMatrix(lib, q).Some? ==> IsRotation(QuaternionToMatrix(lib, q).value)
  {
    hide UnitToMatrix, SquaredNorm, IsRotation, Divided;
    var norm := lib.sqrt(SquaredNorm(q));
    if norm >= AXIS_EPSILON {
      NormalizedQuaternion(lib, q);
      UnitIsRotation(Divided(q, norm));
    }
  }
}
