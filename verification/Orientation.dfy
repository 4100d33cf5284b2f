/** Orientation from measured gravity and magnetic field, by half-angle elevation, roll and azimuth
    quaternions (x north, y east, z down). */
module Orientation {
  import opened Reals
  import opened Quaternion
  import opened Rotation

  /** The magnetic field at the test site. */
  const MAG_FIELD := Vec3(19.1083, 0.2264, 45.1032)

  function SquaredNorm(v: Vec3): real {
    Square(v.x) + Square(v.y) + Square(v.z)
  }

  function Normalized(v: Vec3, sqrt: real -> real): Vec3
    requires sqrt(SquaredNorm(v)) != 0.0
  {
    var n := sqrt(SquaredNorm(v));
    Vec3(v.x / n, v.y / n, v.z / n)
  }

  /** A horizontal direction. */
  datatype Heading = Heading(x: real, y: real)

  function SquaredHeading(x: real, y: real): real {
    Square(x) + Square(y)
  }

  function HeadingOf(x: real, y: real, sqrt: real -> real): Heading
    requires sqrt(SquaredHeading(x, y)) != 0.0
  {
    var m := sqrt(SquaredHeading(x, y));
    Heading(x / m, y / m)
  }

  function Sign(x: real): real {
    if x > 0.0 then 1.0 else if x < 0.0 then -1.0 else 0.0
  }

  /** The half-angle pair of a cosine: the second one carries the sign. */
  function HalfCosine(cosine: real, sqrt: real -> real): real {
    sqrt((1.0 + cosine) / 2.0)
  }

  function HalfSine(sign: real, cosine: real, sqrt: real -> real): real {
    Product(sign, sqrt((1.0 - cosine) / 2.0))
  }

  function CosElevation(a: Vec3, sqrt: real -> real): real {
    sqrt(1.0 - Square(a.x))
  }

  function ElevationQuat(a: Vec3, sqrt: real -> real): Quat {
    var cosEl := CosElevation(a, sqrt);
    Quat(HalfCosine(cosEl, sqrt), 0.0, HalfSine(Sign(a.x), cosEl, sqrt), 0.0)
  }

  /** Sine and cosine of the roll angle; none is visible when the x axis is vertical. */
  function SinCosRoll(a: Vec3, sqrt: real -> real): (real, real) {
    var cosEl := CosElevation(a, sqrt);
    if cosEl != 0.0 then (-a.y / cosEl, -a.z / cosEl) else (0.0, 1.0)
  }

  function RollQuat(a: Vec3, sqrt: real -> real): Quat {
    var (sinRo, cosRo) := SinCosRoll(a, sqrt);
    var s := if Sign(sinRo) == 0.0 then 1.0 else Sign(sinRo);
    Quat(HalfCosine(cosRo, sqrt), HalfSine(s, cosRo, sqrt), 0.0, 0.0)
  }

  /** The reference heading, from the magnetic field at the site. */
  function North(sqrt: real -> real): Heading
    requires sqrt(SquaredNorm(MAG_FIELD)) != 0.0
    requires var u := Normalized(MAG_FIELD, sqrt); sqrt(SquaredHeading(u.x, u.y)) != 0.0
  {
    var u := Normalized(MAG_FIELD, sqrt);
    HeadingOf(u.x, u.y, sqrt)
  }

  /** Sine and cosine of the turn from a measured heading to a reference one. */
  function SinCosAzimuth(measured: Heading, north: Heading): (real, real) {
    (Product(-measured.y, north.x) + Product(measured.x, north.y),
     Product(measured.x, north.x) + Product(measured.y, north.y))
  }

  function AzimuthQuat(measured: Heading, north: Heading, sqrt: real -> real): Quat {
    var (sinAz, cosAz) := SinCosAzimuth(measured, north);
    Quat(HalfCosine(cosAz, sqrt), 0.0, 0.0, HalfSine(Sign(sinAz), cosAz, sqrt))
  }

  // ----- half angles

  ghost predicate Circle(c: real, s: real) {
    Square(c) + Square(s) == 1.0
  }

  /** A half-angle pair of a rotation by the angle with this cosine and sine. */
  ghost predicate HalfAngles(ch: real, sh: real, c: real, s: real) {
    && Square(ch) + Square(sh) == 1.0 && Square(ch) - Square(sh) == c && 2.0 * Product(ch, sh) == s
  }

  lemma CircleBounds(c: real, s: real)
    requires Circle(c, s)
    ensures -1.0 <= c <= 1.0
  {
  }

  lemma SquareOfDouble(a: real, b: real)
    ensures Square(2.0 * Product(a, b)) == 4.0 * Product(Square(a), Square(b))
  {
  }

  lemma HalvesOfSquares(c: real)
    ensures 4.0 * Product((1.0 + c) / 2.0, (1.0 - c) / 2.0) == 1.0 - Square(c)
  {
  }

  lemma HalvesMultiply(c: real, s: real, ch: real, t: real)
    requires Circle(c, s) && ch >= 0.0 && t >= 0.0 && Square(ch) == (1.0 + c) / 2.0 && Square(t) == (1.0 - c) / 2.0
    ensures 2.0 * Product(ch, t) == if s >= 0.0 then s else -s
  {
    hide Product, Square;
    PositiveProduct(ch, t);
    SquareSign(s);
    SquareOfDouble(ch, t);
    HalvesOfSquares(c);
    SquareOrder(2.0 * Product(ch, t), if s >= 0.0 then s else -s);
  }

  lemma SignedHalf(g: real, ch: real, t: real)
    requires g == 1.0 || g == -1.0 || (g == 0.0 && t == 0.0)
    ensures Square(Product(g, t)) == Square(t)
    ensures Product(ch, Product(g, t)) == if g == -1.0 then -Product(ch, t) else Product(ch, t)
  {
  }

  lemma HalfAnglesOf(c: real, s: real, g: real, sqrt: real -> real)
    requires IsRoot(sqrt) && Circle(c, s)
    requires s > 0.0 ==> g == 1.0
    requires s < 0.0 ==> g == -1.0
    requires s == 0.0 ==> g == 1.0 || (g == 0.0 && c == 1.0)
    ensures HalfAngles(HalfCosine(c, sqrt), HalfSine(g, c, sqrt), c, s)
  {
    hide Product, Square, IsRoot;
    CircleBounds(c, s);
    RootIs(sqrt, (1.0 + c) / 2.0);
    RootIs(sqrt, (1.0 - c) / 2.0);
    var ch, t := sqrt((1.0 + c) / 2.0), sqrt((1.0 - c) / 2.0);
    HalvesMultiply(c, s, ch, t);
    SquareSign(t);
    SignedHalf(g, ch, t);
  }

  // ----- rotations about the axes

  lemma AxisEntries(ch: real, sh: real, c: real, s: real)
    requires HalfAngles(ch, sh, c, s)
    ensures Diagonal(ch, sh, 0.0, 0.0) == 1.0 && Above(ch, sh, 0.0, 0.0) == 0.0 && Beyond(ch, sh, 0.0, 0.0) == 0.0
    ensures Diagonal(ch, 0.0, 0.0, sh) == c && Above(ch, 0.0, 0.0, sh) == -s && Beyond(ch, 0.0, 0.0, sh) == 0.0
    ensures Diagonal(ch, 0.0, sh, 0.0) == c && Above(ch, 0.0, sh, 0.0) == 0.0 && Beyond(ch, 0.0, sh, 0.0) == s
  {
  }

  lemma UnitLength(q: Quat, sqrt: real -> real)
    requires IsRoot(sqrt) && Squared(q) == 1.0
    ensures Length(q, sqrt) == 1.0
  {
    RootOfSquare(sqrt, 1.0);
  }

  lemma AboutX(ch: real, sh: real, c: real, s: real, v: Vec3, sqrt: real -> real)
    requires IsRoot(sqrt) && HalfAngles(ch, sh, c, s)
    ensures Squared(Quat(ch, sh, 0.0, 0.0)) == Length(Quat(ch, sh, 0.0, 0.0), sqrt) == 1.0
    ensures Rotate(Quat(ch, sh, 0.0, 0.0), v, sqrt)
            == Vec3(v.x, Product(c, v.y) - Product(s, v.z), Product(s, v.y) + Product(c, v.z))
  {
    hide Product, Square, Prod, Quot, IsRoot, Diagonal, Above, Beyond, Rotate, Reciprocal;
    var q := Quat(ch, sh, 0.0, 0.0);
    SquareSign(0.0);
    UnitLength(q, sqrt);
    AxisEntries(ch, sh, c, s);
    RotateTurned(q, v, sqrt);
    RotateTurned(Turned(q), TurnedVector(v), sqrt);
    RotatedFirst(q, v, sqrt);
    RotatedFirst(Turned(q), TurnedVector(v), sqrt);
    RotatedFirst(Turned(Turned(q)), TurnedVector(TurnedVector(v)), sqrt);
    OverOne(Product(1.0, v.x) + Product(0.0, v.y) + Product(0.0, v.z));
    OverOne(Product(c, v.y) + Product(-s, v.z) + Product(0.0, v.x));
    OverOne(Product(c, v.z) + Product(0.0, v.x) + Product(s, v.y));
    ZeroProduct(v.x);
    ZeroProduct(v.y);
    ZeroProduct(v.z);
    Negated(s, v.z);
  }

  lemma OverOne(x: real)
    ensures Product(Reciprocal(1.0), x) == x
  {
  }

  lemma AboutY(ch: real, sh: real, c: real, s: real, v: Vec3, sqrt: real -> real)
    requires IsRoot(sqrt) && HalfAngles(ch, sh, c, s)
    ensures Squared(Quat(ch, 0.0, sh, 0.0)) == Length(Quat(ch, 0.0, sh, 0.0), sqrt) == 1.0
    ensures Rotate(Quat(ch, 0.0, sh, 0.0), v, sqrt)
            == Vec3(Product(s, v.z) + Product(c, v.x), v.y, Product(c, v.z) - Product(s, v.x))
  {
    hide Product, Square, Prod, Quot, IsRoot, HalfAngles, Rotate;
    AboutX(ch, sh, c, s, TurnedVector(v), sqrt);
    RotateTurned(Quat(ch, 0.0, sh, 0.0), v, sqrt);
  }

  lemma AboutZ(ch: real, sh: real, c: real, s: real, v: Vec3, sqrt: real -> real)
    requires IsRoot(sqrt) && HalfAngles(ch, sh, c, s)
    ensures Squared(Quat(ch, 0.0, 0.0, sh)) == Length(Quat(ch, 0.0, 0.0, sh), sqrt) == 1.0
    ensures Rotate(Quat(ch, 0.0, 0.0, sh), v, sqrt)
            == Vec3(Product(c, v.x) - Product(s, v.y), Product(s, v.x) + Product(c, v.y), v.z)
  {
    hide Product, Square, Prod, Quot, IsRoot, HalfAngles, Rotate;
    AboutY(ch, sh, c, s, TurnedVector(v), sqrt);
    RotateTurned(Quat(ch, 0.0, 0.0, sh), v, sqrt);
  }

  // ----- levelling

  lemma NormalizedIsUnit(v: Vec3, sqrt: real -> real)
    requires IsRoot(sqrt) && SquaredNorm(v) > 0.0
    ensures sqrt(SquaredNorm(v)) > 0.0 && SquaredNorm(Normalized(v, sqrt)) == 1.0
  {
    var n := sqrt(SquaredNorm(v));
    RootSign(sqrt, SquaredNorm(v));
    SquareOfQuotient(v.x, n);
    SquareOfQuotient(v.y, n);
    SquareOfQuotient(v.z, n);
    SumOfFour(Square(Reciprocal(n)), Square(v.x), Square(v.y), Square(v.z), 0.0);
    ZeroProduct(Square(Reciprocal(n)));
    InverseSquare(n);
    hide Product, Square, Reciprocal;
  }

  lemma SquareOfQuotient(x: real, n: real)
    requires n > 0.0
    ensures Square(x / n) == Product(Square(Reciprocal(n)), Square(x))
  {
  }

  lemma InverseSquare(n: real)
    requires n > 0.0
    ensures Product(Square(Reciprocal(n)), Square(n)) == 1.0
  {
  }

  /** Elevation: its angle has the measured x component as its sine. */
  lemma ElevationAngles(a: Vec3, sqrt: real -> real)
    requires IsRoot(sqrt) && SquaredNorm(a) == 1.0
    ensures var c := CosElevation(a, sqrt);
            && c >= 0.0 && Square(c) == Square(a.y) + Square(a.z)
            && HalfAngles(HalfCosine(c, sqrt), HalfSine(Sign(a.x), c, sqrt), c, a.x)
  {
    hide Product, Square, IsRoot, HalfAngles;
    SquareSign(a.x);
    SquareSign(a.y);
    SquareSign(a.z);
    RootIs(sqrt, 1.0 - Square(a.x));
    var c := CosElevation(a, sqrt);
    if a.x == 0.0 {
      ZeroProduct(1.0);
      OneSquared();
      SquareOrder(c, 1.0);
    }
    HalfAnglesOf(c, a.x, Sign(a.x), sqrt);
  }

  lemma OneSquared()
    ensures Square(1.0) == 1.0 && Square(0.0) == 0.0 && Square(-1.0) == 1.0
  {
  }

  /** Roll: it brings the measured y component to zero and the z component to the top. */
  lemma RollAngles(a: Vec3, sqrt: real -> real)
    requires IsRoot(sqrt) && SquaredNorm(a) == 1.0
    ensures var c, (sinRo, cosRo) := CosElevation(a, sqrt), SinCosRoll(a, sqrt);
            && Circle(cosRo, sinRo)
            && Product(cosRo, a.y) - Product(sinRo, a.z) == 0.0
            && Product(sinRo, a.y) + Product(cosRo, a.z) == -c
  {
    hide Product, Square, IsRoot, HalfAngles;
    ElevationAngles(a, sqrt);
    SquareSign(a.y);
    SquareSign(a.z);
    OneSquared();
    ZeroProduct(0.0);
    var c := CosElevation(a, sqrt);
    SquareSign(c);
    if c != 0.0 {
      RollEntries(a.y, a.z, c);
    }
  }

  lemma RollEntries(y: real, z: real, c: real)
    requires c > 0.0 && Square(c) == Square(y) + Square(z)
    ensures Square(-z / c) + Square(-y / c) == 1.0
    ensures Product(-z / c, y) - Product(-y / c, z) == 0.0
    ensures Product(-y / c, y) + Product(-z / c, z) == -c
  {
    var k := Reciprocal(c);
    DivideByProduct(-z, c);
    DivideByProduct(-y, c);
    RollEntriesRaw(y, z, c, k, -z / c, -y / c);
  }

  lemma RollEntriesRaw(y: real, z: real, c: real, k: real, p: real, q: real)
    requires k * c == 1.0 && c * c == y * y + z * z && p == k * -z && q == k * -y
    ensures p * p + q * q == 1.0
    ensures p * y - q * z == 0.0
    ensures q * y + p * z == -c
  {
  }
}
