/** The orientation of each measured row, relative to the heading of the first one. */
module Fqa {
  import opened Reals
  import opened Quaternion
  import opened Rotation
  import opened Orientation

  const DOWNWARD := Vec3(0.0, 0.0, -1.0)

  // ----- tilt

  lemma TiltUnits(a: Vec3, sqrt: real -> real)
    requires IsRoot(sqrt) && SquaredNorm(a) == 1.0
    ensures Squared(ElevationQuat(a, sqrt)) == 1.0 && Squared(RollQuat(a, sqrt)) == 1.0
    ensures Length(ElevationQuat(a, sqrt), sqrt) == 1.0 && Length(RollQuat(a, sqrt), sqrt) == 1.0
  {
    hide Product, Square, IsRoot, HalfAngles, Circle, HalfCosine, HalfSine, Rotate, SinCosRoll, CosElevation;
    ElevationAngles(a, sqrt);
    RollHalves(a, sqrt);
    var e, r := ElevationQuat(a, sqrt), RollQuat(a, sqrt);
    AboutY(e.w, e.y, CosElevation(a, sqrt), a.x, a, sqrt);
    AboutX(r.w, r.x, SinCosRoll(a, sqrt).1, SinCosRoll(a, sqrt).0, a, sqrt);
  }

  lemma RollHalves(a: Vec3, sqrt: real -> real)
    requires IsRoot(sqrt) && SquaredNorm(a) == 1.0
    ensures HalfAngles(RollQuat(a, sqrt).w, RollQuat(a, sqrt).x, SinCosRoll(a, sqrt).1, SinCosRoll(a, sqrt).0)
  {
    hide Product, Square, IsRoot, HalfAngles, Circle, HalfCosine, HalfSine, SinCosRoll, SquaredNorm;
    RollAngles(a, sqrt);
    var (sinRo, cosRo) := SinCosRoll(a, sqrt);
    HalfAnglesOf(cosRo, sinRo, if Sign(sinRo) == 0.0 then 1.0 else Sign(sinRo), sqrt);
  }

  /** Elevation after roll takes the measured acceleration straight down onto (0, 0, -1), also when the
      x axis is vertical and no roll is visible. */
  lemma TiltLevels(a: Vec3, sqrt: real -> real)
    requires IsRoot(sqrt) && SquaredNorm(a) == 1.0
    ensures Length(ElevationQuat(a, sqrt), sqrt) == 1.0 && Length(RollQuat(a, sqrt), sqrt) == 1.0
    ensures Rotate(ElevationQuat(a, sqrt), Rotate(RollQuat(a, sqrt), a, sqrt), sqrt) == DOWNWARD
  {
    hide Product, Square, IsRoot, HalfAngles, Circle, HalfCosine, HalfSine, Rotate, SinCosRoll, CosElevation;
    ElevationAngles(a, sqrt);
    RollHalves(a, sqrt);
    RollAngles(a, sqrt);
    var e, r, c := ElevationQuat(a, sqrt), RollQuat(a, sqrt), CosElevation(a, sqrt);
    AboutX(r.w, r.x, SinCosRoll(a, sqrt).1, SinCosRoll(a, sqrt).0, a, sqrt);
    AboutY(e.w, e.y, c, a.x, Vec3(a.x, 0.0, -c), sqrt);
    Negated(a.x, c);
    Negated(c, c);
    ZeroProduct(0.0);
    SquareIs(a.x);
    SquareIs(c);
  }

  lemma SquareIs(x: real)
    ensures Square(x) == Product(x, x)
  {
  }

  /** The elevation quaternion is the half-angle quaternion about y with a positive scalar part. */
  lemma ElevationForward(a: Vec3, sqrt: real -> real)
    requires IsRoot(sqrt) && SquaredNorm(a) == 1.0
    ensures var q, c := ElevationQuat(a, sqrt), sqrt(1.0 - Square(a.x));
            && q.x == q.z == 0.0 && q.w > 0.0 && c >= 0.0
            && Square(q.w) - Square(q.y) == c && 2.0 * Product(q.w, q.y) == a.x
  {
    hide Product, Square, IsRoot, SquaredNorm, HalfSine;
    ElevationAngles(a, sqrt);
    var c := CosElevation(a, sqrt);
    HalfPositive(c, sqrt);
  }

  lemma HalfPositive(c: real, sqrt: real -> real)
    requires IsRoot(sqrt) && c > -1.0
    ensures HalfCosine(c, sqrt) > 0.0
  {
    RootSign(sqrt, (1.0 + c) / 2.0);
  }

  lemma RollParts(a: Vec3, sqrt: real -> real)
    requires IsRoot(sqrt) && SquaredNorm(a) == 1.0
    ensures var c := CosElevation(a, sqrt);
            && c >= 0.0 && (a.y == a.z == 0.0 <==> c == 0.0)
            && (c > 0.0 ==> Product(c, SinCosRoll(a, sqrt).0) == -a.y && Product(c, SinCosRoll(a, sqrt).1) == -a.z)
            && (c == 0.0 ==> SinCosRoll(a, sqrt) == (0.0, 1.0))
  {
    hide Product, Square, IsRoot, HalfAngles, HalfCosine, HalfSine, CosElevation;
    ElevationAngles(a, sqrt);
    SquareSign(a.y);
    SquareSign(a.z);
    SquareSign(CosElevation(a, sqrt));
    var c := CosElevation(a, sqrt);
    if c > 0.0 {
      TimesBack(c, -a.z);
      TimesBack(c, -a.y);
    }
  }

  /** A half-angle pair with a sign: not negative in front, and the sign itself behind for half a turn. */
  lemma HalvesForward(c: real, g: real, sqrt: real -> real)
    requires IsRoot(sqrt) && -1.0 <= c <= 1.0
    ensures HalfCosine(c, sqrt) >= 0.0
    ensures HalfCosine(c, sqrt) == 0.0 ==> c == -1.0 && HalfSine(g, c, sqrt) == g
    ensures c == 1.0 ==> HalfCosine(c, sqrt) == 1.0 && HalfSine(g, c, sqrt) == 0.0
  {
    hide Square, IsRoot;
    RootIs(sqrt, (1.0 + c) / 2.0);
    RootSign(sqrt, (1.0 + c) / 2.0);
    OneSquared();
    RootOfSquare(sqrt, 1.0);
    RootOfSquare(sqrt, 0.0);
  }

  lemma RollInFront(a: Vec3, sqrt: real -> real)
    requires IsRoot(sqrt) && SquaredNorm(a) == 1.0
    ensures var q := RollQuat(a, sqrt);
            && q.y == q.z == 0.0 && q.w >= 0.0 && (q.w == 0.0 ==> q.x == 1.0)
            && (SinCosRoll(a, sqrt) == (0.0, 1.0) ==> q == ONE)
  {
    hide Product, Square, IsRoot, SquaredNorm, Circle, SinCosRoll, HalfCosine, HalfSine, HalfAngles;
    RollAngles(a, sqrt);
    var (sinRo, cosRo) := SinCosRoll(a, sqrt);
    CircleBounds(cosRo, sinRo);
    HalvesForward(cosRo, if Sign(sinRo) == 0.0 then 1.0 else Sign(sinRo), sqrt);
    if cosRo == -1.0 {
      NoSine(cosRo, sinRo);
    }
  }

  /** The roll quaternion has a scalar part that is not negative, and is i for half a turn; without a visible
      roll, when the x axis is vertical, it is one. */
  lemma RollForward(a: Vec3, sqrt: real -> real)
    requires IsRoot(sqrt) && SquaredNorm(a) == 1.0
    ensures var q := RollQuat(a, sqrt);
            && q.y == q.z == 0.0 && q.w >= 0.0 && (q.w == 0.0 ==> q.x == 1.0)
            && (a.y == a.z == 0.0 ==> q == ONE)
  {
    hide *;
    RollParts(a, sqrt);
    RollInFront(a, sqrt);
  }

  /** Otherwise it is the half-angle quaternion about x of the turn that brings the measured y and z components
      into the plane: its cosine and sine are -z and -y over their length. */
  lemma RollTurns(a: Vec3, sqrt: real -> real)
    requires IsRoot(sqrt) && SquaredNorm(a) == 1.0 && !(a.y == a.z == 0.0)
    ensures var q, c := RollQuat(a, sqrt), sqrt(1.0 - Square(a.x));
            c > 0.0 && Product(c, Square(q.w) - Square(q.x)) == -a.z && Product(c, 2.0 * Product(q.w, q.x)) == -a.y
  {
    hide Product, Square, IsRoot, SquaredNorm, SinCosRoll, RollQuat;
    RollParts(a, sqrt);
    RollHalves(a, sqrt);
  }

  lemma NoSine(c: real, s: real)
    requires Circle(c, s) && c == -1.0
    ensures s == 0.0
  {
    OneSquared();
    SquareSign(s);
  }

  lemma TimesBack(c: real, x: real)
    requires c > 0.0
    ensures Product(c, x / c) == x
  {
  }

  // ----- heading

  lemma NorthIsUnit(sqrt: real -> real)
    requires IsRoot(sqrt)
    ensures sqrt(SquaredNorm(MAG_FIELD)) > 0.0
    ensures var u := Normalized(MAG_FIELD, sqrt); sqrt(SquaredHeading(u.x, u.y)) > 0.0
    ensures Square(North(sqrt).x) + Square(North(sqrt).y) == 1.0
  {
  }

  /** The reference heading is that of the field at the test site: 19.1083 north for 0.2264 east. */
  lemma NorthExactly(sqrt: real -> real)
    requires IsRoot(sqrt)
    ensures sqrt(SquaredNorm(MAG_FIELD)) > 0.0
    ensures var u := Normalized(MAG_FIELD, sqrt); sqrt(SquaredHeading(u.x, u.y)) > 0.0
    ensures North(sqrt).x > 0.0 && North(sqrt).x * 0.2264 == North(sqrt).y * 19.1083
  {
    NorthIsUnit(sqrt);
    var u := Normalized(MAG_FIELD, sqrt);
    SiteScaled(sqrt(SquaredNorm(MAG_FIELD)), sqrt(SquaredHeading(u.x, u.y)), u, North(sqrt));
  }

  lemma SiteScaled(n: real, m: real, u: Vec3, h: Heading)
    requires n > 0.0 && m > 0.0 && u.x == 19.1083 / n && u.y == 0.2264 / n && h.x == u.x / m && h.y == u.y / m
    ensures h.x > 0.0 && h.x * 0.2264 == h.y * 19.1083
  {
    assert u.x > 0.0;
    assert u.x * 0.2264 == u.y * 19.1083;
    assert h.x * m == u.x && h.y * m == u.y;
    assert (h.x * 0.2264 - h.y * 19.1083) * m == 0.0;
  }

  lemma HeadingIsUnit(x: real, y: real, sqrt: real -> real)
    requires IsRoot(sqrt) && SquaredHeading(x, y) > 0.0
    ensures sqrt(SquaredHeading(x, y)) > 0.0
    ensures var h := HeadingOf(x, y, sqrt); Square(h.x) + Square(h.y) == 1.0
  {
  }

  /** The turn between two headings is a point of the circle. */
  lemma AzimuthCircle(h: Heading, north: Heading)
    requires Square(h.x) + Square(h.y) == 1.0 && Square(north.x) + Square(north.y) == 1.0
    ensures var (sinAz, cosAz) := SinCosAzimuth(h, north); Circle(cosAz, sinAz)
  {
  }

  /** The measured heading is exactly opposite to the reference. */
  predicate Opposite(h: Heading, north: Heading) {
    SinCosAzimuth(h, north) == (0.0, -1.0)
  }

  /** The azimuth quaternion is a unit quaternion about the z axis, except for the opposite heading, where
      it is zero. */
  lemma AzimuthIsUnit(h: Heading, north: Heading, sqrt: real -> real)
    requires IsRoot(sqrt) && Square(h.x) + Square(h.y) == 1.0 && Square(north.x) + Square(north.y) == 1.0
    ensures AzimuthQuat(h, north, sqrt).x == AzimuthQuat(h, north, sqrt).y == 0.0 <= AzimuthQuat(h, north, sqrt).w
    ensures Opposite(h, north) ==> AzimuthQuat(h, north, sqrt) == Quat(0.0, 0.0, 0.0, 0.0)
    ensures !Opposite(h, north) ==>
              var (sinAz, cosAz) := SinCosAzimuth(h, north);
              HalfAngles(AzimuthQuat(h, north, sqrt).w, AzimuthQuat(h, north, sqrt).z, cosAz, sinAz)
  {
    hide Product, Square, IsRoot, HalfAngles, SinCosAzimuth;
    AzimuthCircle(h, north);
    var (sinAz, cosAz) := SinCosAzimuth(h, north);
    OneSquared();
    CircleBounds(cosAz, sinAz);
    RootIs(sqrt, (1.0 + cosAz) / 2.0);
    if sinAz == 0.0 {
      SquareSign(cosAz);
      if cosAz >= 0.0 {
        SquareOrder(cosAz, 1.0);
      } else {
        SquareOrder(-cosAz, 1.0);
      }
    }
    if Opposite(h, north) {
      RootOfSquare(sqrt, 0.0);
      ZeroProduct(sqrt(1.0));
    } else {
      HalfAnglesOf(cosAz, sinAz, Sign(sinAz), sqrt);
    }
  }

  /** The azimuth quaternion turns the measured horizontal field onto the reference heading. */
  lemma AzimuthAligns(x: real, y: real, z: real, north: Heading, sqrt: real -> real)
    requires IsRoot(sqrt) && SquaredHeading(x, y) > 0.0 && sqrt(SquaredHeading(x, y)) > 0.0
    requires Square(north.x) + Square(north.y) == 1.0 && !Opposite(HeadingOf(x, y, sqrt), north)
    ensures var m, q := sqrt(SquaredHeading(x, y)), AzimuthQuat(HeadingOf(x, y, sqrt), north, sqrt);
            && Length(q, sqrt) == 1.0
            && Rotate(q, Vec3(x, y, z), sqrt) == Vec3(Product(m, north.x), Product(m, north.y), z)
  {
    hide Product, Square, IsRoot, HalfAngles, Rotate, HalfCosine, HalfSine;
    HeadingIsUnit(x, y, sqrt);
    var h, m := HeadingOf(x, y, sqrt), sqrt(SquaredHeading(x, y));
    AzimuthIsUnit(h, north, sqrt);
    var (sinAz, cosAz) := SinCosAzimuth(h, north);
    var q := AzimuthQuat(h, north, sqrt);
    AboutZ(q.w, q.z, cosAz, sinAz, Vec3(x, y, z), sqrt);
    HeadingTurned(h, north, x, y, m, cosAz, sinAz);
  }

  lemma HeadingTurned(h: Heading, north: Heading, x: real, y: real, m: real, c: real, s: real)
    requires m > 0.0 && h == Heading(x / m, y / m) && Square(h.x) + Square(h.y) == 1.0
    requires c == Product(h.x, north.x) + Product(h.y, north.y) && s == Product(-h.y, north.x) + Product(h.x, north.y)
    ensures Product(c, x) - Product(s, y) == Product(m, north.x)
    ensures Product(s, x) + Product(c, y) == Product(m, north.y)
  {
  }

  // ----- rows

  lemma SquaredQuot(p: Quat, q: Quat, sqrt: real -> real)
    requires IsRoot(sqrt) && Squared(q) > 0.0
    ensures Length(q, sqrt) > 0.0 && Squared(Quot(p, q, sqrt)) == Squared(p)
  {
    RootSign(sqrt, Squared(q));
    RootIs(sqrt, Squared(q));
    hide Squared, Prod, Quot, Times, Product, Square, Reciprocal, IsRoot, Conj;
    var n := Length(q, sqrt);
    QuotIsProd(p, q, sqrt);
    SquaredTimes(Reciprocal(n), Prod(p, Conj(q)));
    SquaredProd(p, Conj(q));
    SquaredSign(q);
    CancelSquare(n, Squared(p), Squared(q));
  }

  predicate Measured(acc: Vec3, mag: Vec3) {
    SquaredNorm(acc) > 0.0 && SquaredNorm(mag) > 0.0
  }

  lemma OneIsUnit()
    ensures Squared(ONE) == 1.0
  {
  }

  lemma InverseTilt(a: Vec3, sqrt: real -> real)
    requires IsRoot(sqrt) && SquaredNorm(a) == 1.0
    ensures var p := Prod(RollQuat(a, sqrt), ElevationQuat(a, sqrt));
            && Squared(p) == 1.0 && Length(p, sqrt) == 1.0
            && Squared(Quot(ONE, p, sqrt)) == 1.0 && Length(Quot(ONE, p, sqrt), sqrt) == 1.0
  {
    hide Square, IsRoot, Prod, Quot, ElevationQuat, RollQuat, SquaredNorm, Squared, Product;
    TiltUnits(a, sqrt);
    var p := Prod(RollQuat(a, sqrt), ElevationQuat(a, sqrt));
    SquaredProd(RollQuat(a, sqrt), ElevationQuat(a, sqrt));
    ZeroProduct(1.0);
    UnitLength(p, sqrt);
    OneIsUnit();
    SquaredQuot(ONE, p, sqrt);
    UnitLength(Quot(ONE, p, sqrt), sqrt);
  }

  /** The measured magnetic field, turned by the inverse of roll times elevation. */
  function EarthField(acc: Vec3, mag: Vec3, sqrt: real -> real): Vec3
    requires IsRoot(sqrt) && Measured(acc, mag)
  {
    NormalizedIsUnit(acc, sqrt);
    NormalizedIsUnit(mag, sqrt);
    var a := Normalized(acc, sqrt);
    InverseTilt(a, sqrt);
    Rotate(Quot(ONE, Prod(RollQuat(a, sqrt), ElevationQuat(a, sqrt)), sqrt), Normalized(mag, sqrt), sqrt)
  }

  /** A row has a heading when its turned field is not vertical. */
  ghost predicate HasHeading(acc: Vec3, mag: Vec3, sqrt: real -> real) {
    IsRoot(sqrt) && Measured(acc, mag)
      && SquaredHeading(EarthField(acc, mag, sqrt).x, EarthField(acc, mag, sqrt).y) > 0.0
  }

  function MeasuredHeading(acc: Vec3, mag: Vec3, sqrt: real -> real): Heading
    requires HasHeading(acc, mag, sqrt)
  {
    var e := EarthField(acc, mag, sqrt);
    HeadingIsUnit(e.x, e.y, sqrt);
    HeadingOf(e.x, e.y, sqrt)
  }

  function Azimuth(acc: Vec3, mag: Vec3, sqrt: real -> real): Quat
    requires HasHeading(acc, mag, sqrt)
  {
    NorthIsUnit(sqrt);
    AzimuthQuat(MeasuredHeading(acc, mag, sqrt), North(sqrt), sqrt)
  }

  /** The measured heading is exactly opposite to the reference. */
  ghost predicate Lost(acc: Vec3, mag: Vec3, sqrt: real -> real)
    requires HasHeading(acc, mag, sqrt)
  {
    NorthIsUnit(sqrt);
    Opposite(MeasuredHeading(acc, mag, sqrt), North(sqrt))
  }

  /** The orientation of a row, given the azimuth quaternion of the first row. */
  function Row(acc: Vec3, mag: Vec3, first: Quat, sqrt: real -> real): Quat
    requires HasHeading(acc, mag, sqrt) && Length(first, sqrt) != 0.0
  {
    NormalizedIsUnit(acc, sqrt);
    var a := Normalized(acc, sqrt);
    Prod(Quot(Azimuth(acc, mag, sqrt), first, sqrt), Prod(ElevationQuat(a, sqrt), RollQuat(a, sqrt)))
  }

  /** A unit quaternion about the z axis. */
  predicate AboutVertical(q: Quat) {
    q.x == 0.0 && q.y == 0.0 && Squared(q) == 1.0
  }

  lemma AzimuthCases(acc: Vec3, mag: Vec3, sqrt: real -> real)
    requires HasHeading(acc, mag, sqrt)
    ensures if Lost(acc, mag, sqrt) then Azimuth(acc, mag, sqrt) == Quat(0.0, 0.0, 0.0, 0.0)
            else AboutVertical(Azimuth(acc, mag, sqrt))
  {
    hide Square, IsRoot, SinCosAzimuth, EarthField, HeadingOf, North, SquaredHeading, HalfCosine, HalfSine;
    NorthIsUnit(sqrt);
    var e := EarthField(acc, mag, sqrt);
    HeadingIsUnit(e.x, e.y, sqrt);
    AzimuthIsUnit(MeasuredHeading(acc, mag, sqrt), North(sqrt), sqrt);
    OneSquared();
  }

  lemma QuotAboutVertical(p: Quat, q: Quat, sqrt: real -> real)
    requires IsRoot(sqrt) && AboutVertical(p) && AboutVertical(q)
    ensures Length(q, sqrt) == 1.0 && AboutVertical(Quot(p, q, sqrt))
  {
  }

  /** A turn about the vertical keeps the vertical. */
  lemma VerticalKept(q: Quat, sqrt: real -> real)
    requires IsRoot(sqrt) && AboutVertical(q)
    ensures Length(q, sqrt) == 1.0 && Rotate(q, DOWNWARD, sqrt) == DOWNWARD
  {
    hide Product, Square, IsRoot, Rotate;
    OneSquared();
    UnitLength(q, sqrt);
    var c, s := Square(q.w) - Square(q.z), 2.0 * Product(q.w, q.z);
    AboutZ(q.w, q.z, c, s, DOWNWARD, sqrt);
    ZeroProduct(c);
    ZeroProduct(s);
  }

  lemma TiltIsUnit(a: Vec3, sqrt: real -> real)
    requires IsRoot(sqrt) && SquaredNorm(a) == 1.0
    ensures Squared(Prod(ElevationQuat(a, sqrt), RollQuat(a, sqrt))) == 1.0
    ensures Length(Prod(ElevationQuat(a, sqrt), RollQuat(a, sqrt)), sqrt) == 1.0
    ensures Rotate(Prod(ElevationQuat(a, sqrt), RollQuat(a, sqrt)), a, sqrt) == DOWNWARD
  {
    hide Square, IsRoot, Prod, Rotate, ElevationQuat, RollQuat, SquaredNorm, Squared;
    TiltUnits(a, sqrt);
    TiltLevels(a, sqrt);
    SquaredProd(ElevationQuat(a, sqrt), RollQuat(a, sqrt));
    OneSquared();
    UnitLength(Prod(ElevationQuat(a, sqrt), RollQuat(a, sqrt)), sqrt);
    RotationComposes(ElevationQuat(a, sqrt), RollQuat(a, sqrt), a, sqrt);
  }

  /** Gravity levelling: relative to any first heading, each row is a unit quaternion that takes the
      measured acceleration to (0, 0, -1), unless its heading is exactly opposite to the reference, and
      then it is zero. */
  lemma GravityLevelled(acc: Vec3, mag: Vec3, first: Quat, sqrt: real -> real)
    requires HasHeading(acc, mag, sqrt) && AboutVertical(first)
    ensures Length(first, sqrt) == 1.0 && sqrt(SquaredNorm(acc)) > 0.0
    ensures var q := Row(acc, mag, first, sqrt);
            if Lost(acc, mag, sqrt) then q == Quat(0.0, 0.0, 0.0, 0.0)
            else Squared(q) == 1.0 && Length(q, sqrt) == 1.0 && Rotate(q, Normalized(acc, sqrt), sqrt) == DOWNWARD
  {
    hide Square, Product, IsRoot, Prod, Rotate, ElevationQuat, RollQuat, SquaredNorm, Squared, Azimuth, Lost,
      Normalized, SquaredHeading, EarthField, Quot;
    UnitLength(first, sqrt);
    NormalizedIsUnit(acc, sqrt);
    var a := Normalized(acc, sqrt);
    var tilt := Prod(ElevationQuat(a, sqrt), RollQuat(a, sqrt));
    var q := Row(acc, mag, first, sqrt);
    AzimuthCases(acc, mag, sqrt);
    if Lost(acc, mag, sqrt) {
      ZeroQuotient(first, sqrt);
      ZeroProd(tilt);
    } else {
      var turn := Quot(Azimuth(acc, mag, sqrt), first, sqrt);
      QuotAboutVertical(Azimuth(acc, mag, sqrt), first, sqrt);
      TiltIsUnit(a, sqrt);
      SquaredProd(turn, tilt);
      ZeroProduct(1.0);
      UnitLength(q, sqrt);
      RotationComposes(turn, tilt, a, sqrt);
      VerticalKept(turn, sqrt);
    }
  }

  lemma ZeroProd(q: Quat)
    ensures Prod(Quat(0.0, 0.0, 0.0, 0.0), q) == Quat(0.0, 0.0, 0.0, 0.0)
  {
  }

  lemma ZeroQuotient(q: Quat, sqrt: real -> real)
    requires Length(q, sqrt) == 1.0
    ensures Quot(Quat(0.0, 0.0, 0.0, 0.0), q, sqrt) == Quat(0.0, 0.0, 0.0, 0.0)
  {
  }

  /** Multiplying back by the divisor leaves its length behind: only a unit divisor is undone. */
  lemma QuotTimesDivisor(p: Quat, q: Quat, sqrt: real -> real)
    requires IsRoot(sqrt) && Squared(q) > 0.0
    ensures Length(q, sqrt) > 0.0 && Prod(Quot(p, q, sqrt), q) == Times(Length(q, sqrt), p)
  {
    RootSign(sqrt, Squared(q));
    RootIs(sqrt, Squared(q));
    hide Prod, Quot, Product, Square, Reciprocal, IsRoot, Conj, Times, Squared;
    var n := Length(q, sqrt);
    QuotIsProd(p, q, sqrt);
    ProdTimes(Reciprocal(n), Prod(p, Conj(q)), q);
    ProdAssociative(p, Conj(q), q);
    ConjTimesSelf(q);
    ProdTimes(Squared(q), p, ONE);
    ProdOne(p);
    TimesTimes(Reciprocal(n), Squared(q), p);
    ReciprocalOfRoot(n, Squared(q));
  }

  lemma ConjTimesSelf(q: Quat)
    ensures Prod(Conj(q), q) == Times(Squared(q), ONE)
  {
  }

  lemma ProdOne(q: Quat)
    ensures Prod(q, ONE) == q == Prod(ONE, q)
  {
  }

  lemma ReciprocalOfRoot(n: real, s: real)
    requires n > 0.0 && Square(n) == s
    ensures Product(Reciprocal(n), s) == n
  {
  }

  lemma QuotSelf(q: Quat, sqrt: real -> real)
    requires IsRoot(sqrt) && AboutVertical(q)
    ensures Length(q, sqrt) == 1.0 && Quot(q, q, sqrt) == ONE
  {
  }

  /** The first row sets the heading: its orientation is its tilt alone. */
  lemma FirstRowIsTilt(acc: Vec3, mag: Vec3, sqrt: real -> real)
    requires HasHeading(acc, mag, sqrt) && !Lost(acc, mag, sqrt)
    ensures Length(Azimuth(acc, mag, sqrt), sqrt) == 1.0 && sqrt(SquaredNorm(acc)) > 0.0
    ensures var a := Normalized(acc, sqrt);
            Row(acc, mag, Azimuth(acc, mag, sqrt), sqrt) == Prod(ElevationQuat(a, sqrt), RollQuat(a, sqrt))
  {
    hide IsRoot, Prod, Quot, ElevationQuat, RollQuat, Normalized, Azimuth, SquaredNorm;
    AzimuthCases(acc, mag, sqrt);
    NormalizedIsUnit(acc, sqrt);
    QuotSelf(Azimuth(acc, mag, sqrt), sqrt);
    ProdOne(Prod(ElevationQuat(Normalized(acc, sqrt), sqrt), RollQuat(Normalized(acc, sqrt), sqrt)));
  }

  /** Heading alignment: the azimuth quaternion takes the horizontal part of the turned field onto the
      reference heading, keeping its strength and its vertical part. */
  lemma HeadingAligned(acc: Vec3, mag: Vec3, sqrt: real -> real)
    requires HasHeading(acc, mag, sqrt) && !Lost(acc, mag, sqrt)
    ensures var e, q := EarthField(acc, mag, sqrt), Azimuth(acc, mag, sqrt);
            var m := sqrt(SquaredHeading(e.x, e.y));
            && Length(q, sqrt) == 1.0 && sqrt(SquaredNorm(MAG_FIELD)) > 0.0
            && (var u := Normalized(MAG_FIELD, sqrt); sqrt(SquaredHeading(u.x, u.y)) > 0.0)
            && Rotate(q, e, sqrt) == Vec3(Product(m, North(sqrt).x), Product(m, North(sqrt).y), e.z)
  {
    hide IsRoot, Product, Square, Rotate, AzimuthQuat, EarthField, SquaredHeading, HeadingOf;
    NorthIsUnit(sqrt);
    var e := EarthField(acc, mag, sqrt);
    HeadingIsUnit(e.x, e.y, sqrt);
    AzimuthAligns(e.x, e.y, e.z, North(sqrt), sqrt);
  }

  /** In numbers: the turned field ends 19.1083 north for 0.2264 east, with its horizontal strength and its vertical
      part unchanged. */
  lemma HeadingExactlyNorth(acc: Vec3, mag: Vec3, sqrt: real -> real)
    requires HasHeading(acc, mag, sqrt) && !Lost(acc, mag, sqrt)
    ensures Length(Azimuth(acc, mag, sqrt), sqrt) == 1.0
    ensures var e := EarthField(acc, mag, sqrt);
            var f := Rotate(Azimuth(acc, mag, sqrt), e, sqrt);
            && f.x > 0.0 && f.x * 0.2264 == f.y * 19.1083 && f.z == e.z
            && Square(f.x) + Square(f.y) == Square(e.x) + Square(e.y)
  {
    hide IsRoot, Product, Square, Rotate, AzimuthQuat, EarthField, SquaredHeading, HeadingOf, North, Azimuth, Lost;
    HeadingAligned(acc, mag, sqrt);
    NorthExactly(sqrt);
    NorthIsUnit(sqrt);
    var e := EarthField(acc, mag, sqrt);
    SquaredHeadingIs(e.x, e.y);
    HeadingScaled(sqrt, SquaredHeading(e.x, e.y), North(sqrt));
  }

  lemma SquaredHeadingIs(x: real, y: real)
    ensures SquaredHeading(x, y) == Square(x) + Square(y)
  {
  }

  lemma HeadingScaled(sqrt: real -> real, s: real, h: Heading)
    requires IsRoot(sqrt) && s > 0.0 && h.x > 0.0 && h.x * 0.2264 == h.y * 19.1083 && Square(h.x) + Square(h.y) == 1.0
    ensures var m := sqrt(s);
            && Product(m, h.x) > 0.0 && Product(m, h.x) * 0.2264 == Product(m, h.y) * 19.1083
            && Square(Product(m, h.x)) + Square(Product(m, h.y)) == s
  {
    var m := sqrt(s);
    RootSign(sqrt, s);
    PositiveProduct(m, h.x);
    assert (m * h.x) * 0.2264 == m * (h.x * 0.2264);
    SquareOfProduct(m, h.x);
    SquareOfProduct(m, h.y);
    assert Product(Square(m), Square(h.x)) + Product(Square(m), Square(h.y)) == Square(m) * (Square(h.x) + Square(h.y));
  }

  // ----- the loop

  /** Every row has a heading, and the first one is not opposite to the reference. */
  ghost predicate Usable(acc: seq<Vec3>, mag: seq<Vec3>, sqrt: real -> real) {
    && |acc| == |mag| && IsRoot(sqrt)
    && (forall i | 0 <= i < |acc| :: HasHeading(acc[i], mag[i], sqrt))
    && (|acc| > 0 ==> !Lost(acc[0], mag[0], sqrt))
  }

  /** A row that is a unit quaternion and takes the measured acceleration to (0, 0, -1); or zero, for a
      heading opposite to the reference. */
  ghost predicate LevelledOrLost(q: Quat, acc: Vec3, mag: Vec3, sqrt: real -> real) {
    && HasHeading(acc, mag, sqrt) && sqrt(SquaredNorm(acc)) > 0.0
    && if Lost(acc, mag, sqrt) then q == Quat(0.0, 0.0, 0.0, 0.0)
       else Squared(q) == 1.0 && Length(q, sqrt) == 1.0 && Rotate(q, Normalized(acc, sqrt), sqrt) == DOWNWARD
  }

  lemma RowLevelled(acc: Vec3, mag: Vec3, first: Quat, sqrt: real -> real)
    requires HasHeading(acc, mag, sqrt) && AboutVertical(first)
    ensures Length(first, sqrt) == 1.0 && LevelledOrLost(Row(acc, mag, first, sqrt), acc, mag, sqrt)
  {
    hide Row, HasHeading, Lost, Rotate, Length, Normalized, Squared, SquaredNorm;
    GravityLevelled(acc, mag, first, sqrt);
  }

  /** The orientation of all rows; the azimuth quaternion of the first row is carried along. */
  method Fqa(acc: seq<Vec3>, mag: seq<Vec3>, sqrt: real -> real) returns (q: seq<Quat>)
    requires Usable(acc, mag, sqrt)
    ensures |q| == |acc|
    ensures forall i | 0 <= i < |q| ::
              && Length(Azimuth(acc[0], mag[0], sqrt), sqrt) == 1.0
              && q[i] == Row(acc[i], mag[i], Azimuth(acc[0], mag[0], sqrt), sqrt)
              && LevelledOrLost(q[i], acc[i], mag[i], sqrt)
  {
    hide Prod, Quot, Rotate, ElevationQuat, RollQuat, Lost, SquaredNorm, SquaredHeading, Squared, Square, AzimuthQuat,
      LevelledOrLost;
    q := seq(|acc|, _ => Quat(0.0, 0.0, 0.0, 0.0));
    NorthIsUnit(sqrt);
    var north := North(sqrt);
    var q_a0 := ONE;
    for i := 0 to |acc|
      invariant |q| == |acc|
      invariant i > 0 ==> AboutVertical(q_a0) && Length(q_a0, sqrt) == 1.0 && q_a0 == Azimuth(acc[0], mag[0], sqrt)
      invariant forall k | 0 <= k < i ::
                  q[k] == Row(acc[k], mag[k], q_a0, sqrt) && LevelledOrLost(q[k], acc[k], mag[k], sqrt)
    {
      NormalizedIsUnit(acc[i], sqrt);
      NormalizedIsUnit(mag[i], sqrt);
      var a := Normalized(acc[i], sqrt);
      var q_e := ElevationQuat(a, sqrt);
      var q_r := RollQuat(a, sqrt);
      var body_m := Normalized(mag[i], sqrt);
      InverseTilt(a, sqrt);
      var earth_m := Rotate(Quot(ONE, Prod(q_r, q_e), sqrt), body_m, sqrt);
      HeadingIsUnit(earth_m.x, earth_m.y, sqrt);
      var q_a := AzimuthQuat(HeadingOf(earth_m.x, earth_m.y, sqrt), north, sqrt);
      if i == 0 {
        AzimuthCases(acc[0], mag[0], sqrt);
        q_a0 := q_a;
        UnitLength(q_a0, sqrt);
      }
      var q_an := Quot(q_a, q_a0, sqrt);
      q := q[i := Prod(q_an, Prod(q_e, q_r))];
      RowLevelled(acc[i], mag[i], q_a0, sqrt);
    }
  }
}
