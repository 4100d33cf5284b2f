/** When the heading of an orientation is right.  The measured field is turned by the inverse of roll
    times elevation to find the azimuth, but the orientation applies elevation times roll. */
module HeadingTheorems {
  import opened Reals
  import opened Quaternion
  import opened Rotation
  import opened Orientation
  import opened Fqa

  // ----- the two turns in coordinates

  /** Roll and then elevation, from their cosines and sines. */
  function Turn(cosEl: real, sinEl: real, cosRo: real, sinRo: real, v: Vec3): Vec3 {
    var y, z := Product(cosRo, v.y) - Product(sinRo, v.z), Product(sinRo, v.y) + Product(cosRo, v.z);
    Vec3(Product(sinEl, z) + Product(cosEl, v.x), y, Product(cosEl, z) - Product(sinEl, v.x))
  }

  lemma TurnIs(e: Quat, r: Quat, cosEl: real, sinEl: real, cosRo: real, sinRo: real, v: Vec3, sqrt: real -> real)
    requires IsRoot(sqrt) && HalfAngles(e.w, e.y, cosEl, sinEl) && HalfAngles(r.w, r.x, cosRo, sinRo)
    requires e.x == e.z == r.y == r.z == 0.0
    ensures Length(Prod(e, r), sqrt) > 0.0
    ensures Rotate(Prod(e, r), v, sqrt) == Turn(cosEl, sinEl, cosRo, sinRo, v)
  {
    hide Product, Square, IsRoot, HalfAngles, Rotate, Prod, Squared;
    AboutX(r.w, r.x, cosRo, sinRo, v, sqrt);
    AboutY(e.w, e.y, cosEl, sinEl, Rotate(r, v, sqrt), sqrt);
    RotationComposes(e, r, v, sqrt);
  }

  lemma HalvesReversed(ch: real, sh: real, c: real, s: real)
    requires HalfAngles(ch, sh, c, s)
    ensures HalfAngles(ch, -sh, c, -s)
  {
    hide Product, Square;
    SquareSign(sh);
    Negated(ch, sh);
  }

  /** The tilt of the orientation. */
  lemma TiltIsTurn(a: Vec3, v: Vec3, sqrt: real -> real)
    requires IsRoot(sqrt) && SquaredNorm(a) == 1.0
    ensures Length(Prod(ElevationQuat(a, sqrt), RollQuat(a, sqrt)), sqrt) == 1.0
    ensures var (sinRo, cosRo) := SinCosRoll(a, sqrt);
            Rotate(Prod(ElevationQuat(a, sqrt), RollQuat(a, sqrt)), v, sqrt)
            == Turn(CosElevation(a, sqrt), a.x, cosRo, sinRo, v)
  {
    hide IsRoot, HalfAngles, HalfCosine, HalfSine, Rotate, Prod, Squared, SinCosRoll, CosElevation, Turn, SquaredNorm,
      Length;
    TiltIsUnit(a, sqrt);
    ElevationAngles(a, sqrt);
    RollHalves(a, sqrt);
    var (sinRo, cosRo) := SinCosRoll(a, sqrt);
    TurnIs(ElevationQuat(a, sqrt), RollQuat(a, sqrt), CosElevation(a, sqrt), a.x, cosRo, sinRo, v, sqrt);
  }

  /** The turn that finds the azimuth: both angles are reversed. */
  lemma InverseIsTurn(a: Vec3, v: Vec3, sqrt: real -> real)
    requires IsRoot(sqrt) && SquaredNorm(a) == 1.0
    ensures Length(Prod(RollQuat(a, sqrt), ElevationQuat(a, sqrt)), sqrt) == 1.0
    ensures Length(Quot(ONE, Prod(RollQuat(a, sqrt), ElevationQuat(a, sqrt)), sqrt), sqrt) == 1.0
    ensures var (sinRo, cosRo) := SinCosRoll(a, sqrt);
            Rotate(Quot(ONE, Prod(RollQuat(a, sqrt), ElevationQuat(a, sqrt)), sqrt), v, sqrt)
            == Turn(CosElevation(a, sqrt), -a.x, cosRo, -sinRo, v)
  {
    hide IsRoot, HalfAngles, HalfCosine, HalfSine, Rotate, Prod, Quot, Squared, SinCosRoll, CosElevation, Turn,
      SquaredNorm, Length, Times;
    InverseTilt(a, sqrt);
    ElevationAngles(a, sqrt);
    RollHalves(a, sqrt);
    var e, r := ElevationQuat(a, sqrt), RollQuat(a, sqrt);
    var (sinRo, cosRo) := SinCosRoll(a, sqrt);
    HalvesReversed(e.w, e.y, CosElevation(a, sqrt), a.x);
    HalvesReversed(r.w, r.x, cosRo, sinRo);
    QuotIsProd(ONE, Prod(r, e), sqrt);
    ProdOne(Conj(Prod(r, e)));
    ConjProd(r, e);
    TimesOne(Prod(Conj(e), Conj(r)));
    TurnIs(Conj(e), Conj(r), CosElevation(a, sqrt), -a.x, cosRo, -sinRo, v, sqrt);
  }

  lemma TimesOne(q: Quat)
    ensures Times(Reciprocal(1.0), q) == q
  {
  }

  // ----- headings in the plane

  /** A horizontal vector along a heading. */
  ghost predicate Along(x: real, y: real, h: Heading) {
    exists k: real :: k > 0.0 && x == Product(k, h.x) && y == Product(k, h.y)
  }

  /** Two horizontal vectors with the same direction. */
  predicate SameDirection(x: real, y: real, u: real, v: real) {
    Product(x, v) == Product(y, u) && Product(x, u) + Product(y, v) > 0.0
  }

  predicate Opposed(x: real, y: real, u: real, v: real) {
    Product(x, v) == Product(y, u) && Product(x, u) + Product(y, v) < 0.0
  }

  lemma OpposedIs(x: real, y: real, u: real, v: real)
    ensures SameDirection(-x, -y, u, v) <==> Opposed(x, y, u, v)
  {
    hide Product;
    Negated(x, u);
    Negated(x, v);
    Negated(y, u);
    Negated(y, v);
  }

  lemma AlongUnit(x: real, y: real, h: Heading, k: real)
    requires Square(h.x) + Square(h.y) == 1.0 && k == Product(x, h.x) + Product(y, h.y)
    ensures Product(x, h.y) == Product(y, h.x) ==> x == Product(k, h.x) && y == Product(k, h.y)
  {
    if Product(x, h.y) == Product(y, h.x) {
      AlongRaw(x, y, h.x, h.y, k);
    }
  }

  lemma AlongRaw(x: real, y: real, u: real, v: real, k: real)
    requires u * u + v * v == 1.0 && x * v == y * u && k == x * u + y * v
    ensures x == k * u && y == k * v
  {
    assert k * u == x * (u * u) + v * (y * u);
    assert k * v == u * (x * v) + y * (v * v);
    assert x * (u * u) + v * (x * v) == x * (u * u + v * v);
    assert u * (y * u) + y * (v * v) == y * (u * u + v * v);
  }

  lemma MultipleIsAlong(h: Heading, k: real, x: real, y: real)
    requires Square(h.x) + Square(h.y) == 1.0 && k > 0.0 && x == Product(k, h.x) && y == Product(k, h.y)
    ensures SameDirection(x, y, h.x, h.y)
  {
    assert x * h.x + y * h.y == k * (h.x * h.x + h.y * h.y);
  }

  lemma AlongIsSameDirection(x: real, y: real, h: Heading)
    requires Square(h.x) + Square(h.y) == 1.0
    ensures Along(x, y, h) <==> SameDirection(x, y, h.x, h.y)
  {
    hide Product, Square;
    var k := Product(x, h.x) + Product(y, h.y);
    AlongUnit(x, y, h, k);
    if Along(x, y, h) {
      var j: real :| j > 0.0 && x == Product(j, h.x) && y == Product(j, h.y);
      MultipleIsAlong(h, j, x, y);
    }
  }

  /** A turn of the plane takes two vectors with one direction to two with one direction. */
  lemma DirectionTurned(c: real, s: real, x: real, y: real, u: real, v: real, x': real, y': real, u': real, v': real)
    requires Circle(c, s)
    requires x' == Product(c, x) - Product(s, y) && y' == Product(s, x) + Product(c, y)
    requires u' == Product(c, u) - Product(s, v) && v' == Product(s, u) + Product(c, v)
    ensures Product(x', v') - Product(y', u') == Product(x, v) - Product(y, u)
    ensures Product(x', u') + Product(y', v') == Product(x, u) + Product(y, v)
  {
    DirectionTurnedRaw(c, s, x, y, u, v, c * c + s * s, x', y', u', v');
  }

  lemma DirectionTurnedRaw(c: real, s: real, x: real, y: real, u: real, v: real, k: real, x': real, y': real, u': real,
                           v': real)
    requires k == c * c + s * s
    requires x' == c * x - s * y && y' == s * x + c * y && u' == c * u - s * v && v' == s * u + c * v
    ensures x' * v' - y' * u' == k * (x * v - y * u)
    ensures x' * u' + y' * v' == k * (x * u + y * v)
  {
  }

  lemma DirectionScaled(x: real, y: real, m: real, u: real, v: real)
    requires m > 0.0
    ensures SameDirection(x, y, Product(m, u), Product(m, v)) <==> SameDirection(x, y, u, v)
    ensures Opposed(x, y, Product(m, u), Product(m, v)) <==> Opposed(x, y, u, v)
  {
    assert x * (m * v) - y * (m * u) == m * (x * v - y * u);
    assert x * (m * u) + y * (m * v) == m * (x * u + y * v);
  }

  // ----- the orientation and the field

  /** The orientation of a row before it is taken relative to the first one. */
  function Oriented(acc: Vec3, mag: Vec3, sqrt: real -> real): Quat
    requires HasHeading(acc, mag, sqrt)
  {
    NormalizedIsUnit(acc, sqrt);
    var a := Normalized(acc, sqrt);
    Prod(Azimuth(acc, mag, sqrt), Prod(ElevationQuat(a, sqrt), RollQuat(a, sqrt)))
  }

  lemma VerticalsCommute(p: Quat, q: Quat)
    requires p.x == p.y == q.x == q.y == 0.0
    ensures Prod(p, q) == Prod(q, p)
  {
  }

  /** The returned row is this orientation seen from the first azimuth: turning back by it gives the
      orientation itself. */
  lemma RowIsRelative(acc: Vec3, mag: Vec3, first: Quat, sqrt: real -> real)
    requires HasHeading(acc, mag, sqrt) && !Lost(acc, mag, sqrt) && AboutVertical(first)
    ensures Length(first, sqrt) == 1.0
    ensures Prod(first, Row(acc, mag, first, sqrt)) == Oriented(acc, mag, sqrt)
  {
    hide Square, Product, IsRoot, Prod, ElevationQuat, RollQuat, SquaredNorm, Squared, Azimuth, Lost, Normalized,
      SquaredHeading, EarthField, Quot, Times;
    NormalizedIsUnit(acc, sqrt);
    AzimuthCases(acc, mag, sqrt);
    var a, turn := Normalized(acc, sqrt), Azimuth(acc, mag, sqrt);
    QuotAboutVertical(turn, first, sqrt);
    QuotTimesDivisor(turn, first, sqrt);
    TimesUnit(turn);
    VerticalsCommute(first, Quot(turn, first, sqrt));
    ProdAssociative(first, Quot(turn, first, sqrt), Prod(ElevationQuat(a, sqrt), RollQuat(a, sqrt)));
  }

  lemma TimesUnit(q: Quat)
    ensures Times(1.0, q) == q
  {
  }

  lemma OrientedIsUnit(acc: Vec3, mag: Vec3, sqrt: real -> real)
    requires HasHeading(acc, mag, sqrt) && !Lost(acc, mag, sqrt)
    ensures Squared(Oriented(acc, mag, sqrt)) == 1.0 && Length(Oriented(acc, mag, sqrt), sqrt) == 1.0
  {
    hide Square, Product, IsRoot, Prod, ElevationQuat, RollQuat, SquaredNorm, Squared, Azimuth, Lost, Normalized,
      SquaredHeading, EarthField;
    NormalizedIsUnit(acc, sqrt);
    AzimuthCases(acc, mag, sqrt);
    var a := Normalized(acc, sqrt);
    var tilt := Prod(ElevationQuat(a, sqrt), RollQuat(a, sqrt));
    TiltIsUnit(a, sqrt);
    SquaredProd(Azimuth(acc, mag, sqrt), tilt);
    ZeroProduct(1.0);
    UnitLength(Oriented(acc, mag, sqrt), sqrt);
  }

  /** The measured field as the orientation turns it. */
  function OrientedField(acc: Vec3, mag: Vec3, sqrt: real -> real): Vec3
    requires HasHeading(acc, mag, sqrt) && !Lost(acc, mag, sqrt)
  {
    NormalizedIsUnit(mag, sqrt);
    OrientedIsUnit(acc, mag, sqrt);
    Rotate(Oriented(acc, mag, sqrt), Normalized(mag, sqrt), sqrt)
  }

  /** The horizontal part of the field lies along the reference heading. */
  ghost predicate HeadingRight(acc: Vec3, mag: Vec3, sqrt: real -> real)
    requires HasHeading(acc, mag, sqrt) && !Lost(acc, mag, sqrt)
  {
    NorthIsUnit(sqrt);
    var f := OrientedField(acc, mag, sqrt);
    Along(f.x, f.y, North(sqrt))
  }

  /** It lies exactly the other way. */
  ghost predicate HeadingReversed(acc: Vec3, mag: Vec3, sqrt: real -> real)
    requires HasHeading(acc, mag, sqrt) && !Lost(acc, mag, sqrt)
  {
    NorthIsUnit(sqrt);
    var f := OrientedField(acc, mag, sqrt);
    Along(-f.x, -f.y, North(sqrt))
  }

  /** The field turned by the tilt alone. */
  function TiltedField(acc: Vec3, mag: Vec3, sqrt: real -> real): Vec3
    requires HasHeading(acc, mag, sqrt)
  {
    NormalizedIsUnit(acc, sqrt);
    NormalizedIsUnit(mag, sqrt);
    var a := Normalized(acc, sqrt);
    TiltIsUnit(a, sqrt);
    Rotate(Prod(ElevationQuat(a, sqrt), RollQuat(a, sqrt)), Normalized(mag, sqrt), sqrt)
  }

  lemma OrientedIsTurned(acc: Vec3, mag: Vec3, sqrt: real -> real)
    requires HasHeading(acc, mag, sqrt) && !Lost(acc, mag, sqrt)
    ensures Length(Azimuth(acc, mag, sqrt), sqrt) == 1.0
    ensures OrientedField(acc, mag, sqrt) == Rotate(Azimuth(acc, mag, sqrt), TiltedField(acc, mag, sqrt), sqrt)
  {
    hide Square, Product, IsRoot, Prod, ElevationQuat, RollQuat, SquaredNorm, Azimuth, Lost, Normalized,
      SquaredHeading, EarthField, Rotate, Squared;
    NormalizedIsUnit(acc, sqrt);
    NormalizedIsUnit(mag, sqrt);
    AzimuthCases(acc, mag, sqrt);
    UnitLength(Azimuth(acc, mag, sqrt), sqrt);
    var a := Normalized(acc, sqrt);
    TiltIsUnit(a, sqrt);
    OrientedIsUnit(acc, mag, sqrt);
    RotationComposes(Azimuth(acc, mag, sqrt), Prod(ElevationQuat(a, sqrt), RollQuat(a, sqrt)), Normalized(mag, sqrt),
                     sqrt);
  }

  /** The azimuth quaternion turns the plane, so it keeps how two directions compare. */
  lemma FieldsDecide(acc: Vec3, mag: Vec3, sqrt: real -> real)
    requires HasHeading(acc, mag, sqrt) && !Lost(acc, mag, sqrt)
    ensures var e, t := EarthField(acc, mag, sqrt), TiltedField(acc, mag, sqrt);
            && (HeadingRight(acc, mag, sqrt) <==> SameDirection(t.x, t.y, e.x, e.y))
            && (HeadingReversed(acc, mag, sqrt) <==> Opposed(t.x, t.y, e.x, e.y))
  {
    hide Square, Product, IsRoot, SquaredNorm, Normalized, SquaredHeading, EarthField, TiltedField, OrientedField,
      Rotate, Squared, HalfAngles, HalfCosine, HalfSine, North, SinCosAzimuth, HeadingOf, Along;
    NorthIsUnit(sqrt);
    OrientedIsTurned(acc, mag, sqrt);
    var e, t, f := EarthField(acc, mag, sqrt), TiltedField(acc, mag, sqrt), OrientedField(acc, mag, sqrt);
    HeadingIsUnit(e.x, e.y, sqrt);
    var h, m, north := MeasuredHeading(acc, mag, sqrt), sqrt(SquaredHeading(e.x, e.y)), North(sqrt);
    AzimuthIsUnit(h, north, sqrt);
    AzimuthCircle(h, north);
    var q := Azimuth(acc, mag, sqrt);
    var (sinAz, cosAz) := SinCosAzimuth(h, north);
    AboutZ(q.w, q.z, cosAz, sinAz, t, sqrt);
    AboutZ(q.w, q.z, cosAz, sinAz, e, sqrt);
    HeadingAligned(acc, mag, sqrt);
    var g := Rotate(q, e, sqrt);
    DirectionTurned(cosAz, sinAz, t.x, t.y, e.x, e.y, f.x, f.y, g.x, g.y);
    DirectionScaled(f.x, f.y, m, north.x, north.y);
    AlongIsSameDirection(f.x, f.y, north);
    AlongIsSameDirection(-f.x, -f.y, north);
    OpposedIs(f.x, f.y, north.x, north.y);
  }

  /** The heading is right exactly when the field under the tilt and the field the azimuth was taken
      from have one direction. */
  lemma RightByFields(acc: Vec3, mag: Vec3, sqrt: real -> real)
    requires HasHeading(acc, mag, sqrt) && !Lost(acc, mag, sqrt)
    ensures var e, t := EarthField(acc, mag, sqrt), TiltedField(acc, mag, sqrt);
            HeadingRight(acc, mag, sqrt) <==> SameDirection(t.x, t.y, e.x, e.y)
  {
    hide Lost, HeadingRight, HeadingReversed, EarthField, TiltedField, SameDirection, Opposed;
    FieldsDecide(acc, mag, sqrt);
  }

  // ----- the condition on the measurements

  /** In the axes of the sensor: the field has no z component, or it lies in one plane with the z axis
      and the acceleration and is less steep than the acceleration. */
  predicate HeadingKept(acc: Vec3, mag: Vec3) {
    || mag.z == 0.0
    || (Product(acc.x, mag.y) == Product(acc.y, mag.x)
        && Product(Square(mag.z), SquaredHeading(acc.x, acc.y)) < Product(Square(acc.z), SquaredHeading(mag.x, mag.y)))
  }

  /** In one plane with the z axis and the acceleration, and steeper than it. */
  predicate HeadingTurnedBack(acc: Vec3, mag: Vec3) {
    && mag.z != 0.0 && Product(acc.x, mag.y) == Product(acc.y, mag.x)
    && Product(Square(acc.z), SquaredHeading(mag.x, mag.y)) < Product(Square(mag.z), SquaredHeading(acc.x, acc.y))
  }

  /** The parts of the two turned fields: they differ in the signs of two of them. */
  lemma TurnParts(c: real, s: real, cr: real, sr: real, v: Vec3, p: real, q: real, u: real, w: real)
    requires p == Product(c, v.x) + Product(s, Product(sr, v.y)) && q == Product(s, Product(cr, v.z))
    requires u == Product(cr, v.y) && w == Product(sr, v.z)
    ensures var t, e := Turn(c, s, cr, sr, v), Turn(c, -s, cr, -sr, v);
            t.x == p + q && t.y == u - w && e.x == p - q && e.y == u + w
  {
  }

  lemma PartsCompared(p: real, q: real, u: real, w: real)
    ensures SameDirection(p + q, u - w, p - q, u + w)
            <==> Product(p, w) + Product(q, u) == 0.0 && Square(p) + Square(u) > Square(q) + Square(w)
    ensures Opposed(p + q, u - w, p - q, u + w)
            <==> Product(p, w) + Product(q, u) == 0.0 && Square(p) + Square(u) < Square(q) + Square(w)
  {
    assert (p + q) * (u + w) - (u - w) * (p - q) == 2.0 * (p * w + q * u);
    assert (p + q) * (p - q) + (u - w) * (u + w) == p * p + u * u - (q * q + w * w);
  }

  lemma CrossOfParts(c: real, s: real, cr: real, sr: real, x: real, y: real, z: real,
                     p: real, q: real, u: real, w: real, k: real)
    requires p == c * x + s * (sr * y) && q == s * (cr * z) && u == cr * y && w == sr * z && k == cr * cr + sr * sr
    ensures p * w + q * u == z * ((c * sr) * x + k * (s * y))
  {
  }

  /** When the field is in one plane with the z axis and gravity, the first part loses a term. */
  lemma FirstPart(c: real, s: real, cr: real, sr: real, x: real, y: real, p: real)
    requires p == c * x + s * (sr * y) && cr * cr + sr * sr == 1.0 && (c * sr) * x + s * y == 0.0
    ensures p == (c * x) * (cr * cr)
  {
    assert s * (sr * y) == sr * (s * y);
    assert s * y == -((c * sr) * x);
    assert sr * -((c * sr) * x) == -((c * x) * (sr * sr));
    assert c * x - (c * x) * (sr * sr) == (c * x) * (1.0 - sr * sr);
  }

  /** The comparison of the parts against the comparison of the measurements, in squares. */
  lemma SquaresCompared(cc: real, ss: real, crcr: real, srsr: real, xx: real, yy: real, zz: real,
                        a: real, g: real, h: real, b: real, d: real)
    requires a == ss + cc * srsr && g == ss * crcr + srsr && h == xx + yy && b == cc * crcr
    requires d == crcr * (b * xx + yy) - zz * g && (cc * srsr) * xx == ss * yy
    ensures d * a == g * (h * b - zz * a)
  {
    var l, m := crcr * (b * xx + yy) * a, g * (h * b);
    var n := cc * srsr * xx - ss * yy;
    assert l - m == crcr * (cc * crcr * n - n);
    assert n == 0.0;
    assert crcr * (cc * crcr * 0.0 - 0.0) == 0.0;
    assert d * a == l - zz * g * a;
    assert g * (h * b - zz * a) == m - g * (zz * a);
    assert zz * g * a == g * (zz * a);
  }

  lemma SignOfProduct(a: real, b: real)
    requires a > 0.0
    ensures a * b > 0.0 <==> b > 0.0
    ensures a * b < 0.0 <==> b < 0.0
  {
    if b < 0.0 {
      PositiveProduct(a, -b);
    }
  }

  lemma NoSquares(cc: real, ss: real, crcr: real, srsr: real, xx: real, yy: real, zz: real)
    requires ss == srsr == 0.0 && cc == crcr == 1.0
    ensures crcr * ((cc * crcr) * xx + yy) - zz * (ss * crcr + srsr) == xx + yy
    ensures zz * (ss + cc * srsr) == 0.0 && (cc * crcr) * (xx + yy) == xx + yy
  {
    assert cc * crcr == 1.0 && ss * crcr + srsr == 0.0 && ss + cc * srsr == 0.0;
  }

  lemma BothPositive(cc: real, ss: real, crcr: real, srsr: real)
    requires cc >= 0.0 && ss >= 0.0 && crcr >= 0.0 && srsr >= 0.0 && cc + ss == 1.0 && crcr + srsr == 1.0
    requires ss > 0.0 || srsr > 0.0
    ensures ss + cc * srsr > 0.0 && ss * crcr + srsr > 0.0
  {
    assert cc * srsr >= 0.0 && ss * crcr >= 0.0;
    if ss == 0.0 {
      assert cc * srsr == srsr;
    } else if srsr == 0.0 {
      assert ss * crcr == ss;
    }
  }

  lemma SquaresOrdered(cc: real, ss: real, crcr: real, srsr: real, xx: real, yy: real, zz: real, d: real)
    requires cc >= 0.0 && ss >= 0.0 && crcr >= 0.0 && srsr >= 0.0 && cc + ss == 1.0 && crcr + srsr == 1.0
    requires d == crcr * ((cc * crcr) * xx + yy) - zz * (ss * crcr + srsr) && (cc * srsr) * xx == ss * yy
    ensures d > 0.0 <==> zz * (ss + cc * srsr) < (cc * crcr) * (xx + yy)
    ensures d < 0.0 <==> zz * (ss + cc * srsr) > (cc * crcr) * (xx + yy)
  {
    var a, g, h, b := ss + cc * srsr, ss * crcr + srsr, xx + yy, cc * crcr;
    SquaresCompared(cc, ss, crcr, srsr, xx, yy, zz, a, g, h, b, d);
    if ss > 0.0 || srsr > 0.0 {
      BothPositive(cc, ss, crcr, srsr);
      SignOfProduct(a, d);
      SignOfProduct(g, h * b - zz * a);
    } else {
      NoSquares(cc, ss, crcr, srsr, xx, yy, zz);
    }
  }

  /** What the parts weigh, in squares, when the field is in one plane with the z axis and gravity. */
  lemma PartsInSquares(c: real, s: real, cr: real, sr: real, x: real, y: real, z: real, p: real, q: real, u: real,
                       w: real)
    requires p == Product(Product(c, x), Square(cr)) && q == Product(s, Product(cr, z))
    requires u == Product(cr, y) && w == Product(sr, z)
    ensures Square(p) + Square(u) - (Square(q) + Square(w))
            == Product(Square(cr), Product(Product(Square(c), Square(cr)), Square(x)) + Square(y))
               - Product(Square(z), Product(Square(s), Square(cr)) + Square(sr))
  {
    hide Product, Square;
    SquareOfProduct(Product(c, x), Square(cr));
    SquareOfProduct(c, x);
    SquareOfSquare(Square(cr));
    SquareOfProduct(cr, y);
    SquareOfProduct(s, Product(cr, z));
    SquareOfProduct(cr, z);
    SquareOfProduct(sr, z);
    Collect(Square(c), Square(s), Square(cr), Square(sr), Square(x), Square(y), Square(z));
  }

  lemma SquareOfSquare(a: real)
    ensures Square(a) == Product(a, a)
  {
  }

  lemma Collect(cc: real, ss: real, crcr: real, srsr: real, xx: real, yy: real, zz: real)
    ensures Product(Product(cc, xx), Product(crcr, crcr)) + Product(crcr, yy)
            - (Product(ss, Product(crcr, zz)) + Product(srsr, zz))
            == Product(crcr, Product(Product(cc, crcr), xx) + yy) - Product(zz, Product(ss, crcr) + srsr)
  {
  }

  lemma ProductZero(a: real, b: real)
    ensures Product(a, b) == 0.0 <==> a == 0.0 || b == 0.0
  {
  }

  lemma NamedCross(c: real, s: real, cr: real, sr: real, x: real, y: real, z: real, p: real, q: real, u: real, w: real)
    requires Circle(cr, sr)
    requires p == Product(c, x) + Product(s, Product(sr, y)) && q == Product(s, Product(cr, z))
    requires u == Product(cr, y) && w == Product(sr, z)
    ensures Product(p, w) + Product(q, u) == Product(z, Product(Product(c, sr), x) + Product(s, y))
  {
    CrossOfParts(c, s, cr, sr, x, y, z, p, q, u, w, 1.0);
  }

  lemma PlanarParts(c: real, s: real, cr: real, sr: real, x: real, y: real, z: real, p: real, q: real, u: real, w: real)
    requires Circle(c, s) && Circle(cr, sr) && Product(Product(c, sr), x) + Product(s, y) == 0.0
    requires p == Product(c, x) + Product(s, Product(sr, y)) && q == Product(s, Product(cr, z))
    requires u == Product(cr, y) && w == Product(sr, z)
    ensures Square(p) + Square(u) > Square(q) + Square(w)
            <==> Product(Square(z), Square(s) + Product(Square(c), Square(sr)))
                 < Product(Product(Square(c), Square(cr)), Square(x) + Square(y))
    ensures Square(p) + Square(u) < Square(q) + Square(w)
            <==> Product(Square(z), Square(s) + Product(Square(c), Square(sr)))
                 > Product(Product(Square(c), Square(cr)), Square(x) + Square(y))
  {
    hide Product, Square;
    SquareSign(c);
    SquareSign(s);
    SquareSign(cr);
    SquareSign(sr);
    NamedFirstPart(c, s, cr, sr, x, y, p);
    PartsInSquares(c, s, cr, sr, x, y, z, p, q, u, w);
    ParallelSquares(c, s, sr, x, y);
    NamedOrder(Square(c), Square(s), Square(cr), Square(sr), Square(x), Square(y), Square(z),
               Square(p) + Square(u) - (Square(q) + Square(w)));
  }

  lemma NamedFirstPart(c: real, s: real, cr: real, sr: real, x: real, y: real, p: real)
    requires Circle(cr, sr) && Product(Product(c, sr), x) + Product(s, y) == 0.0
    requires p == Product(c, x) + Product(s, Product(sr, y))
    ensures p == Product(Product(c, x), Square(cr))
  {
    FirstPart(c, s, cr, sr, x, y, p);
  }

  lemma NamedOrder(cc: real, ss: real, crcr: real, srsr: real, xx: real, yy: real, zz: real, d: real)
    requires cc >= 0.0 && ss >= 0.0 && crcr >= 0.0 && srsr >= 0.0 && cc + ss == 1.0 && crcr + srsr == 1.0
    requires d == Product(crcr, Product(Product(cc, crcr), xx) + yy) - Product(zz, Product(ss, crcr) + srsr)
    requires Product(Product(cc, srsr), xx) == Product(ss, yy)
    ensures d > 0.0 <==> Product(zz, ss + Product(cc, srsr)) < Product(Product(cc, crcr), xx + yy)
    ensures d < 0.0 <==> Product(zz, ss + Product(cc, srsr)) > Product(Product(cc, crcr), xx + yy)
  {
    SquaresOrdered(cc, ss, crcr, srsr, xx, yy, zz, d);
  }

  lemma ParallelSquares(c: real, s: real, sr: real, x: real, y: real)
    requires Product(Product(c, sr), x) + Product(s, y) == 0.0
    ensures Product(Product(Square(c), Square(sr)), Square(x)) == Product(Square(s), Square(y))
  {
    hide Product, Square;
    SquareOfProduct(Product(c, sr), x);
    SquareOfProduct(c, sr);
    SquareOfProduct(s, y);
    SquareSign(Product(s, y));
    assert Product(Product(c, sr), x) == -Product(s, y);
  }

  lemma PartsKept(c: real, s: real, cr: real, sr: real, x: real, y: real, z: real, p: real, q: real, u: real, w: real)
    requires Circle(c, s) && Circle(cr, sr) && SquaredHeading(p - q, u + w) > 0.0
    requires p == Product(c, x) + Product(s, Product(sr, y)) && q == Product(s, Product(cr, z))
    requires u == Product(cr, y) && w == Product(sr, z)
    ensures SameDirection(p + q, u - w, p - q, u + w) <==>
              || z == 0.0
              || (Product(Product(c, sr), x) + Product(s, y) == 0.0
                  && Product(Square(z), Square(s) + Product(Square(c), Square(sr)))
                     < Product(Product(Square(c), Square(cr)), Square(x) + Square(y)))
    ensures Opposed(p + q, u - w, p - q, u + w) <==>
              && z != 0.0 && Product(Product(c, sr), x) + Product(s, y) == 0.0
              && Product(Square(z), Square(s) + Product(Square(c), Square(sr)))
                 > Product(Product(Square(c), Square(cr)), Square(x) + Square(y))
  {
    hide Product, Square;
    PartsCompared(p, q, u, w);
    NamedCross(c, s, cr, sr, x, y, z, p, q, u, w);
    ProductZero(z, Product(Product(c, sr), x) + Product(s, y));
    if z == 0.0 {
      ZeroProduct(s);
      ZeroProduct(cr);
      ZeroProduct(sr);
      OneSquared();
    } else if Product(Product(c, sr), x) + Product(s, y) == 0.0 {
      PlanarParts(c, s, cr, sr, x, y, z, p, q, u, w);
    }
  }

  /** The measured acceleration in terms of the two angles. */
  lemma AnglesOf(a: Vec3, sqrt: real -> real)
    requires IsRoot(sqrt) && SquaredNorm(a) == 1.0
    ensures var c, (sinRo, cosRo) := CosElevation(a, sqrt), SinCosRoll(a, sqrt);
            && Circle(c, a.x) && Circle(cosRo, sinRo)
            && Product(c, sinRo) == -a.y && Product(c, cosRo) == -a.z
  {
    hide Product, Square, IsRoot, HalfAngles;
    ElevationAngles(a, sqrt);
    RollAngles(a, sqrt);
    SquareSign(a.y);
    SquareSign(a.z);
    OneSquared();
    var c := CosElevation(a, sqrt);
    SquareSign(c);
    ZeroProduct(0.0);
    ZeroProduct(1.0);
    if c != 0.0 {
      TimesQuotient(c, -a.y);
      TimesQuotient(c, -a.z);
    }
  }

  lemma TimesQuotient(c: real, x: real)
    requires c != 0.0
    ensures Product(c, x / c) == x
  {
  }

  lemma UnitsKept(a: Vec3, b: Vec3, sqrt: real -> real)
    requires IsRoot(sqrt) && SquaredNorm(a) == 1.0
    requires var (sinRo, cosRo) := SinCosRoll(a, sqrt);
             var e := Turn(CosElevation(a, sqrt), -a.x, cosRo, -sinRo, b); SquaredHeading(e.x, e.y) > 0.0
    ensures var (sinRo, cosRo) := SinCosRoll(a, sqrt);
            var t, e := Turn(CosElevation(a, sqrt), a.x, cosRo, sinRo, b),
              Turn(CosElevation(a, sqrt), -a.x, cosRo, -sinRo, b);
            && (SameDirection(t.x, t.y, e.x, e.y) <==> HeadingKept(a, b))
            && (Opposed(t.x, t.y, e.x, e.y) <==> HeadingTurnedBack(a, b))
  {
    hide Product, Square, IsRoot, CosElevation, SinCosRoll, Turn, SameDirection, Opposed, SquaredNorm;
    AnglesOf(a, sqrt);
    var c := CosElevation(a, sqrt);
    var (sinRo, cosRo) := SinCosRoll(a, sqrt);
    var p, q := Product(c, b.x) + Product(a.x, Product(sinRo, b.y)), Product(a.x, Product(cosRo, b.z));
    var u, w := Product(cosRo, b.y), Product(sinRo, b.z);
    TurnParts(c, a.x, cosRo, sinRo, b, p, q, u, w);
    PartsKept(c, a.x, cosRo, sinRo, b.x, b.y, b.z, p, q, u, w);
    SquareOfProduct(c, sinRo);
    SquareOfProduct(c, cosRo);
    SquareSign(a.y);
    SquareSign(a.z);
    Negated(a.y, b.x);
  }

  /** Only the directions of the two measurements matter. */
  lemma KeptScaled(k: real, l: real, acc: Vec3, mag: Vec3, a: Vec3, b: Vec3)
    requires k > 0.0 && l > 0.0
    requires a == Vec3(Product(k, acc.x), Product(k, acc.y), Product(k, acc.z))
    requires b == Vec3(Product(l, mag.x), Product(l, mag.y), Product(l, mag.z))
    ensures HeadingKept(a, b) <==> HeadingKept(acc, mag)
    ensures HeadingTurnedBack(a, b) <==> HeadingTurnedBack(acc, mag)
  {
    hide Product, Square;
    PositiveProduct(k, l);
    PositiveProduct(k, k);
    PositiveProduct(l, l);
    SquareOfSquare(k);
    SquareOfSquare(l);
    PositiveProduct(Square(k), Square(l));
    ProductZero(l, mag.z);
    CrossScaled(k, l, acc, mag);
    OrderScaled(k, l, mag.z, acc.x, acc.y);
    OrderScaled(l, k, acc.z, mag.x, mag.y);
    Negated(Square(k), Square(l));
    SignOfNamed(Product(Square(k), Square(l)),
                Product(Square(acc.z), SquaredHeading(mag.x, mag.y)),
                Product(Square(mag.z), SquaredHeading(acc.x, acc.y)));
  }

  lemma CrossScaled(k: real, l: real, acc: Vec3, mag: Vec3)
    requires k > 0.0 && l > 0.0
    ensures Product(Product(k, acc.x), Product(l, mag.y)) == Product(Product(k, acc.y), Product(l, mag.x))
            <==> Product(acc.x, mag.y) == Product(acc.y, mag.x)
  {
    var d := acc.x * mag.y - acc.y * mag.x;
    assert (k * acc.x) * (l * mag.y) - (k * acc.y) * (l * mag.x) == (k * l) * d;
    ProductZero(k * l, d);
    ProductZero(k, l);
  }

  lemma OrderScaled(k: real, l: real, z: real, x: real, y: real)
    ensures Product(Square(Product(l, z)), SquaredHeading(Product(k, x), Product(k, y)))
            == Product(Product(Square(k), Square(l)), Product(Square(z), SquaredHeading(x, y)))
  {
    hide Product, Square;
    SquareOfProduct(l, z);
    SquareOfProduct(k, x);
    SquareOfProduct(k, y);
    Rearranged(Square(k), Square(l), Square(z), Square(x), Square(y));
  }

  lemma Rearranged(k: real, l: real, z: real, x: real, y: real)
    ensures Product(Product(l, z), Product(k, x) + Product(k, y)) == Product(Product(k, l), Product(z, x + y))
  {
  }

  lemma SignOfNamed(k: real, x: real, y: real)
    requires k > 0.0
    ensures Product(k, x) > Product(k, y) <==> x > y
    ensures Product(k, x) < Product(k, y) <==> x < y
  {
    SignOfProduct(k, x - y);
  }

  lemma HeadingCases(acc: Vec3, mag: Vec3, sqrt: real -> real)
    requires HasHeading(acc, mag, sqrt) && !Lost(acc, mag, sqrt)
    ensures HeadingRight(acc, mag, sqrt) <==> HeadingKept(acc, mag)
    ensures HeadingReversed(acc, mag, sqrt) <==> HeadingTurnedBack(acc, mag)
  {
    hide Product, Square, IsRoot, CosElevation, SinCosRoll, Turn, SameDirection, Opposed, SquaredNorm, Rotate, Prod,
      Quot, ElevationQuat, RollQuat, HeadingRight, HeadingReversed, Lost, HeadingKept, HeadingTurnedBack, Reciprocal;
    FieldsDecide(acc, mag, sqrt);
    NormalizedIsUnit(acc, sqrt);
    NormalizedIsUnit(mag, sqrt);
    var a, b := Normalized(acc, sqrt), Normalized(mag, sqrt);
    TiltIsTurn(a, b, sqrt);
    InverseIsTurn(a, b, sqrt);
    UnitsKept(a, b, sqrt);
    NormalizedIsScaled(acc, sqrt);
    NormalizedIsScaled(mag, sqrt);
    KeptScaled(Reciprocal(sqrt(SquaredNorm(acc))), Reciprocal(sqrt(SquaredNorm(mag))), acc, mag, a, b);
  }

  /** The heading of an orientation, exactly: it takes the horizontal part of the measured field onto
      the reference heading if and only if the measurements satisfy HeadingKept. */
  lemma HeadingExactly(acc: Vec3, mag: Vec3, sqrt: real -> real)
    requires HasHeading(acc, mag, sqrt) && !Lost(acc, mag, sqrt)
    ensures HeadingRight(acc, mag, sqrt) <==> HeadingKept(acc, mag)
  {
    hide HasHeading, HeadingRight, HeadingReversed, HeadingKept, HeadingTurnedBack, Lost;
    HeadingCases(acc, mag, sqrt);
  }

  /** And it points the field exactly the other way if and only if they satisfy HeadingTurnedBack. */
  lemma HeadingReversedExactly(acc: Vec3, mag: Vec3, sqrt: real -> real)
    requires HasHeading(acc, mag, sqrt) && !Lost(acc, mag, sqrt)
    ensures HeadingReversed(acc, mag, sqrt) <==> HeadingTurnedBack(acc, mag)
  {
    hide HasHeading, HeadingRight, HeadingReversed, HeadingKept, HeadingTurnedBack, Lost;
    HeadingCases(acc, mag, sqrt);
  }

  lemma NormalizedIsScaled(v: Vec3, sqrt: real -> real)
    requires sqrt(SquaredNorm(v)) > 0.0
    ensures var k := Reciprocal(sqrt(SquaredNorm(v)));
            k > 0.0 && Normalized(v, sqrt) == Vec3(Product(k, v.x), Product(k, v.y), Product(k, v.z))
  {
    var n := sqrt(SquaredNorm(v));
    DivideByProduct(v.x, n);
    DivideByProduct(v.y, n);
    DivideByProduct(v.z, n);
  }

  // ----- a measurement with the heading the wrong way round

  const TILTED := Vec3(0.6, 0.0, -0.8)
  const VERTICAL_FIELD := Vec3(0.0, 0.0, 1.0)

  lemma UnitIsNormalized(v: Vec3, sqrt: real -> real)
    requires IsRoot(sqrt) && SquaredNorm(v) == 1.0
    ensures sqrt(SquaredNorm(v)) == 1.0 && Normalized(v, sqrt) == v
  {
    RootOfSquare(sqrt, 1.0);
  }

  lemma Decimals()
    ensures Square(0.6) == 0.36 && Square(0.8) == 0.64 && Square(-0.8) == 0.64
  {
  }

  lemma TiltedAngles(sqrt: real -> real)
    requires IsRoot(sqrt)
    ensures SquaredNorm(TILTED) == SquaredNorm(VERTICAL_FIELD) == 1.0
    ensures CosElevation(TILTED, sqrt) == 0.8 && SinCosRoll(TILTED, sqrt) == (0.0, 1.0)
  {
    hide Product, Square, IsRoot;
    Decimals();
    OneSquared();
    RootOfSquare(sqrt, 0.8);
  }

  lemma TiltedTurns()
    ensures Turn(0.8, -0.6, 1.0, -0.0, VERTICAL_FIELD) == Vec3(-0.6, 0.0, 0.8)
    ensures Turn(0.8, 0.6, 1.0, 0.0, VERTICAL_FIELD) == Vec3(0.6, 0.0, 0.8)
  {
    hide Product;
    ZeroProduct(0.0);
    ZeroProduct(1.0);
    ZeroProduct(0.6);
    ZeroProduct(-0.6);
    ZeroProduct(0.8);
  }

  lemma TiltedFields(sqrt: real -> real)
    requires IsRoot(sqrt)
    ensures Measured(TILTED, VERTICAL_FIELD) && HasHeading(TILTED, VERTICAL_FIELD, sqrt)
    ensures EarthField(TILTED, VERTICAL_FIELD, sqrt) == Vec3(-0.6, 0.0, 0.8)
    ensures TiltedField(TILTED, VERTICAL_FIELD, sqrt) == Vec3(0.6, 0.0, 0.8)
  {
    hide IsRoot, Rotate, Prod, Quot, ElevationQuat, RollQuat, SinCosRoll, CosElevation, SquaredNorm, Turn;
    TiltedAngles(sqrt);
    UnitIsNormalized(TILTED, sqrt);
    UnitIsNormalized(VERTICAL_FIELD, sqrt);
    TiltIsTurn(TILTED, VERTICAL_FIELD, sqrt);
    InverseIsTurn(TILTED, VERTICAL_FIELD, sqrt);
    TiltedTurns();
  }

  /** The field is too steep. */
  lemma TiltedIsTurnedBack()
    ensures HeadingTurnedBack(TILTED, VERTICAL_FIELD)
  {
    hide Product, Square;
    ZeroProduct(0.0);
    ZeroProduct(0.6);
    Decimals();
    OneSquared();
    ZeroProduct(0.36);
    ZeroProduct(0.64);
  }

  lemma PositiveQuotient(x: real, n: real)
    requires x > 0.0 && n > 0.0
    ensures x / n > 0.0
  {
  }

  lemma NorthIsEastOf(sqrt: real -> real)
    requires IsRoot(sqrt)
    ensures sqrt(SquaredNorm(MAG_FIELD)) > 0.0
    ensures var u := Normalized(MAG_FIELD, sqrt); sqrt(SquaredHeading(u.x, u.y)) > 0.0
    ensures North(sqrt).y > 0.0
  {
    hide IsRoot, SquaredNorm, SquaredHeading;
    NorthIsUnit(sqrt);
    var n := sqrt(SquaredNorm(MAG_FIELD));
    PositiveQuotient(MAG_FIELD.y, n);
    var u := Normalized(MAG_FIELD, sqrt);
    PositiveQuotient(u.y, sqrt(SquaredHeading(u.x, u.y)));
  }

  lemma SouthHeading(sqrt: real -> real)
    requires IsRoot(sqrt)
    ensures sqrt(SquaredHeading(-0.6, 0.0)) == 0.6 && HeadingOf(-0.6, 0.0, sqrt) == Heading(-1.0, 0.0)
  {
    hide Product, Square, IsRoot;
    SquareSign(0.6);
    OneSquared();
    RootOfSquare(sqrt, 0.6);
  }

  lemma SouthIsNotLost(acc: Vec3, mag: Vec3, sqrt: real -> real)
    requires IsRoot(sqrt) && HasHeading(acc, mag, sqrt)
    requires EarthField(acc, mag, sqrt) == Vec3(-0.6, 0.0, 0.8)
    ensures !Lost(acc, mag, sqrt)
  {
    hide EarthField, IsRoot, Product, North, HeadingOf, SquaredHeading, SquaredNorm;
    SouthHeading(sqrt);
    NorthIsEastOf(sqrt);
    ZeroProduct(North(sqrt).x);
    ZeroProduct(North(sqrt).y);
    Negated(1.0, North(sqrt).y);
  }

  /** The heading can be wrong altogether: with the sensor tilted and the field along its z axis, the
      orientation points the field exactly away from the reference heading. */
  lemma HeadingCanReverse(sqrt: real -> real)
    requires IsRoot(sqrt)
    ensures exists acc, mag ::
              HasHeading(acc, mag, sqrt) && !Lost(acc, mag, sqrt) && HeadingReversed(acc, mag, sqrt)
  {
    hide Product, Square, IsRoot, HasHeading, EarthField, TiltedField, Lost, HeadingReversed, HeadingTurnedBack;
    TiltedFields(sqrt);
    SouthIsNotLost(TILTED, VERTICAL_FIELD, sqrt);
    TiltedIsTurnedBack();
    HeadingReversedExactly(TILTED, VERTICAL_FIELD, sqrt);
    assert HeadingReversed(TILTED, VERTICAL_FIELD, sqrt);
  }
}
