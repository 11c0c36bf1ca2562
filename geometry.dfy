// Value types of the layout engine: angles, coordinates, dimensions and
// rectangles, with their component-wise arithmetic and collision tests.
module Geometry {

  /** Adjacent and Opposite are aliases of Horizontal and Vertical. */
  datatype Angle = Horizontal | Vertical

  const Adjacent: Angle := Horizontal
  const Opposite: Angle := Vertical

  datatype Alignment = Inner | Center | Outer

  datatype FillPrecedence = Greedy | Shrinky

  datatype Coords = Coords(x: int, y: int)
  datatype Dimens = Dimens(w: int, h: int)
  datatype Rect = Rect(c: Coords, d: Dimens)

  /** Default-constructed values are (0,0). */
  const ZeroCoords: Coords := Coords(0, 0)
  const ZeroDimens: Dimens := Dimens(0, 0)

  /** `Rect(Dimens)`: the origin stays at its default (0,0). */
  function RectOf(d: Dimens): Rect { Rect(ZeroCoords, d) }

  function OtherAngle(a: Angle): Angle
  {
    if a == Horizontal then Vertical else Horizontal
  }

  // ---- component selection: `get(angle)` ----

  /** `Coords::get`: Horizontal selects x, any other angle y. */
  function CoordsGet(c: Coords, a: Angle): int
  {
    if a == Horizontal then c.x else c.y
  }

  /** `Dimens::get`: Horizontal selects w, any other angle h. */
  function DimensGet(d: Dimens, a: Angle): int
  {
    if a == Horizontal then d.w else d.h
  }

  /** Writing through the reference `get(angle) = v`. */
  function CoordsSet(c: Coords, a: Angle, v: int): (r: Coords)
    ensures CoordsGet(r, a) == v
    ensures CoordsGet(r, OtherAngle(a)) == CoordsGet(c, OtherAngle(a))
  {
    if a == Horizontal then c.(x := v) else c.(y := v)
  }

  function DimensSet(d: Dimens, a: Angle, v: int): (r: Dimens)
    ensures DimensGet(r, a) == v
    ensures DimensGet(r, OtherAngle(a)) == DimensGet(d, OtherAngle(a))
  {
    if a == Horizontal then d.(w := v) else d.(h := v)
  }

  /** Two dimensions that agree on both angles are equal. */
  lemma DimensExtensional(d: Dimens, e: Dimens)
    requires DimensGet(d, Horizontal) == DimensGet(e, Horizontal)
    requires DimensGet(d, Vertical) == DimensGet(e, Vertical)
    ensures d == e
  {
  }

  /** Building a Dimens from its two angles gives the same value. */
  lemma DimensSetBoth(d: Dimens, a: Angle, u: int, v: int)
    ensures DimensSet(DimensSet(d, a, u), OtherAngle(a), v) == DimensSet(DimensSet(d, OtherAngle(a), v), a, u)
  {
  }

  // ---- arithmetic ----

  function CoordsAdd(l: Coords, r: Coords): Coords { Coords(l.x + r.x, l.y + r.y) }
  function CoordsSub(l: Coords, r: Coords): Coords { Coords(l.x - r.x, l.y - r.y) }
  function DimensAdd(l: Dimens, r: Dimens): Dimens { Dimens(l.w + r.w, l.h + r.h) }
  function DimensSub(l: Dimens, r: Dimens): Dimens { Dimens(l.w - r.w, l.h - r.h) }
  /** `Coords + Dimens` moves the point by the extent. */
  function CoordsPlusDimens(l: Coords, r: Dimens): Coords { Coords(l.x + r.w, l.y + r.h) }
  /** `Dimens(Coords)`: x becomes w and y becomes h. */
  function DimensOf(c: Coords): Dimens { Dimens(c.x, c.y) }
  /** `Coords(Dimens)`: w becomes x and h becomes y. */
  function CoordsOf(d: Dimens): Coords { Coords(d.w, d.h) }

  /** Arithmetic is component-wise on every angle. */
  lemma ArithmeticIsComponentwise(c1: Coords, c2: Coords, d1: Dimens, d2: Dimens, a: Angle)
    ensures CoordsGet(CoordsAdd(c1, c2), a) == CoordsGet(c1, a) + CoordsGet(c2, a)
    ensures CoordsGet(CoordsSub(c1, c2), a) == CoordsGet(c1, a) - CoordsGet(c2, a)
    ensures DimensGet(DimensAdd(d1, d2), a) == DimensGet(d1, a) + DimensGet(d2, a)
    ensures DimensGet(DimensSub(d1, d2), a) == DimensGet(d1, a) - DimensGet(d2, a)
    ensures CoordsGet(CoordsPlusDimens(c1, d1), a) == CoordsGet(c1, a) + DimensGet(d1, a)
  {
  }

  /** Subtraction undoes addition, and the two conversions are inverse. */
  lemma ArithmeticInverses(c1: Coords, c2: Coords, d1: Dimens, d2: Dimens)
    ensures CoordsSub(CoordsAdd(c1, c2), c2) == c1
    ensures DimensSub(DimensAdd(d1, d2), d2) == d1
    ensures CoordsOf(DimensOf(c1)) == c1 && DimensOf(CoordsOf(d1)) == d1
    ensures CoordsPlusDimens(c1, d1) == CoordsAdd(c1, CoordsOf(d1))
  {
  }

  // ---- collision ----

  /** `Rect::checkCollision(Coords)`: the half-open box [c.x, c.x+w) x [c.y, c.y+h). */
  predicate PointCollides(r: Rect, p: Coords)
  {
    p.x >= r.c.x && p.x < r.c.x + r.d.w && p.y >= r.c.y && p.y < r.c.y + r.d.h
  }

  /** The half-open interval [lo, lo+len). */
  predicate InSpan(v: int, lo: int, len: int) { lo <= v < lo + len }

  lemma PointCollidesIffInBothSpans(r: Rect, p: Coords)
    ensures PointCollides(r, p) <==>
              forall a: Angle :: InSpan(CoordsGet(p, a), CoordsGet(r.c, a), DimensGet(r.d, a))
  {
    if !PointCollides(r, p) {
      if !InSpan(p.x, r.c.x, r.d.w) {
        assert !InSpan(CoordsGet(p, Horizontal), CoordsGet(r.c, Horizontal), DimensGet(r.d, Horizontal));
      } else {
        assert !InSpan(CoordsGet(p, Vertical), CoordsGet(r.c, Vertical), DimensGet(r.d, Vertical));
      }
    }
  }

  /** `Rect::checkCollision(Rect)` as written: the y test uses the box's width. */
  predicate RectCollidesAsWritten(self: Rect, box: Rect)
  {
    self.c.x < box.c.x + box.d.w &&
    self.c.y < box.c.y + box.d.w &&
    box.c.x < self.c.x + self.d.w &&
    box.c.y < self.c.y + self.d.h
  }

  /** The evidently intended test: strict overlap on both axes. */
  predicate RectCollides(self: Rect, box: Rect)
  {
    self.c.x < box.c.x + box.d.w &&
    self.c.y < box.c.y + box.d.h &&
    box.c.x < self.c.x + self.d.w &&
    box.c.y < self.c.y + self.d.h
  }

  /** A box 10 wide and 2 high at the origin does not reach y = 5, yet the
      written test reports a collision with a rectangle starting there. */
  lemma RectCollisionCounterexample()
    ensures RectCollidesAsWritten(Rect(Coords(0, 5), Dimens(10, 10)), Rect(Coords(0, 0), Dimens(10, 2)))
    ensures !RectCollides(Rect(Coords(0, 5), Dimens(10, 10)), Rect(Coords(0, 0), Dimens(10, 2)))
  {
  }

  /** The written test agrees with the intended one on square boxes, such as
      the 1x1 mouse rectangle of hover detection. */
  lemma RectCollisionAgreesOnSquareBoxes(self: Rect, box: Rect)
    requires box.d.w == box.d.h
    ensures RectCollidesAsWritten(self, box) == RectCollides(self, box)
  {
  }

  /** Overlap is symmetric, and a 1x1 box collides exactly when its corner
      is inside the rectangle. */
  lemma RectCollidesProperties(self: Rect, box: Rect, p: Coords)
    ensures RectCollides(self, box) == RectCollides(box, self)
    ensures RectCollides(self, Rect(p, Dimens(1, 1))) == PointCollides(self, p)
  {
  }

  /** `zeroGuard`: never negative, and the identity on non-negative values. */
  function ZeroGuard(i: int): (r: nat)
    ensures i >= 0 ==> r == i
    ensures i < 0 ==> r == 0
  {
    if i < 0 then 0 else i
  }

  function Max(a: int, b: int): int { if a >= b then a else b }
  function Min(a: int, b: int): int { if a <= b then a else b }
}
