/** Virtual desktops mapped onto one large viewport (KX11Extras), at device pixel ratio 1.
    Points are relative to the current viewport origin or absolute, as in the source. */
module Viewport {

  datatype Point = Point(x: int, y: int)
  datatype Size = Size(w: int, h: int)

  /** C++ division and remainder: the quotient is truncated toward zero. */
  function TDiv(a: int, b: int): int
    requires b > 0
  {
    if a >= 0 then a / b else -(-a / b)
  }

  function TMod(a: int, b: int): int
    requires b > 0
  {
    a - TDiv(a, b) * b
  }

  /** The size of the display, the size of the whole desktop, and the current origin. */
  datatype Screen = Screen(display: Size, geometry: Size, origin: Point)

  predicate ValidScreen(s: Screen) {
    && s.display.w > 0 && s.display.h > 0 && s.geometry.w > 0 && s.geometry.h > 0
    && 0 <= s.origin.x < s.geometry.w && 0 <= s.origin.y < s.geometry.h
  }

  function Columns(s: Screen): int
    requires ValidScreen(s)
  {
    TDiv(s.geometry.w, s.display.w)
  }

  function Rows(s: Screen): int
    requires ValidScreen(s)
  {
    TDiv(s.geometry.h, s.display.h)
  }

  // ---------------------------------------------------------------- the mappings

  function NumberOfDesktops(s: Screen): int
    requires ValidScreen(s)
  {
    TDiv(TDiv(s.geometry.w, s.display.w) * s.geometry.h, s.display.h)
  }

  /** The column or row of an absolute coordinate. */
  function Cell(p: int, size: int, display: int): int
    requires display > 0
  {
    if p < 0 then 0 else if p >= size then TDiv(size, display) - 1 else TDiv(p, display)
  }

  function ViewportToDesktop(s: Screen, p: Point): int
    requires ValidScreen(s)
  {
    Cell(p.y, s.geometry.h, s.display.h) * Columns(s) + Cell(p.x, s.geometry.w, s.display.w) + 1
  }

  predicate IsDesktop(s: Screen, desktop: int)
    requires ValidScreen(s)
  {
    0 < desktop <= Columns(s) * Rows(s)
  }

  lemma ColumnsPositive(s: Screen, desktop: int)
    requires ValidScreen(s) && IsDesktop(s, desktop)
    ensures Columns(s) > 0 && Rows(s) > 0
  {
    DivFacts(s.geometry.w, s.display.w);
    DivFacts(s.geometry.h, s.display.h);
    PositiveFactors(Columns(s), Rows(s));
  }

  /** The absolute origin of a desktop. */
  function Corner(s: Screen, desktop: int): Point
    requires ValidScreen(s)
  {
    if !IsDesktop(s, desktop) then Point(0, 0)
    else
      ColumnsPositive(s, desktop);
      Point(s.display.w * TMod(desktop - 1, Columns(s)), s.display.h * TDiv(desktop - 1, Columns(s)))
  }

  /** One correction by the desktop size in each direction. */
  function WrapOnce(p: int, size: int): int {
    var q := if p >= size then p - size else p;
    if q < 0 then q + size else q
  }

  function DesktopToViewport(s: Screen, desktop: int, absolute: bool): Point
    requires ValidScreen(s)
  {
    var c := Corner(s, desktop);
    if absolute || !IsDesktop(s, desktop) then c
    else Point(WrapOnce(c.x - s.origin.x, s.geometry.w), WrapOnce(c.y - s.origin.y, s.geometry.h))
  }

  function ConstrainOne(p: int, origin: int, size: int): int
    requires size > 0
  {
    var m := TMod(p + origin, size);
    (if m < 0 then m + size else m) - origin
  }

  function ConstrainViewportRelativePosition(s: Screen, p: Point): Point
    requires ValidScreen(s)
  {
    Point(ConstrainOne(p.x, s.origin.x, s.geometry.w), ConstrainOne(p.y, s.origin.y, s.geometry.h))
  }

  /** QRect::center of one axis; the last pixel is at p + size - 1. */
  function Centre(p: int, size: int): int {
    TDiv(p + (p + size - 1), 2)
  }

  function ViewportWindowToDesktop(s: Screen, p: Point, size: Size): int
    requires ValidScreen(s)
  {
    ViewportToDesktop(s, Point(Centre(p.x, size.w) + s.origin.x, Centre(p.y, size.h) + s.origin.y))
  }

  // ---------------------------------------------------------------- arithmetic

  lemma DivFacts(a: int, b: int)
    requires a >= 0 && b > 0
    ensures TDiv(a, b) == a / b && TMod(a, b) == a % b
    ensures 0 <= TMod(a, b) < b && 0 <= TDiv(a, b)
    ensures a == TDiv(a, b) * b + TMod(a, b)
  {
  }

  lemma PositiveFactors(a: int, b: int)
    requires a >= 0 && b >= 0 && a * b > 0
    ensures a > 0 && b > 0
  {
  }

  /** A quotient is below n exactly when the dividend is below n times the divisor. */
  lemma QuotientBelow(q: int, r: int, d: int, n: int)
    requires 0 <= r < d
    ensures q < n <==> q * d + r < n * d
  {
    if q < n {
      MulMonotone(q + 1, n, d);
    } else {
      MulMonotone(n, q, d);
    }
  }

  lemma MulMonotone(a: int, b: int, c: int)
    requires a <= b && c >= 0
    ensures a * c <= b * c
  {
  }

  /** a / b is determined by its bounds. */
  lemma DivUnique(a: int, b: int, q: int)
    requires a >= 0 && b > 0 && q * b <= a < (q + 1) * b
    ensures TDiv(a, b) == q && q >= 0
  {
    DivFacts(a, b);
    hide TDiv, TMod;
    QuotientBelow(TDiv(a, b), TMod(a, b), b, q);
    QuotientBelow(TDiv(a, b), TMod(a, b), b, q + 1);
  }

  /** The C++ remainder brought into range by one addition, as a congruence. */
  lemma ModFacts(a: int, b: int)
    requires b > 0
    ensures var m := TMod(a, b);
            var r := if m < 0 then m + b else m;
            0 <= r < b && exists k :: a == k * b + r
  {
    var m := TMod(a, b);
    assert a == TDiv(a, b) * b + m;
    if a >= 0 {
      DivFacts(a, b);
    } else {
      DivFacts(-a, b);
      assert m == -TMod(-a, b);
    }
    if m < 0 {
      assert a == (TDiv(a, b) - 1) * b + (m + b);
    }
  }

  // ---------------------------------------------------------------- numbering round trips

  /** The cell of a point is found from any offset inside it. */
  lemma CellOf(q: int, offset: int, size: int, display: int)
    requires display > 0 && size > 0 && 0 <= q < TDiv(size, display) && 0 <= offset < display
    ensures 0 <= q * display + offset < size
    ensures Cell(q * display + offset, size, display) == q
  {
    DivFacts(size, display);
    MulMonotone(0, q, display);
    QuotientBelow(q, offset, display, TDiv(size, display));
    DivUnique(q * display + offset, display, q);
  }

  /** Desktop numbers count rows, then columns. */
  lemma GridOf(s: Screen, desktop: int)
    requires ValidScreen(s) && IsDesktop(s, desktop)
    ensures Columns(s) > 0
    ensures var col := TMod(desktop - 1, Columns(s));
            var row := TDiv(desktop - 1, Columns(s));
            && 0 <= col < Columns(s) && 0 <= row < Rows(s)
            && desktop == row * Columns(s) + col + 1
            && Corner(s, desktop) == Point(s.display.w * col, s.display.h * row)
  {
    ColumnsPositive(s, desktop);
    DivFacts(desktop - 1, Columns(s));
    hide TDiv, TMod;
    QuotientBelow(TDiv(desktop - 1, Columns(s)), TMod(desktop - 1, Columns(s)), Columns(s), Rows(s));
  }

  /** Every point of a desktop's cell maps to that desktop, and lies inside the geometry. */
  lemma InsideCell(s: Screen, desktop: int, offset: Point)
    requires ValidScreen(s) && IsDesktop(s, desktop)
    requires 0 <= offset.x < s.display.w && 0 <= offset.y < s.display.h
    ensures var p := Point(Corner(s, desktop).x + offset.x, Corner(s, desktop).y + offset.y);
            && 0 <= p.x < s.geometry.w && 0 <= p.y < s.geometry.h
            && ViewportToDesktop(s, p) == desktop
  {
    hide TDiv, TMod, Cell, Corner;
    GridOf(s, desktop);
    var col := TMod(desktop - 1, Columns(s));
    var row := TDiv(desktop - 1, Columns(s));
    CellOf(col, offset.x, s.geometry.w, s.display.w);
    CellOf(row, offset.y, s.geometry.h, s.display.h);
    assert s.display.w * col == col * s.display.w && s.display.h * row == row * s.display.h;
  }

  /** Which column or row a coordinate is in: the one whose pixels it is among; before the first
      the first, and beyond the geometry the last whole one. */
  lemma CellExactly(p: int, size: int, display: int)
    requires display > 0 && size > 0
    ensures p < 0 ==> Cell(p, size, display) == 0
    ensures 0 <= p < size ==> Cell(p, size, display) * display <= p < (Cell(p, size, display) + 1) * display
    ensures p >= size ==> var n := Cell(p, size, display); (n + 1) * display <= size < (n + 2) * display
  {
    DivFacts(if p < 0 then 0 else p, display);
    DivFacts(size, display);
    hide TDiv, TMod;
    var n := if 0 <= p < size then TDiv(p, display) else TDiv(size, display);
    assert (n + 1) * display == n * display + display;
  }

  /** Which desktop a point is on: desktops are numbered from 1, row by row, and a row has as many
      as whole displays fit into the width. */
  lemma DesktopExactly(s: Screen, p: Point)
    requires ValidScreen(s)
    ensures var x, y := Cell(p.x, s.geometry.w, s.display.w), Cell(p.y, s.geometry.h, s.display.h);
            ViewportToDesktop(s, p) == y * (s.geometry.w / s.display.w) + x + 1
  {
    DivFacts(s.geometry.w, s.display.w);
    hide TMod, Cell;
  }

  /** viewportToDesktop inverts the absolute desktopToViewport on every desktop. */
  lemma CornerRoundTrip(s: Screen, desktop: int)
    requires ValidScreen(s) && IsDesktop(s, desktop)
    ensures ViewportToDesktop(s, DesktopToViewport(s, desktop, true)) == desktop
  {
    InsideCell(s, desktop, Point(0, 0));
  }

  /** A coordinate lies in the grid or in the strip left over after the last whole display. */
  lemma CellInGrid(p: int, size: int, display: int)
    requires display > 0 && 0 <= p < size
    ensures var n := TDiv(size, display);
            && 0 <= Cell(p, size, display) <= n
            && (Cell(p, size, display) < n <==> p < n * display)
  {
    DivFacts(size, display);
    DivFacts(p, display);
    hide TDiv, TMod;
    var n := TDiv(size, display);
    QuotientBelow(TDiv(p, display), TMod(p, display), display, n);
    QuotientBelow(TDiv(p, display), TMod(p, display), display, n + 1);
    QuotientBelow(n, TMod(size, display), display, n + 1);
  }

  /** The other direction: the corner of the desktop of a point inside the geometry is the
      corner of the cell that holds the point exactly when the point is not in the strip that
      a geometry which is no multiple of the display leaves at the right and at the bottom. */
  lemma PointRoundTrip(s: Screen, p: Point)
    requires ValidScreen(s) && 0 <= p.x < s.geometry.w && 0 <= p.y < s.geometry.h
    requires Columns(s) > 0 && Rows(s) > 0
    ensures var cell := Point(s.display.w * (p.x / s.display.w), s.display.h * (p.y / s.display.h));
            DesktopToViewport(s, ViewportToDesktop(s, p), true) == cell
            <==> p.x < Columns(s) * s.display.w && p.y < Rows(s) * s.display.h
  {
    var x, y := Cell(p.x, s.geometry.w, s.display.w), Cell(p.y, s.geometry.h, s.display.h);
    var d := ViewportToDesktop(s, p);
    CellInGrid(p.x, s.geometry.w, s.display.w);
    CellInGrid(p.y, s.geometry.h, s.display.h);
    DivFacts(p.x, s.display.w);
    DivFacts(p.y, s.display.h);
    hide TDiv, TMod, Cell;
    if y >= Rows(s) {
      MulMonotone(Rows(s), y, Columns(s));
      assert !IsDesktop(s, d);
      PositiveProduct(s.display.h, y);
    } else if x >= Columns(s) {
      if IsDesktop(s, d) {
        GridOf(s, d);
        LastColumnWraps(s, d, y);
      }
      PositiveProduct(s.display.w, x);
    } else {
      MulMonotone(y + 1, Rows(s), Columns(s));
      GridOfCell(s, x, y);
    }
  }

  lemma PositiveProduct(a: int, b: int)
    requires a > 0 && b > 0
    ensures a * b > 0
  {
  }

  /** A desktop number with a column past the last one belongs to the next row. */
  lemma LastColumnWraps(s: Screen, d: int, y: int)
    requires ValidScreen(s) && IsDesktop(s, d) && Columns(s) > 0
    requires 0 <= y && d == y * Columns(s) + Columns(s) + 1
    ensures Corner(s, d).x == 0
  {
    assert d - 1 == (y + 1) * Columns(s);
    MulMonotone(y + 1, y + 2, Columns(s));
    DivUnique(d - 1, Columns(s), y + 1);
    assert TMod(d - 1, Columns(s)) == 0;
  }

  lemma GridOfCell(s: Screen, x: int, y: int)
    requires ValidScreen(s) && 0 <= x < Columns(s) && 0 <= y < Rows(s)
    ensures IsDesktop(s, y * Columns(s) + x + 1)
    ensures Corner(s, y * Columns(s) + x + 1) == Point(s.display.w * x, s.display.h * y)
  {
    var d := y * Columns(s) + x + 1;
    MulMonotone(y + 1, Rows(s), Columns(s));
    MulMonotone(0, y, Columns(s));
    assert (y + 1) * Columns(s) == y * Columns(s) + Columns(s);
    DivUnique(d - 1, Columns(s), y);
  }

  /** numberOfDesktops divides in another order. It never counts too few, and counts exactly
      the desktops of the grid when the rows left over do not add up to another display. */
  lemma NumberOfDesktopsExact(s: Screen)
    requires ValidScreen(s)
    ensures NumberOfDesktops(s) >= Columns(s) * Rows(s)
    ensures NumberOfDesktops(s) == Columns(s) * Rows(s)
            <==> Columns(s) * (s.geometry.h % s.display.h) < s.display.h
    ensures s.geometry.h % s.display.h == 0 ==> NumberOfDesktops(s) == Columns(s) * Rows(s)
  {
    var xs, ys, r, v := Columns(s), Rows(s), s.geometry.h % s.display.h, s.display.h;
    DivFacts(s.geometry.w, s.display.w);
    DivFacts(s.geometry.h, v);
    hide TDiv, TMod;
    MulMonotone(0, xs, r);
    MulMonotone(0, ys, xs);
    DivFacts(xs * r, v);
    Spread(xs, ys, v, r);
    SpreadQuotient(xs * s.geometry.h, xs * ys, xs * r, v);
    QuotientBelow(TDiv(xs * r, v), TMod(xs * r, v), v, 1);
  }

  lemma Spread(xs: int, ys: int, v: int, r: int)
    ensures xs * (ys * v + r) == xs * ys * v + xs * r
  {
  }

  /** Whole multiples come out of a quotient. */
  lemma SpreadQuotient(a: int, q: int, b: int, v: int)
    requires v > 0 && b >= 0 && q >= 0 && a == q * v + b && a >= 0
    ensures TDiv(a, v) == q + TDiv(b, v) && TDiv(b, v) >= 0
  {
    DivFacts(b, v);
    var e := TDiv(b, v);
    assert (q + e) * v == q * v + e * v;
    assert (q + e + 1) * v == q * v + e * v + v;
    hide TDiv;
    DivUnique(a, v, q + e);
  }

  /** Three desktops are counted on a geometry that has room for two. */
  lemma OneDesktopTooMany()
    ensures var s := Screen(Size(100, 100), Size(200, 150), Point(0, 0));
            NumberOfDesktops(s) == 3 && Columns(s) * Rows(s) == 2 && !IsDesktop(s, 3)
  {
    DivUnique(200, 100, 2);
    DivUnique(150, 100, 1);
    DivUnique(300, 100, 3);
    hide TDiv;
  }

  /** When the geometry is a multiple of the display, every point, even one outside the
      geometry, maps to an existing desktop. */
  lemma EveryPointHasADesktop(s: Screen, p: Point)
    requires ValidScreen(s)
    requires s.geometry.w % s.display.w == 0 && s.geometry.h % s.display.h == 0
    ensures 1 <= ViewportToDesktop(s, p) <= NumberOfDesktops(s)
  {
    NumberOfDesktopsExact(s);
    CellInExactGrid(p.x, s.geometry.w, s.display.w);
    CellInExactGrid(p.y, s.geometry.h, s.display.h);
    hide TDiv, Cell;
    GridOfCell(s, Cell(p.x, s.geometry.w, s.display.w), Cell(p.y, s.geometry.h, s.display.h));
  }

  lemma CellInExactGrid(p: int, size: int, display: int)
    requires display > 0 && size > 0 && size % display == 0
    ensures 0 <= Cell(p, size, display) < TDiv(size, display)
  {
    DivFacts(size, display);
    PositiveFactors(TDiv(size, display), display);
    if 0 <= p < size {
      CellInGrid(p, size, display);
    }
  }

  // ---------------------------------------------------------------- moving a window

  /** a and b differ by a multiple of n. */
  ghost predicate Congruent(a: int, b: int, n: int) {
    exists k :: a == b + k * n
  }

  lemma CongruentFromModulo(a: int, b: int, n: int)
    requires n > 0
    ensures Congruent(ConstrainOne(a, b, n) + b, a + b, n)
    ensures 0 <= ConstrainOne(a, b, n) + b < n
  {
    ModFacts(a + b, n);
    var r := ConstrainOne(a, b, n) + b;
    var k :| a + b == k * n + r;
    assert r == (a + b) + (-k) * n;
  }

  lemma ConstrainedOne(p: int, origin: int, size: int)
    requires size > 0
    ensures var x := ConstrainOne(p, origin, size);
            0 <= x + origin < size && Congruent(x + origin, p + origin, size)
  {
    CongruentFromModulo(p, origin, size);
  }

  /** Positions relative to the current viewport: the corner of a desktop is its absolute corner
      less the origin, brought into the geometry; a number that is no desktop gives (0, 0); and a
      constrained position lies in the geometry and differs by whole geometries. */
  lemma RelativeExactly(s: Screen, desktop: int, p: Point)
    requires ValidScreen(s)
    ensures !IsDesktop(s, desktop) ==> DesktopToViewport(s, desktop, false) == Point(0, 0)
    ensures IsDesktop(s, desktop)
            ==> var q, corner := DesktopToViewport(s, desktop, false), DesktopToViewport(s, desktop, true);
                && 0 <= q.x < s.geometry.w && Congruent(q.x + s.origin.x, corner.x, s.geometry.w)
                && 0 <= q.y < s.geometry.h && Congruent(q.y + s.origin.y, corner.y, s.geometry.h)
    ensures var r := ConstrainViewportRelativePosition(s, p);
            && 0 <= r.x + s.origin.x < s.geometry.w && Congruent(r.x + s.origin.x, p.x + s.origin.x, s.geometry.w)
            && 0 <= r.y + s.origin.y < s.geometry.h && Congruent(r.y + s.origin.y, p.y + s.origin.y, s.geometry.h)
  {
    ConstrainedOne(p.x, s.origin.x, s.geometry.w);
    ConstrainedOne(p.y, s.origin.y, s.geometry.h);
    if IsDesktop(s, desktop) {
      InsideCell(s, desktop, Point(0, 0));
      var c := Corner(s, desktop);
      WrappedOnce(c.x, s.origin.x, s.geometry.w);
      WrappedOnce(c.y, s.origin.y, s.geometry.h);
    }
    hide Congruent, TMod, TDiv, WrapOnce, ConstrainOne, Corner;
  }

  lemma WrappedOnce(corner: int, origin: int, size: int)
    requires 0 <= corner < size && 0 <= origin < size
    ensures var q := WrapOnce(corner - origin, size);
            0 <= q < size && Congruent(q + origin, corner, size)
  {
    CongruentBy(WrapOnce(corner - origin, size) + origin, corner, size, if corner < origin then 1 else 0);
  }

  /** One axis of setOnDesktop: q is the desktop's corner relative to the origin. */
  lemma AxisMoves(corner: int, origin: int, size: int, offset: int, half: int)
    requires size > 0 && 0 <= origin < size && 0 <= corner < size
    ensures var q := WrapOnce(corner - origin, size);
            var x := ConstrainOne(offset + q - half, origin, size);
            0 <= x + origin < size && Congruent(x + half + origin, corner + offset, size)
  {
    var q := WrapOnce(corner - origin, size);
    CongruentFromModulo(offset + q - half, origin, size);
    var x := ConstrainOne(offset + q - half, origin, size);
    var k :| x + origin == (offset + q - half + origin) + k * size;
    if corner < origin {
      assert x + half + origin == corner + offset + (k + 1) * size;
    } else {
      assert x + half + origin == corner + offset + k * size;
    }
  }

  /** Where setOnDesktop must put a window: its new top-left corner is inside the desktop
      geometry, and its centre is, modulo the geometry, at an offset from the corner of the
      requested desktop that still lies on that desktop. */
  ghost predicate Placed(s: Screen, desktop: int, p: Point, size: Size, offset: Point)
    requires ValidScreen(s) && IsDesktop(s, desktop)
  {
    && 0 <= p.x + s.origin.x < s.geometry.w && 0 <= p.y + s.origin.y < s.geometry.h
    && 0 <= offset.x < s.display.w && 0 <= offset.y < s.display.h
    && var target := Point(Corner(s, desktop).x + offset.x, Corner(s, desktop).y + offset.y);
    && ViewportToDesktop(s, target) == desktop
    && Congruent(p.x + size.w / 2 + s.origin.x, target.x, s.geometry.w)
    && Congruent(p.y + size.h / 2 + s.origin.y, target.y, s.geometry.h)
  }

  /** Where the centre of a window at a relative position lies on its display. */
  function CentreOffset(s: Screen, at: Point, size: Size): Point
    requires ValidScreen(s)
  {
    Point((at.x + size.w / 2) % s.display.w, (at.y + size.h / 2) % s.display.h)
  }

  /** The closed form of the new position: one Euclidean remainder per axis. */
  function MovedTo(s: Screen, desktop: int, at: Point, size: Size): Point
    requires ValidScreen(s)
  {
    var corner, offset := Corner(s, desktop), CentreOffset(s, at, size);
    Point((corner.x + offset.x - size.w / 2) % s.geometry.w - s.origin.x,
          (corner.y + offset.y - size.h / 2) % s.geometry.h - s.origin.y)
  }

  /** A place inside the geometry is determined by its centre modulo the geometry. */
  lemma PlaceIsUnique(p: int, half: int, origin: int, target: int, size: int)
    requires size > 0 && 0 <= p + origin < size && Congruent(p + half + origin, target, size)
    ensures p == (target - half) % size - origin
  {
    var k :| p + half + origin == target + k * size;
    var q := (target - half) / size;
    assert target - half == q * size + (target - half) % size;
    assert (q + k) * size == q * size + k * size;
    CongruentBy(p + origin, (target - half) % size, size, q + k);
    hide Congruent;
    CongruentInRange(p + origin, (target - half) % size, size);
  }

  lemma PlacedIsMovedTo(s: Screen, desktop: int, at: Point, size: Size, p: Point)
    requires ValidScreen(s) && IsDesktop(s, desktop) && Placed(s, desktop, p, size, CentreOffset(s, at, size))
    ensures p == MovedTo(s, desktop, at, size)
  {
    hide Congruent, Corner, CentreOffset, ViewportToDesktop;
    var corner, offset := Corner(s, desktop), CentreOffset(s, at, size);
    PlaceIsUnique(p.x, size.w / 2, s.origin.x, corner.x + offset.x, s.geometry.w);
    PlaceIsUnique(p.y, size.h / 2, s.origin.y, corner.y + offset.y, s.geometry.h);
  }

  /** setOnDesktop in viewport mode: from the window's position (relative to the current
      viewport) and size to the requested position, also relative. The centre keeps its place
      on the display. */
  method SetOnDesktop(s: Screen, desktop: int, at: Point, size: Size) returns (p: Point)
    requires ValidScreen(s) && IsDesktop(s, desktop) && size.w >= 0 && size.h >= 0
    ensures Placed(s, desktop, p, size, CentreOffset(s, at, size))
    ensures p == MovedTo(s, desktop, at, size)
  {
    p := DesktopToViewport(s, desktop, false);
    var x, y := at.x, at.y;
    x := x + size.w / 2;
    y := y + size.h / 2;
    WrappedRemainder(x, s.display.w);
    WrappedRemainder(y, s.display.h);
    // x and y are now the centre; next they become its offset on one display
    x := TMod(x, s.display.w);
    y := TMod(y, s.display.h);
    if x < 0 {
      x := x + s.display.w;
    }
    if y < 0 {
      y := y + s.display.h;
    }
    assert Point(x, y) == CentreOffset(s, at, size);
    InsideCell(s, desktop, Point(0, 0));
    InsideCell(s, desktop, Point(x, y));
    AxisMoves(Corner(s, desktop).x, s.origin.x, s.geometry.w, x, size.w / 2);
    AxisMoves(Corner(s, desktop).y, s.origin.y, s.geometry.h, y, size.h / 2);
    hide TMod, TDiv, Congruent, WrapOnce, ConstrainOne, Corner, CentreOffset, MovedTo;
    x := x + p.x;
    y := y + p.y;
    x := x - size.w / 2;
    y := y - size.h / 2;
    p := ConstrainViewportRelativePosition(s, Point(x, y));
    PlacedIsMovedTo(s, desktop, at, size, p);
  }

  /** A C++ remainder brought into range by one addition is the Euclidean one. */
  lemma WrappedRemainder(a: int, b: int)
    requires b > 0
    ensures 0 <= a % b < b
    ensures a % b == var m := TMod(a, b); if m < 0 then m + b else m
  {
    ModFacts(a, b);
    var m := TMod(a, b);
    var r := if m < 0 then m + b else m;
    var k :| a == k * b + r;
    CongruentBy(r, a % b, b, a / b - k);
    CongruentInRange(r, a % b, b);
  }

  // ---------------------------------------------------------------- is the window there?

  /** QRect::center is one less than the corner plus half the size when the size is even and
      the centre is not left of the origin: the quotient is truncated toward zero. */
  predicate CentreSlips(p: int, size: int) {
    size % 2 == 0 && p + size / 2 >= 1
  }

  lemma CentreExact(p: int, size: int)
    requires size > 0
    ensures Centre(p, size) == p + size / 2 - if CentreSlips(p, size) then 1 else 0
  {
    var m := p + size / 2;
    if size % 2 == 0 {
      assert p + (p + size - 1) == 2 * m - 1;
    } else {
      assert p + (p + size - 1) == 2 * m;
    }
  }

  lemma CongruentInRange(a: int, b: int, n: int)
    requires n > 0 && 0 <= a < n && 0 <= b < n && Congruent(a, b, n)
    ensures a == b
  {
    var k :| a == b + k * n;
    if k >= 1 {
      MulMonotone(1, k, n);
    } else if k <= -1 {
      MulMonotone(k, -1, n);
    }
  }

  /** One axis of a move: the window's size, the current origin, the desktop geometry, the
      display, the requested column or row, and the offset of the centre on its display. */
  datatype Move = Move(size: int, origin: int, geometry: int, display: int, cell: int, offset: int)

  predicate ValidMove(m: Move) {
    && m.size > 0 && m.display > 0 && 0 <= m.origin < m.geometry && 0 <= m.offset < m.display
    && 0 <= m.cell < TDiv(m.geometry, m.display)
  }

  /** Where the centre should be on the whole desktop. */
  function Target(m: Move): int {
    m.cell * m.display + m.offset
  }

  /** Half the window fits before its centre; if not, the position wraps around and the centre
      lies beyond the geometry. */
  predicate Fits(m: Move) {
    m.size / 2 <= Target(m)
  }

  /** The rounded centre is the last pixel of a geometry that is no multiple of the display; that
      pixel lies in no column or row. */
  predicate OnLeftover(m: Move)
    requires m.display > 0
  {
    m.geometry % m.display != 0 && Target(m) == 0 && m.size % 2 == 0 && m.size / 2 <= m.geometry
  }

  /** Rounding carries the centre over the edge of its cell. */
  predicate SlipsOver(m: Move) {
    Fits(m) && m.size % 2 == 0 && m.offset == 0 && m.cell > 0 && Target(m) > m.origin
  }

  predicate AxisFound(m: Move)
    requires m.display > 0
  {
    if Fits(m) then !SlipsOver(m) else m.cell == TDiv(m.geometry, m.display) - 1
  }

  /** The cell in which the centre is found on one axis. */
  function CellFound(m: Move): int
    requires m.display > 0
  {
    if OnLeftover(m) then TDiv(m.geometry, m.display)
    else if SlipsOver(m) then m.cell - 1
    else if Fits(m) then m.cell
    else TDiv(m.geometry, m.display) - 1
  }

  /** Where the centre lies when the corner is inside the geometry. */
  lemma CentreAfterMove(m: Move, p: int)
    requires ValidMove(m) && 0 <= p + m.origin < m.geometry
    requires Congruent(p + m.size / 2 + m.origin, Target(m), m.geometry)
    ensures var c := p + m.size / 2 + m.origin;
            && (Fits(m) ==> c == Target(m) < m.geometry)
            && (!Fits(m) ==> c >= m.geometry)
            && (c == m.geometry <==> Target(m) == 0 && 0 < m.size / 2 <= m.geometry)
  {
    CellOf(m.cell, m.offset, m.geometry, m.display);
    hide TDiv, Congruent;
    WindowOfCentre(p + m.size / 2 + m.origin, Target(m), m.geometry, m.size / 2);
  }

  lemma WindowOfCentre(c: int, t: int, g: int, half: int)
    requires 0 <= t < g && 0 <= half <= c < half + g && Congruent(c, t, g)
    ensures half <= t ==> c == t
    ensures half > t ==> c >= g
    ensures c == g <==> t == 0 && 0 < half <= g
  {
    var k :| c == t + k * g;
    if k >= 2 {
      MulMonotone(2, k, g);
    } else if k <= -1 {
      MulMonotone(k, -1, g);
    } else {
      assert k == 0 || k == 1;
    }
  }

  lemma AxisFoundExactly(m: Move, p: int)
    requires ValidMove(m) && 0 <= p + m.origin < m.geometry
    requires Congruent(p + m.size / 2 + m.origin, Target(m), m.geometry)
    ensures Cell(Centre(p, m.size) + m.origin, m.geometry, m.display) == CellFound(m)
  {
    hide TDiv, TMod, Cell, Centre, Congruent, Target;
    CentreExact(p, m.size);
    CentreAfterMove(m, p);
    if Fits(m) {
      CellOf(m.cell, m.offset, m.geometry, m.display);
      PixelBefore(m.cell, m.offset, m.geometry, m.display);
      TargetIs(m);
    } else if OnLeftover(m) {
      LastPixel(m.geometry, m.display);
    } else {
      PastTheEnd(Centre(p, m.size) + m.origin, m.geometry, m.display);
    }
  }

  lemma TargetIs(m: Move)
    ensures Target(m) == m.cell * m.display + m.offset
  {
  }

  lemma LastPixel(size: int, display: int)
    requires display > 0 && size > 0 && size % display != 0
    ensures Cell(size - 1, size, display) == TDiv(size, display)
  {
    DivFacts(size, display);
    DivUnique(size - 1, display, TDiv(size, display));
  }

  /** The cell of the pixel left of a cell's pixel. */
  lemma PixelBefore(cell: int, offset: int, size: int, display: int)
    requires display > 0 && size > 0 && 0 <= cell < TDiv(size, display) && 0 <= offset < display
    ensures Cell(cell * display + offset - 1, size, display)
            == if offset == 0 && cell > 0 then cell - 1 else cell
  {
    hide TDiv;
    if offset > 0 {
      CellOf(cell, offset - 1, size, display);
    } else if cell > 0 {
      CellOf(cell - 1, display - 1, size, display);
      assert (cell - 1) * display + (display - 1) == cell * display - 1;
    }
  }

  lemma PastTheEnd(p: int, size: int, display: int)
    requires display > 0 && size > 0 && TDiv(size, display) > 0
    requires p >= size || (p == size - 1 && size % display == 0)
    ensures Cell(p, size, display) == TDiv(size, display) - 1
  {
    DivFacts(size, display);
    var n := TDiv(size, display);
    if p == size - 1 {
      CellOf(n - 1, display - 1, size, display);
      assert (n - 1) * display + (display - 1) == n * display - 1;
    }
  }

  /** Two cells of a grid have the same number only if they are the same; a column past the last
      one has the number of the first column of the next row. */
  lemma SameNumber(cols: int, x: int, y: int, col: int, row: int)
    requires 0 <= x <= cols && 0 <= col < cols
    ensures y * cols + x + 1 == row * cols + col + 1
            <==> if x < cols then x == col && y == row else col == 0 && y + 1 == row
  {
    var x1, y1 := if x < cols then x else 0, if x < cols then y else y + 1;
    assert y * cols + x == y1 * cols + x1;
    QuotientBelow(y1, x1, cols, row);
    QuotientBelow(row, col, cols, y1);
    if y1 * cols + x1 == row * cols + col && y1 != row {
      if y1 < row {
        MulMonotone(y1 + 1, row, cols);
      } else {
        MulMonotone(row + 1, y1, cols);
      }
    }
  }

  function MoveX(s: Screen, desktop: int, at: Point, size: Size): Move
    requires ValidScreen(s) && IsDesktop(s, desktop)
  {
    ColumnsPositive(s, desktop);
    Move(size.w, s.origin.x, s.geometry.w, s.display.w, TMod(desktop - 1, Columns(s)), CentreOffset(s, at, size).x)
  }

  function MoveY(s: Screen, desktop: int, at: Point, size: Size): Move
    requires ValidScreen(s) && IsDesktop(s, desktop)
  {
    ColumnsPositive(s, desktop);
    Move(size.h, s.origin.y, s.geometry.h, s.display.h, TDiv(desktop - 1, Columns(s)), CentreOffset(s, at, size).y)
  }

  /** The condition under which a move succeeds, over what is known before it. */
  predicate FoundAfterMove(s: Screen, desktop: int, at: Point, size: Size)
    requires ValidScreen(s) && IsDesktop(s, desktop)
  {
    var x, y := MoveX(s, desktop, at, size), MoveY(s, desktop, at, size);
    if OnLeftover(y) then false
    else if OnLeftover(x) then SlipsOver(y)
    else AxisFound(x) && AxisFound(y)
  }

  /** The column and the row in which the centre of a moved window is found. */
  lemma MovedCells(s: Screen, desktop: int, at: Point, size: Size, p: Point)
    requires ValidScreen(s) && IsDesktop(s, desktop) && size.w > 0 && size.h > 0
    requires Placed(s, desktop, p, size, CentreOffset(s, at, size))
    ensures var x, y := MoveX(s, desktop, at, size), MoveY(s, desktop, at, size);
            && ValidMove(x) && ValidMove(y) && desktop == y.cell * Columns(s) + x.cell + 1
            && Cell(Centre(p.x, size.w) + s.origin.x, s.geometry.w, s.display.w) == CellFound(x)
            && Cell(Centre(p.y, size.h) + s.origin.y, s.geometry.h, s.display.h) == CellFound(y)
  {
    hide TDiv, TMod, Cell, Corner, Centre, Congruent, CellFound, ViewportToDesktop;
    GridOf(s, desktop);
    var x, y := MoveX(s, desktop, at, size), MoveY(s, desktop, at, size);
    assert s.display.w * x.cell == x.cell * s.display.w && s.display.h * y.cell == y.cell * s.display.h;
    AxisFoundExactly(x, p.x);
    AxisFoundExactly(y, p.y);
  }

  /** The first place of the grid is in the first cell. */
  lemma LeftoverIsFirst(m: Move)
    requires ValidMove(m) && OnLeftover(m)
    ensures m.cell == 0
  {
    if m.cell > 0 {
      MulMonotone(1, m.cell, m.display);
    }
  }

  /** When KWindowInfo then finds the window on the desktop it was moved to. It is found there
      exactly when, on each axis, either half the window fits before its centre and the rounding
      of QRect::center does not carry the centre over the edge of the cell, or it does not fit
      and the desktop is in the last column or row. The exception is a geometry that is no
      multiple of the display, with the rounded centre on its last pixel: at the bottom the
      window is never found, and at the right only if its row slips as well. */
  lemma MovedWindowIsFound(s: Screen, desktop: int, at: Point, size: Size)
    requires ValidScreen(s) && IsDesktop(s, desktop) && size.w > 0 && size.h > 0
    ensures ViewportWindowToDesktop(s, MovedTo(s, desktop, at, size), size) == desktop
            <==> FoundAfterMove(s, desktop, at, size)
  {
    hide TDiv, TMod, Cell, Corner, Centre, CentreOffset, Target, Fits, ViewportToDesktop,
      ViewportWindowToDesktop, Placed, MovedTo;
    var p := MovedTo(s, desktop, at, size);
    var x, y := MoveX(s, desktop, at, size), MoveY(s, desktop, at, size);
    MovedToIsPlaced(s, desktop, at, size);
    MovedCells(s, desktop, at, size, p);
    FoundNumber(s, desktop, p, size, x.cell, y.cell, CellFound(x), CellFound(y));
    if OnLeftover(x) {
      LeftoverIsFirst(x);
    }
  }

  /** The closed form meets the specification of the move. */
  lemma MovedToIsPlaced(s: Screen, desktop: int, at: Point, size: Size)
    requires ValidScreen(s) && IsDesktop(s, desktop)
    ensures Placed(s, desktop, MovedTo(s, desktop, at, size), size, CentreOffset(s, at, size))
  {
    hide Congruent, Corner, CentreOffset, ViewportToDesktop;
    var corner, offset := Corner(s, desktop), CentreOffset(s, at, size);
    CentreOnDisplay(s, at, size);
    InsideCell(s, desktop, offset);
    RemainderIsCongruent(corner.x + offset.x, size.w / 2, s.geometry.w);
    RemainderIsCongruent(corner.y + offset.y, size.h / 2, s.geometry.h);
  }

  lemma CentreOnDisplay(s: Screen, at: Point, size: Size)
    requires ValidScreen(s)
    ensures 0 <= CentreOffset(s, at, size).x < s.display.w && 0 <= CentreOffset(s, at, size).y < s.display.h
  {
  }

  lemma RemainderIsCongruent(target: int, half: int, size: int)
    requires size > 0
    ensures 0 <= (target - half) % size < size
    ensures Congruent((target - half) % size + half, target, size)
  {
    var q := (target - half) / size;
    assert target - half == q * size + (target - half) % size;
    CongruentBy((target - half) % size + half, target, size, -q);
  }

  lemma FoundNumber(s: Screen, desktop: int, p: Point, size: Size, col: int, row: int, x: int, y: int)
    requires ValidScreen(s) && 0 <= col < Columns(s) && desktop == row * Columns(s) + col + 1
    requires x == Cell(Centre(p.x, size.w) + s.origin.x, s.geometry.w, s.display.w) && 0 <= x <= Columns(s)
    requires y == Cell(Centre(p.y, size.h) + s.origin.y, s.geometry.h, s.display.h)
    ensures ViewportWindowToDesktop(s, p, size) == desktop
            <==> if x < Columns(s) then x == col && y == row else col == 0 && y + 1 == row
  {
    hide Cell, Centre, TDiv;
    SameNumber(Columns(s), x, y, col, row);
  }

  lemma CongruentBy(a: int, b: int, n: int, k: int)
    requires a == b + k * n
    ensures Congruent(a, b, n)
  {
  }

  const TWO_DISPLAYS: Screen := Screen(Size(100, 100), Size(200, 100), Point(0, 0))

  lemma TwoDisplays()
    ensures Columns(TWO_DISPLAYS) == 2 && Rows(TWO_DISPLAYS) == 1
    ensures IsDesktop(TWO_DISPLAYS, 2) && Corner(TWO_DISPLAYS, 2) == Point(100, 0)
  {
    DivUnique(200, 100, 2);
    DivUnique(100, 100, 1);
    DivUnique(1, 2, 0);
    hide TDiv;
  }

  lemma FoundOnTheFirst()
    ensures ViewportWindowToDesktop(TWO_DISPLAYS, Point(99, 10), Size(2, 2)) == 1
  {
    TwoDisplays();
    CentreExact(99, 2);
    CentreExact(10, 2);
    CellOf(0, 99, 200, 100);
    CellOf(0, 10, 100, 100);
    hide TDiv, Centre, Cell;
  }

  /** A window moved to desktop 2 that is then found on desktop 1: two displays side by side,
      a window two pixels wide whose centre is on the left edge of the display. */
  lemma MovedWindowIsMissed()
    ensures IsDesktop(TWO_DISPLAYS, 2)
    ensures var p := Point(99, 10); // requested for a window at (-1, 10)
            && p == MovedTo(TWO_DISPLAYS, 2, Point(-1, 10), Size(2, 2))
            && ViewportWindowToDesktop(TWO_DISPLAYS, p, Size(2, 2)) == 1
  {
    hide Congruent, Corner, TDiv, TMod, ViewportToDesktop, ViewportWindowToDesktop;
    TwoDisplays();
    FoundOnTheFirst();
    assert CentreOffset(TWO_DISPLAYS, Point(-1, 10), Size(2, 2)) == Point(0, 11);
    InsideCell(TWO_DISPLAYS, 2, Point(0, 11));
    CongruentBy(100, 100, 200, 0);
    CongruentBy(11, 11, 100, 0);
    PlacedIsMovedTo(TWO_DISPLAYS, 2, Point(-1, 10), Size(2, 2), Point(99, 10));
  }
}
