/** The pure computations of content.js: the document extent measured by
    getDocumentSize and the affine centring arithmetic of the frame callback. */
module Geometry {

  /** The four measurements getDocumentSize reads along one axis:
      body.scrollX, documentElement.scrollX, body.offsetX, documentElement.offsetX. */
  datatype Axis = Axis(bodyScroll: int, rootScroll: int, bodyOffset: int, rootOffset: int)

  /** What the page reports when measured: one Axis for widths, one for heights. */
  datatype Measurements = Measurements(horizontal: Axis, vertical: Axis)

  datatype Extent = Extent(width: int, height: int)

  /** `r` is the largest of the four measurements of `a`. */
  predicate IsLargest(r: int, a: Axis) {
    r >= a.bodyScroll && r >= a.rootScroll && r >= a.bodyOffset && r >= a.rootOffset &&
    (r == a.bodyScroll || r == a.rootScroll || r == a.bodyOffset || r == a.rootOffset)
  }

  /** `Math.max` of the four measurements of one axis. */
  function Span(a: Axis): (r: int)
    ensures IsLargest(r, a)
  {
    var m1 := if a.bodyScroll >= a.rootScroll then a.bodyScroll else a.rootScroll;
    var m2 := if m1 >= a.bodyOffset then m1 else a.bodyOffset;
    if m2 >= a.rootOffset then m2 else a.rootOffset
  }

  /** getDocumentSize: per axis, the largest measurement, so the magnified
      canvas is never smaller than any of the four. */
  function DocumentSize(m: Measurements): (e: Extent)
    ensures IsLargest(e.width, m.horizontal)
    ensures IsLargest(e.height, m.vertical)
  {
    Extent(Span(m.horizontal), Span(m.vertical))
  }

  /** The largest measurement is unique, so the two ensures of DocumentSize
      determine it completely. */
  lemma LargestIsUnique(r1: int, r2: int, a: Axis)
    requires IsLargest(r1, a) && IsLargest(r2, a)
    ensures r1 == r2
  {
  }

  datatype Point = Point(x: real, y: real)

  /** The CSS transform `scale(scale) translate(dx px, dy px)` under
      `transform-origin: 0 0`. */
  datatype Transform = Transform(scale: real, dx: real, dy: real)

  /** Where the transform draws a point of the untransformed clone: CSS applies
      the right-most function first, so the point is translated, then scaled. */
  function Apply(t: Transform, p: Point): Point {
    Point(t.scale * (p.x + t.dx), t.scale * (p.y + t.dy))
  }

  /** The transform the clone receives when it is created: `scale(zoom)` alone. */
  function InitialTransform(zoom: real): (t: Transform)
    ensures forall p: Point :: Apply(t, p) == Point(zoom * p.x, zoom * p.y)
  {
    Transform(zoom, 0.0, 0.0)
  }

  /** `offset = page - halfSize / zoom`: the page coordinate that must sit at
      the clone's origin so that `page` is drawn `halfSize` pixels into the lens. */
  function Offset(page: real, halfSize: real, zoom: real): (offset: real)
    requires zoom > 0.0
    ensures zoom * (page - offset) == halfSize
  {
    page - halfSize / zoom
  }

  /** The transform the frame callback writes: `scale(zoom) translate(-offsetX, -offsetY)`.
      It draws the page point `page` at (halfSize, halfSize) inside the lens. */
  function CentringTransform(zoom: real, halfSize: real, page: Point): (t: Transform)
    requires zoom > 0.0
    ensures t.scale == zoom
    ensures Apply(t, page) == Point(halfSize, halfSize)
  {
    Transform(zoom, -Offset(page.x, halfSize, zoom), -Offset(page.y, halfSize, zoom))
  }

  /** The lens's `left`/`top`: the corner placed so that halfSize further on is the cursor. */
  function LensCorner(mouse: Point, halfSize: real): (corner: Point)
    ensures corner.x + halfSize == mouse.x && corner.y + halfSize == mouse.y
  {
    Point(mouse.x - halfSize, mouse.y - halfSize)
  }

  /** The viewport position at which the lens draws a page point: the lens
      corner plus where the transform puts the point inside the lens. */
  function OnScreen(corner: Point, t: Transform, page: Point): Point {
    var local := Apply(t, page);
    Point(corner.x + local.x, corner.y + local.y)
  }

  /** The centring guarantee: with the corner and transform the frame callback
      computes, the page point under the cursor (cursor plus scroll) is drawn
      exactly at the cursor, which is halfSize into the lens. Every other page
      point is drawn zoom times farther from the cursor than it lies in the page. */
  lemma CursorPointDrawnAtCursor(mouse: Point, scroll: Point, halfSize: real, zoom: real, q: Point)
    requires zoom > 0.0
    ensures var page := Point(mouse.x + scroll.x, mouse.y + scroll.y);
            var t := CentringTransform(zoom, halfSize, page);
            var corner := LensCorner(mouse, halfSize);
            OnScreen(corner, t, page) == mouse &&
            OnScreen(corner, t, q) == Point(mouse.x + zoom * (q.x - page.x), mouse.y + zoom * (q.y - page.y))
  {
  }

  /** Pointer at (100, 100), no scroll, zoom 2.5, a 150-pixel lens: the offset is
      (70, 70), document point (70, 70) lands on the lens corner and document
      point (100, 100), the one under the pointer, on the lens centre (75, 75). */
  lemma WorkedExample()
    ensures Offset(100.0, 75.0, 2.5) == 70.0
    ensures Apply(CentringTransform(2.5, 75.0, Point(100.0, 100.0)), Point(70.0, 70.0)) == Point(0.0, 0.0)
    ensures Apply(CentringTransform(2.5, 75.0, Point(100.0, 100.0)), Point(100.0, 100.0)) == Point(75.0, 75.0)
  {
  }
}
