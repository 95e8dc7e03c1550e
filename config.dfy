/** The lens configuration record of content.js and its clamped adjustments.
    Zoom is a real number (every value the handlers produce is a multiple of 0.5,
    so floating point is exact on them); lens sizes are whole pixels. */
module LensConfig {

  const MinZoom: real := 1.0
  const MaxZoom: real := 5.0
  const MinSize: int := 80
  const MaxSize: int := 300

  /** Factory values restored by resetConfig. */
  const DefaultZoom: real := 2.5
  const DefaultSize: int := 150

  /** The deltas the keyboard handler passes. */
  const ZoomStep: real := 0.5
  const SizeStep: int := 20

  /** The mutable `config` object: the current zoom and lens dimensions. */
  datatype Config = Config(zoom: real, lensWidth: int, lensHeight: int)

  const Defaults: Config := Config(DefaultZoom, DefaultSize, DefaultSize)

  /** Zoom and width inside their bounds, and the lens kept circular. */
  predicate InBounds(c: Config) {
    MinZoom <= c.zoom <= MaxZoom &&
    MinSize <= c.lensWidth <= MaxSize &&
    c.lensHeight == c.lensWidth
  }

  function MinReal(a: real, b: real): real { if a <= b then a else b }
  function MaxReal(a: real, b: real): real { if a >= b then a else b }
  function MinInt(a: int, b: int): int { if a <= b then a else b }
  function MaxInt(a: int, b: int): int { if a >= b then a else b }

  /** `Math.max(minZoom, Math.min(maxZoom, zoom + delta))`: the point of
      [MinZoom, MaxZoom] nearest to the requested zoom. */
  function ClampZoom(zoom: real, delta: real): (r: real)
    ensures MinZoom <= r <= MaxZoom
    ensures MinZoom <= zoom + delta <= MaxZoom ==> r == zoom + delta
    ensures zoom + delta < MinZoom ==> r == MinZoom
    ensures zoom + delta > MaxZoom ==> r == MaxZoom
  {
    MaxReal(MinZoom, MinReal(MaxZoom, zoom + delta))
  }

  /** `Math.max(minSize, Math.min(maxSize, lensWidth + delta))`: the point of
      [MinSize, MaxSize] nearest to the requested width. */
  function ClampSize(width: int, delta: int): (r: int)
    ensures MinSize <= r <= MaxSize
    ensures MinSize <= width + delta <= MaxSize ==> r == width + delta
    ensures width + delta < MinSize ==> r == MinSize
    ensures width + delta > MaxSize ==> r == MaxSize
  {
    MaxInt(MinSize, MinInt(MaxSize, width + delta))
  }

  /** The factory configuration satisfies the bounds it is checked against. */
  lemma DefaultsInBounds()
    ensures InBounds(Defaults)
    ensures Defaults.zoom == 2.5 && Defaults.lensWidth == 150 && Defaults.lensHeight == 150
  {
  }

  /** Pressing past a bound stays at the bound: clamping is idempotent there. */
  lemma ClampSaturates()
    ensures ClampZoom(MaxZoom, ZoomStep) == MaxZoom && ClampZoom(MinZoom, -ZoomStep) == MinZoom
    ensures ClampSize(MaxSize, SizeStep) == MaxSize && ClampSize(MinSize, -SizeStep) == MinSize
  {
  }
}
