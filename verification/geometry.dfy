/** Rectangles and sizes in the view system's coordinate space.
    Coordinates are exact reals: floating-point rounding is not modelled. */
module Geometry {

  /** A width/height pair (a content size, or the size part of a view's bounds). */
  datatype Size = Size(width: real, height: real)

  /** A view's frame: origin `(x, y)` in the parent's coordinates and a size.
      Width and height may be negative, as they may in the view system. */
  datatype Frame = Frame(x: real, y: real, width: real, height: real)

  function Max(a: real, b: real): real
  {
    if a < b then b else a
  }

  /** Right edge of a frame. The rectangle is standardised first, so for a
      negative width the right edge is the origin itself. */
  function MaxX(f: Frame): (r: real)
    ensures f.x <= r && f.x + f.width <= r
    ensures r == f.x || r == f.x + f.width
  {
    Max(f.x, f.x + f.width)
  }

  /** Bottom edge of a frame, standardised like `MaxX`. */
  function MaxY(f: Frame): (r: real)
    ensures f.y <= r && f.y + f.height <= r
    ensures r == f.y || r == f.y + f.height
  {
    Max(f.y, f.y + f.height)
  }

  /** The two directions in which a content extent is measured. */
  datatype Axis = Horizontal | Vertical

  /** The far edge of a frame along an axis: its right edge or its bottom edge. */
  function FarEdge(f: Frame, axis: Axis): real
  {
    match axis
    case Horizontal => MaxX(f)
    case Vertical => MaxY(f)
  }
}
