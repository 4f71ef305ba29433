/** Plain geometry records of the framework: `android.graphics.Rect` and a width/height size. */
module Geometry {

  /** A rectangle given by its four edges; `Width` and `Height` are differences of edges. */
  datatype Rect = Rect(left: int, top: int, right: int, bottom: int) {

    function Width(): int { right - left }

    function Height(): int { bottom - top }
  }

  /** A width/height pair (the portability layer's `Size`, and `android.util.Size`). */
  datatype Size = Size(width: int, height: int)
}
