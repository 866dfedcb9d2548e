/**
 * Image-plane points and the four-cornered boxes that the OCR detector and
 * the contour finder report. Coordinates are integers.
 */
module Geometry {

  datatype Point = Point(x: int, y: int)

  /** A box given by its four corners in the detector's order: top-left, top-right, bottom-right, bottom-left. */
  datatype Quad = Quad(p0: Point, p1: Point, p2: Point, p3: Point)

  function Abs(x: int): nat {
    if x < 0 then -x else x
  }
}
