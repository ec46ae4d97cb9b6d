/** The shape primitives a completed match renders into, for the grammars
    whose rendering is part of this model. */
module Shapes {
  import opened Grid

  /** A point in grid-fraction coordinates: one unit is one character cell. */
  datatype Point = Point(x: real, y: real)

  datatype Primitive =
    | Text(pos: Pos, ch: char)
    | Segment(a: Point, b: Point, dashed: bool)
}
