/** The commands of the Eagle script the converter writes (image2eagle.py:12-19, 59-62, 82-83, 112). */
module Commands {

  /**
   * One line of the script. `GridMil` is "GRID mil;", `Layer(n)` is "LAYER n;",
   * `Rect` is "RECT (x0 y0) (x1 y1);", `Wire` is "WIRE width (x0 y0) (x1 y1);"
   * and `GridLast` is "GRID last;". The text itself is not modelled.
   */
  datatype Command =
    | GridMil
    | Layer(n: int)
    | Rect(x0: real, y0: real, x1: real, y1: real)
    | Wire(width: real, x0: real, y0: real, x1: real, y1: real)
    | GridLast

  /** A drawing primitive, as opposed to a grid or layer directive. */
  predicate IsPrimitive(c: Command)
  {
    c.Rect? || c.Wire?
  }

  /** The primitive styles that pass the command-line check: "l" (wire) and "r" (rectangle). */
  predicate IsKnownPrimitive(style: string): (known: bool)
    ensures known <==> |style| == 1 && (style[0] == 'l' || style[0] == 'r')
  {
    style == "l" || style == "r"
  }

  /**
   * The primitive for one run: a rectangle with corners (x0, y0) and (x1, y1)
   * for style "r", and a wire of width `lineWidth` between those points for
   * every other style.
   */
  function RenderRun(style: string, lineWidth: real, x0: real, y0: real, x1: real, y1: real): (c: Command)
    ensures IsPrimitive(c)
    ensures c.Rect? <==> style == "r"
    ensures c.Wire? ==> c.width == lineWidth
    ensures c.x0 == x0 && c.y0 == y0 && c.x1 == x1 && c.y1 == y1
  {
    if style == "r" then Rect(x0, y0, x1, y1) else Wire(lineWidth, x0, y0, x1, y1)
  }

  /** A known style other than "r" is drawn with wires. */
  lemma KnownStyles(style: string, lineWidth: real, x0: real, y0: real, x1: real, y1: real)
    requires IsKnownPrimitive(style)
    ensures style == "r" ==> RenderRun(style, lineWidth, x0, y0, x1, y1) == Rect(x0, y0, x1, y1)
    ensures style == "l" ==> RenderRun(style, lineWidth, x0, y0, x1, y1) == Wire(lineWidth, x0, y0, x1, y1)
  {
  }
}
