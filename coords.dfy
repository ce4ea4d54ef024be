/**
 * Mapping from pixel indices to Eagle coordinates in mils (image2eagle.py:21-27).
 * image2eagle.py computes with Python floats; here the arithmetic is exact, over `real`.
 */
module Coords {

  /**
   * x-coordinate in mils of pixel column `col` for an image of `dpi` dots per
   * inch: `dpi` columns make one inch, a thousand mils.
   */
  function XCoord(col: int, dpi: real): (x: real)
    requires dpi != 0.0
    ensures x * dpi == 1000.0 * col as real
  {
    1000.0 * col as real / dpi
  }

  /**
   * y-coordinate in mils of pixel row `row` in an image of `rows` rows, each
   * `lineWidth` mils tall. The vertical axis is flipped: row 0 is the top row.
   */
  function YCoord(row: int, rows: int, lineWidth: real): (y: real)
    ensures row == rows - 1 ==> y == 0.0
    ensures y + lineWidth * (row + 1) as real == lineWidth * rows as real
  {
    (rows - row - 1) as real * lineWidth
  }

  lemma XCoordStrictlyIncreasing(c1: int, c2: int, dpi: real)
    requires dpi > 0.0 && c1 < c2
    ensures XCoord(c1, dpi) < XCoord(c2, dpi)
  {
    var d := XCoord(c2, dpi) - XCoord(c1, dpi);
    assert d * dpi == 1000.0 * (c2 - c1) as real;
    assert d == 1000.0 * (c2 - c1) as real / dpi;
  }

  lemma XCoordMonotone(c1: int, c2: int, dpi: real)
    requires dpi > 0.0 && c1 <= c2
    ensures XCoord(c1, dpi) <= XCoord(c2, dpi)
  {
    if c1 < c2 {
      XCoordStrictlyIncreasing(c1, c2, dpi);
    }
  }

  /** Moving one row down lowers the y-coordinate by exactly one line width. */
  lemma YCoordNextRow(row: int, rows: int, lineWidth: real)
    ensures YCoord(row + 1, rows, lineWidth) == YCoord(row, rows, lineWidth) - lineWidth
  {
  }

  lemma YCoordStrictlyDecreasing(r1: int, r2: int, rows: int, lineWidth: real)
    requires lineWidth > 0.0 && r1 < r2
    ensures YCoord(r1, rows, lineWidth) > YCoord(r2, rows, lineWidth)
  {
    var d := YCoord(r1, rows, lineWidth) - YCoord(r2, rows, lineWidth);
    assert d == (r2 - r1) as real * lineWidth;
    assert (r2 - r1) as real >= 1.0;
    assert d >= lineWidth;
  }

  /**
   * Row 0 maps to the largest y-coordinate of the image and the last row to
   * y = 0, the origin of the board.
   */
  lemma TopRowIsHighest(row: int, rows: int, lineWidth: real)
    requires lineWidth > 0.0 && 0 <= row < rows
    ensures YCoord(row, rows, lineWidth) <= YCoord(0, rows, lineWidth)
    ensures YCoord(rows - 1, rows, lineWidth) == 0.0
    ensures YCoord(row, rows, lineWidth) >= 0.0
  {
    if 0 < row {
      YCoordStrictlyDecreasing(0, row, rows, lineWidth);
    }
    if row < rows - 1 {
      YCoordStrictlyDecreasing(row, rows - 1, rows, lineWidth);
    }
  }
}
