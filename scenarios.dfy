/** Worked scripts for small images, at 1000 dpi, 2.5 mil lines, layer 21 and threshold 127. */
module Scenarios {
  import opened Commands
  import opened Runs
  import opened Scanner

  /**
   * The row dark, light, light, dark holds one run, columns 1 to 2. Closed by
   * the dark pixel at column 3, the rectangle ends at x_coord(2) = 2 mils.
   */
  lemma InteriorRunExample()
    ensures Script([[0, 255, 255, 0]], Config(2.5, 1000.0, 21, 127, "r"))
         == [GridMil, Layer(21), Rect(1.0, 0.0, 2.0, -2.5), GridLast]
  {
    var row := [0, 255, 255, 0];
    var cfg := Config(2.5, 1000.0, 21, 127, "r");
    RunsFromBlock(row, 127, 1, 3);
    assert RunsFrom(row, 127, 3) == [];
    assert RowRuns(row, 127) == [Run(1, 2)];
    RenderRunsCons(Run(1, 2), [], 0, 1, 4, cfg);
  }

  /**
   * A one-pixel run in the last column is closed one column short: the
   * rectangle runs from x_coord(1) = 1 back to x_coord(0) = 0.
   */
  lemma RightEdgeRunExample()
    ensures Script([[0, 255]], Config(2.5, 1000.0, 21, 127, "r"))
         == [GridMil, Layer(21), Rect(1.0, 0.0, 0.0, -2.5), GridLast]
  {
    var row := [0, 255];
    var cfg := Config(2.5, 1000.0, 21, 127, "r");
    RunsFromBlock(row, 127, 1, 2);
    assert RowRuns(row, 127) == [Run(1, 1)];
    RenderRunsCons(Run(1, 1), [], 0, 1, 2, cfg);
  }

  /**
   * Two identical rows give two wires, one per row, one line width apart:
   * runs are never merged across rows.
   */
  lemma RowsDoNotMergeExample()
    ensures Script([[255, 255, 0], [255, 255, 0]], Config(2.5, 1000.0, 21, 127, "l"))
         == [GridMil, Layer(21), Wire(2.5, 0.0, 2.5, 1.0, 0.0), Wire(2.5, 0.0, 0.0, 1.0, -2.5), GridLast]
  {
    var row := [255, 255, 0];
    var cfg := Config(2.5, 1000.0, 21, 127, "l");
    RunsFromBlock(row, 127, 0, 2);
    assert RunsFrom(row, 127, 2) == [];
    assert RowRuns(row, 127) == [Run(0, 1)];
    RenderRunsCons(Run(0, 1), [], 0, 2, 3, cfg);
    RenderRunsCons(Run(0, 1), [], 1, 2, 3, cfg);
  }
}
