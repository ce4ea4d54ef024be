/**
 * The run-length scan and the script it writes (image2eagle.py:59-62, 82-112).
 * The output stream is an accumulating sequence of commands.
 */
module Scanner {
  import opened Coords
  import opened Commands
  import opened Runs

  /**
   * The command-line settings the scan depends on: line width in mils, input
   * resolution in dots per inch, Eagle layer number, intensity threshold and
   * primitive style.
   */
  datatype Config = Config(lineWidth: real, dpi: real, layer: int, threshold: int, primitive: string)

  /** How a run ends: with the script written, or with the process exiting with `status`. */
  datatype Outcome = Written(script: seq<Command>) | Exit(status: int)

  /** The primitive drawn for `run` in pixel row `row` of an image of `rows` rows and `cols` columns. */
  function RunPrimitive(run: Run, row: int, rows: int, cols: int, cfg: Config): (c: Command)
    requires cfg.dpi != 0.0
    ensures IsPrimitive(c) && (c.Rect? <==> cfg.primitive == "r")
    ensures c.Wire? ==> c.width == cfg.lineWidth
    ensures c.x0 == XCoord(run.start, cfg.dpi) && c.y0 == YCoord(row, rows, cfg.lineWidth)
    ensures c.x1 == XCoord(EmittedEnd(run, cols), cfg.dpi) && c.y1 == c.y0 - cfg.lineWidth
  {
    RenderRun(cfg.primitive, cfg.lineWidth,
              XCoord(run.start, cfg.dpi), YCoord(row, rows, cfg.lineWidth),
              XCoord(EmittedEnd(run, cols), cfg.dpi), YCoord(row + 1, rows, cfg.lineWidth))
  }

  /** One primitive per run, in the order of the runs. */
  function RenderRuns(runs: seq<Run>, row: int, rows: int, cols: int, cfg: Config): (cmds: seq<Command>)
    requires cfg.dpi != 0.0
    ensures |cmds| == |runs|
  {
    if runs == [] then []
    else [RunPrimitive(runs[0], row, rows, cols, cfg)] + RenderRuns(runs[1..], row, rows, cols, cfg)
  }

  /** The k-th command drawn for a list of runs is the primitive of the k-th run. */
  lemma {:induction false} RenderRunsAt(runs: seq<Run>, row: int, rows: int, cols: int, cfg: Config, k: int)
    requires cfg.dpi != 0.0 && 0 <= k < |runs|
    ensures RenderRuns(runs, row, rows, cols, cfg)[k] == RunPrimitive(runs[k], row, rows, cols, cfg)
    decreases |runs|
  {
    if k > 0 {
      RenderRunsAt(runs[1..], row, rows, cols, cfg, k - 1);
    }
  }

  lemma RenderRunsCons(run: Run, runs: seq<Run>, row: int, rows: int, cols: int, cfg: Config)
    requires cfg.dpi != 0.0
    ensures RenderRuns([run] + runs, row, rows, cols, cfg)
         == [RunPrimitive(run, row, rows, cols, cfg)] + RenderRuns(runs, row, rows, cols, cfg)
  {
    assert ([run] + runs)[1..] == runs;
  }

  /** The commands written for pixel row `row` of an image of `rows` rows. */
  function RowScript(pixels: seq<int>, row: int, rows: int, cfg: Config): seq<Command>
    requires cfg.dpi != 0.0
  {
    RenderRuns(RowRuns(pixels, cfg.threshold), row, rows, |pixels|, cfg)
  }

  /** The commands written for the first `n` rows of `image`, top row first. */
  function RowsScript(image: seq<seq<int>>, n: int, cfg: Config): seq<Command>
    requires 0 <= n <= |image| && cfg.dpi != 0.0
  {
    if n == 0 then []
    else RowsScript(image, n - 1, cfg) + RowScript(image[n - 1], n - 1, |image|, cfg)
  }

  /** The whole script: grid and layer directives, every row's primitives, grid restore. */
  function Script(image: seq<seq<int>>, cfg: Config): seq<Command>
    requires cfg.dpi != 0.0
  {
    [GridMil, Layer(cfg.layer)] + RowsScript(image, |image|, cfg) + [GridLast]
  }

  /** The commands still to be written for the runs from column `from` on. */
  function PendingScript(pixels: seq<int>, from: int, row: int, rows: int, cfg: Config): seq<Command>
    requires cfg.dpi != 0.0 && 0 <= from <= |pixels| && AtBoundary(pixels, cfg.threshold, from)
  {
    RenderRuns(RunsFrom(pixels, cfg.threshold, from), row, rows, |pixels|, cfg)
  }

  /**
   * A run from `s` closed by the background pixel at column `c` is written
   * with end column c - 1, and the scan goes on after column `c`.
   */
  lemma CloseRunAtBackground(pixels: seq<int>, row: int, rows: int, cfg: Config, s: int, c: int)
    requires cfg.dpi != 0.0 && 0 <= s < c < |pixels| && AtBoundary(pixels, cfg.threshold, s)
    requires AllForeground(pixels, cfg.threshold, s, c)
    requires !Fg(pixels[c], cfg.threshold)
    ensures AtBoundary(pixels, cfg.threshold, c + 1)
    ensures PendingScript(pixels, s, row, rows, cfg)
         == [RenderRun(cfg.primitive, cfg.lineWidth,
                       XCoord(s, cfg.dpi), YCoord(row, rows, cfg.lineWidth),
                       XCoord(c - 1, cfg.dpi), YCoord(row + 1, rows, cfg.lineWidth))]
            + PendingScript(pixels, c + 1, row, rows, cfg)
  {
    RunsFromBlock(pixels, cfg.threshold, s, c);
    RunsFromSkip(pixels, cfg.threshold, c);
    RenderRunsCons(Run(s, c - 1), RunsFrom(pixels, cfg.threshold, c + 1), row, rows, |pixels|, cfg);
  }

  /**
   * A run from `s` still open at the end of the row is written with end
   * column cols - 2, and nothing is left to write.
   */
  lemma CloseRunAtEdge(pixels: seq<int>, row: int, rows: int, cfg: Config, s: int)
    requires cfg.dpi != 0.0 && 0 <= s < |pixels| && AtBoundary(pixels, cfg.threshold, s)
    requires AllForeground(pixels, cfg.threshold, s, |pixels|)
    ensures PendingScript(pixels, s, row, rows, cfg)
         == [RenderRun(cfg.primitive, cfg.lineWidth,
                       XCoord(s, cfg.dpi), YCoord(row, rows, cfg.lineWidth),
                       XCoord(|pixels| - 2, cfg.dpi), YCoord(row + 1, rows, cfg.lineWidth))]
  {
    RunsFromBlock(pixels, cfg.threshold, s, |pixels|);
    RenderRunsCons(Run(s, |pixels| - 1), [], row, rows, |pixels|, cfg);
  }

  /** A background pixel outside a run writes nothing. */
  lemma SkipBackground(pixels: seq<int>, row: int, rows: int, cfg: Config, c: int)
    requires cfg.dpi != 0.0 && 0 <= c < |pixels| && AtBoundary(pixels, cfg.threshold, c)
    requires !Fg(pixels[c], cfg.threshold)
    ensures AtBoundary(pixels, cfg.threshold, c + 1)
    ensures PendingScript(pixels, c, row, rows, cfg) == PendingScript(pixels, c + 1, row, rows, cfg)
  {
    RunsFromSkip(pixels, cfg.threshold, c);
  }

  /** Regrouping a concatenation around one emitted command. */
  lemma AppendAssoc(done: seq<Command>, c: Command, rest: seq<Command>)
    ensures done + [c] + rest == done + ([c] + rest)
  {
  }

  /**
   * The state of the column scan of one row before column `col`: `inRun`
   * says whether a run is open (it began at `startCol` and is foreground up
   * to `col`), and `cmds`, followed by the commands for every run from the
   * first column not yet written, is the whole row's script.
   */
  ghost predicate Scanned(pixels: seq<int>, row: int, rows: int, cfg: Config,
                          col: int, inRun: bool, startCol: int, cmds: seq<Command>)
  {
    && cfg.dpi != 0.0
    && 0 <= col <= |pixels|
    && (inRun ==> 0 <= startCol < col && AllForeground(pixels, cfg.threshold, startCol, col))
    && var pending := if inRun then startCol else col;
       && AtBoundary(pixels, cfg.threshold, pending)
       && cmds + PendingScript(pixels, pending, row, rows, cfg) == RowScript(pixels, row, rows, cfg)
  }

  /** Nothing of a row has been scanned yet. */
  lemma ScanStart(pixels: seq<int>, row: int, rows: int, cfg: Config)
    requires cfg.dpi != 0.0
    ensures Scanned(pixels, row, rows, cfg, 0, false, 0, [])
  {
  }

  /** A foreground pixel opens a run at its column or extends the open one. */
  lemma ScanForeground(pixels: seq<int>, row: int, rows: int, cfg: Config,
                       col: int, inRun: bool, startCol: int, cmds: seq<Command>)
    requires Scanned(pixels, row, rows, cfg, col, inRun, startCol, cmds)
    requires col < |pixels| && Fg(pixels[col], cfg.threshold)
    ensures Scanned(pixels, row, rows, cfg, col + 1, true, if inRun then startCol else col, cmds)
  {
  }

  /**
   * A background pixel closes the open run, whose primitive ends at column
   * col - 1, or is skipped when no run is open.
   */
  lemma ScanBackground(pixels: seq<int>, row: int, rows: int, cfg: Config,
                       col: int, inRun: bool, startCol: int, cmds: seq<Command>)
    requires Scanned(pixels, row, rows, cfg, col, inRun, startCol, cmds)
    requires col < |pixels| && !Fg(pixels[col], cfg.threshold)
    ensures inRun ==> Scanned(pixels, row, rows, cfg, col + 1, false, startCol,
                              cmds + [RenderRun(cfg.primitive, cfg.lineWidth,
                                                XCoord(startCol, cfg.dpi),
                                                YCoord(row, rows, cfg.lineWidth),
                                                XCoord(col - 1, cfg.dpi),
                                                YCoord(row + 1, rows, cfg.lineWidth))])
    ensures !inRun ==> Scanned(pixels, row, rows, cfg, col + 1, false, startCol, cmds)
  {
    if inRun {
      CloseRunAtBackground(pixels, row, rows, cfg, startCol, col);
      AppendAssoc(cmds, RenderRun(cfg.primitive, cfg.lineWidth,
                                  XCoord(startCol, cfg.dpi),
                                  YCoord(row, rows, cfg.lineWidth),
                                  XCoord(col - 1, cfg.dpi),
                                  YCoord(row + 1, rows, cfg.lineWidth)),
                  PendingScript(pixels, col + 1, row, rows, cfg));
    } else {
      SkipBackground(pixels, row, rows, cfg, col);
    }
  }

  /**
   * At the end of the row an open run is written with end column
   * |pixels| - 2, and then the whole row's script has been written.
   */
  lemma ScanEnd(pixels: seq<int>, row: int, rows: int, cfg: Config,
                inRun: bool, startCol: int, cmds: seq<Command>)
    requires Scanned(pixels, row, rows, cfg, |pixels|, inRun, startCol, cmds)
    ensures inRun ==> cmds + [RenderRun(cfg.primitive, cfg.lineWidth,
                                        XCoord(startCol, cfg.dpi),
                                        YCoord(row, rows, cfg.lineWidth),
                                        XCoord(|pixels| - 2, cfg.dpi),
                                        YCoord(row + 1, rows, cfg.lineWidth))]
                      == RowScript(pixels, row, rows, cfg)
    ensures !inRun ==> cmds == RowScript(pixels, row, rows, cfg)
  {
    if inRun {
      CloseRunAtEdge(pixels, row, rows, cfg, startCol);
    }
  }

  /**
   * The inner loop of image2eagle.py:89-109: one pass over the columns of one
   * row with the state `inRun` / `startCol`, emitting a primitive whenever a
   * run is closed.
   */
  method ScanRow(pixels: seq<int>, row: int, rows: int, cfg: Config) returns (cmds: seq<Command>)
    requires cfg.dpi != 0.0
    ensures cmds == RowScript(pixels, row, rows, cfg)
  {
    var cols := |pixels|;
    cmds := [];
    var inRun := false;
    var startCol := 0;
    var col := 0;
    ScanStart(pixels, row, rows, cfg);
    while col < cols
      invariant Scanned(pixels, row, rows, cfg, col, inRun, startCol, cmds)
      decreases cols - col
    {
      if pixels[col] > cfg.threshold {
        ScanForeground(pixels, row, rows, cfg, col, inRun, startCol, cmds);
        if !inRun {
          inRun := true;
          startCol := col;
        }
      } else {
        ScanBackground(pixels, row, rows, cfg, col, inRun, startCol, cmds);
        if inRun {
          inRun := false;
          cmds := cmds + [RenderRun(cfg.primitive, cfg.lineWidth,
                                    XCoord(startCol, cfg.dpi),
                                    YCoord(row, rows, cfg.lineWidth),
                                    XCoord(col - 1, cfg.dpi),
                                    YCoord(row + 1, rows, cfg.lineWidth))];
        }
      }
      col := col + 1;
    }
    ScanEnd(pixels, row, rows, cfg, inRun, startCol, cmds);
    // a run that reaches the right edge is closed with the value image2eagle.py's
    // loop variable keeps after the loop, cols - 1, minus one
    if inRun {
      var finalCol := cols - 1;
      cmds := cmds + [RenderRun(cfg.primitive, cfg.lineWidth,
                                XCoord(startCol, cfg.dpi),
                                YCoord(row, rows, cfg.lineWidth),
                                XCoord(finalCol - 1, cfg.dpi),
                                YCoord(row + 1, rows, cfg.lineWidth))];
    }
  }

  /**
   * The emission of image2eagle.py:82-112: header directives, the scan of
   * every row from top to bottom, and the grid restore directive.
   */
  method ScanImage(image: seq<seq<int>>, cfg: Config) returns (script: seq<Command>)
    requires cfg.dpi != 0.0
    ensures script == Script(image, cfg)
  {
    var rows := |image|;
    script := [GridMil, Layer(cfg.layer)];
    var row := 0;
    while row < rows
      invariant 0 <= row <= rows
      invariant script == [GridMil, Layer(cfg.layer)] + RowsScript(image, row, cfg)
    {
      var cmds := ScanRow(image[row], row, rows, cfg);
      assert RowsScript(image, row + 1, cfg) == RowsScript(image, row, cfg) + cmds;
      script := script + cmds;
      row := row + 1;
    }
    script := script + [GridLast];
  }

  /**
   * The converter from the style check on: an unknown primitive style ends
   * the process with status 2 before anything is written (image2eagle.py:59-62);
   * otherwise the script is written. A zero resolution or a zero line width
   * never reaches the scan, since image2eagle.py divides by both while
   * resizing (image2eagle.py:73), before the output file is opened.
   */
  method Image2Eagle(image: seq<seq<int>>, cfg: Config) returns (outcome: Outcome)
    requires IsKnownPrimitive(cfg.primitive) ==> cfg.dpi != 0.0 && cfg.lineWidth != 0.0
    ensures outcome.Exit? <==> !IsKnownPrimitive(cfg.primitive)
    ensures outcome.Exit? ==> outcome.status == 2
    ensures outcome.Written? ==> cfg.dpi != 0.0 && cfg.lineWidth != 0.0 && outcome.script == Script(image, cfg)
  {
    if cfg.primitive != "l" && cfg.primitive != "r" {
      return Exit(2);
    }
    var script := ScanImage(image, cfg);
    outcome := Written(script);
  }
}
