/**
 * What the script written by the scan promises: one primitive per maximal
 * run, placed in its own row, left to right within a row and top to bottom
 * across rows, framed by the grid and layer directives (image2eagle.py:82-112).
 */
module ScriptProperties {
  import opened Coords
  import opened Commands
  import opened Runs
  import opened Scanner

  /** The k-th command of a row is the primitive of the row's k-th maximal run. */
  lemma RowScriptAt(pixels: seq<int>, row: int, rows: int, cfg: Config, k: int)
    requires cfg.dpi != 0.0 && 0 <= k < |RowScript(pixels, row, rows, cfg)|
    ensures |RowScript(pixels, row, rows, cfg)| == |RowRuns(pixels, cfg.threshold)|
    ensures var c, run := RowScript(pixels, row, rows, cfg)[k], RowRuns(pixels, cfg.threshold)[k];
      && IsPrimitive(c)
      && (c.Rect? <==> cfg.primitive == "r")
      && (c.Wire? ==> c.width == cfg.lineWidth)
      && c.x0 == XCoord(run.start, cfg.dpi)
      && c.x1 == XCoord(EmittedEnd(run, |pixels|), cfg.dpi)
      && c.y0 == YCoord(row, rows, cfg.lineWidth)
      && c.y1 == c.y0 - cfg.lineWidth
  {
    RenderRunsAt(RowRuns(pixels, cfg.threshold), row, rows, |pixels|, cfg, k);
    YCoordNextRow(row, rows, cfg.lineWidth);
  }

  /**
   * The row's commands are exactly one primitive per maximal run of the row:
   * as many commands as runs, and the runs listed are the maximal ones.
   */
  lemma RowPrimitivePerMaximalRun(pixels: seq<int>, row: int, rows: int, cfg: Config)
    requires cfg.dpi != 0.0
    ensures |RowScript(pixels, row, rows, cfg)| == |RowRuns(pixels, cfg.threshold)|
    ensures forall run :: run in RowRuns(pixels, cfg.threshold) <==> IsMaximalRun(pixels, cfg.threshold, run)
  {
    forall run
      ensures run in RowRuns(pixels, cfg.threshold) <==> IsMaximalRun(pixels, cfg.threshold, run)
    {
      RunsAreTheMaximalRuns(pixels, cfg.threshold, run);
    }
  }

  /** Every command of a row is a primitive one line width tall, with its top edge at the row's y-coordinate. */
  lemma RowScriptInRow(pixels: seq<int>, row: int, rows: int, cfg: Config)
    requires cfg.dpi != 0.0
    ensures var cmds := RowScript(pixels, row, rows, cfg);
      forall k :: 0 <= k < |cmds| ==>
        IsPrimitive(cmds[k]) && cmds[k].y0 == YCoord(row, rows, cfg.lineWidth)
        && cmds[k].y1 == cmds[k].y0 - cfg.lineWidth
  {
    var cmds := RowScript(pixels, row, rows, cfg);
    forall k | 0 <= k < |cmds|
      ensures IsPrimitive(cmds[k]) && cmds[k].y0 == YCoord(row, rows, cfg.lineWidth)
        && cmds[k].y1 == cmds[k].y0 - cfg.lineWidth
    {
      RowScriptAt(pixels, row, rows, cfg, k);
    }
  }

  /** A row emits nothing exactly when every pixel is at or below the threshold. */
  lemma BackgroundRowEmitsNothing(pixels: seq<int>, row: int, rows: int, cfg: Config)
    requires cfg.dpi != 0.0
    ensures RowScript(pixels, row, rows, cfg) == [] <==>
      forall c :: 0 <= c < |pixels| ==> pixels[c] <= cfg.threshold
  {
    NoRunsIffBackground(pixels, cfg.threshold);
  }

  /**
   * A row of foreground pixels emits one primitive, from column 0 to column
   * cols - 2: the end of a run that reaches the right edge is one column short.
   */
  lemma ForegroundRowEmitsOne(pixels: seq<int>, row: int, rows: int, cfg: Config)
    requires cfg.dpi != 0.0 && |pixels| > 0
    requires forall c :: 0 <= c < |pixels| ==> pixels[c] > cfg.threshold
    ensures RowScript(pixels, row, rows, cfg) ==
      [RenderRun(cfg.primitive, cfg.lineWidth,
                 XCoord(0, cfg.dpi), YCoord(row, rows, cfg.lineWidth),
                 XCoord(|pixels| - 2, cfg.dpi), YCoord(row + 1, rows, cfg.lineWidth))]
  {
    ForegroundRowIsOneRun(pixels, cfg.threshold);
    RenderRunsCons(Run(0, |pixels| - 1), [], row, rows, |pixels|, cfg);
  }

  /**
   * Within one row the primitives come out left to right and do not overlap:
   * each one ends strictly before the next one starts.
   */
  lemma RowLeftToRight(pixels: seq<int>, row: int, rows: int, cfg: Config, k: int, l: int)
    requires cfg.dpi > 0.0 && 0 <= k < l < |RowScript(pixels, row, rows, cfg)|
    ensures var cmds := RowScript(pixels, row, rows, cfg);
      IsPrimitive(cmds[k]) && IsPrimitive(cmds[l])
      && cmds[k].x0 < cmds[l].x0 && cmds[k].x1 < cmds[l].x0
  {
    RowScriptAt(pixels, row, rows, cfg, k);
    RowScriptAt(pixels, row, rows, cfg, l);
    var runs := RowRuns(pixels, cfg.threshold);
    RunsOrdered(pixels, cfg.threshold, k, l);
    EmittedRunsDisjoint(pixels, cfg.threshold, k, l);
    XCoordStrictlyIncreasing(runs[k].start, runs[l].start, cfg.dpi);
    XCoordStrictlyIncreasing(EmittedEnd(runs[k], |pixels|), runs[l].start, cfg.dpi);
  }

  /**
   * A run closed by a background pixel ends at its last foreground pixel, so
   * its primitive has x0 <= x1. A run that reaches the right edge ends one
   * column before its last pixel.
   */
  lemma RunEndColumns(pixels: seq<int>, row: int, rows: int, cfg: Config, k: int)
    requires cfg.dpi > 0.0 && 0 <= k < |RowScript(pixels, row, rows, cfg)|
    ensures 0 <= RowRuns(pixels, cfg.threshold)[k].start <= RowRuns(pixels, cfg.threshold)[k].last < |pixels|
    ensures var c, run := RowScript(pixels, row, rows, cfg)[k], RowRuns(pixels, cfg.threshold)[k];
      && IsPrimitive(c)
      && (run.last < |pixels| - 1 ==>
            pixels[run.last + 1] <= cfg.threshold && c.x1 == XCoord(run.last, cfg.dpi) && c.x0 <= c.x1)
      && (run.last == |pixels| - 1 ==> c.x1 == XCoord(|pixels| - 2, cfg.dpi))
  {
    RowScriptAt(pixels, row, rows, cfg, k);
    EmittedEndOfRun(pixels, cfg.threshold, k);
    var run := RowRuns(pixels, cfg.threshold)[k];
    if run.last < |pixels| - 1 {
      XCoordMonotone(run.start, run.last, cfg.dpi);
    }
  }

  /**
   * A single foreground pixel in the last column, after a background pixel,
   * gives the row's last primitive an end x-coordinate left of its start: x1 < x0.
   */
  lemma LastColumnPixelIsReversed(pixels: seq<int>, row: int, rows: int, cfg: Config)
    requires cfg.dpi > 0.0 && |pixels| > 0
    requires pixels[|pixels| - 1] > cfg.threshold
    requires |pixels| == 1 || pixels[|pixels| - 2] <= cfg.threshold
    ensures var cmds := RowScript(pixels, row, rows, cfg);
      && |cmds| > 0 && IsPrimitive(cmds[|cmds| - 1])
      && cmds[|cmds| - 1].x0 == XCoord(|pixels| - 1, cfg.dpi)
      && cmds[|cmds| - 1].x1 == XCoord(|pixels| - 2, cfg.dpi)
      && cmds[|cmds| - 1].x1 < cmds[|cmds| - 1].x0
  {
    var t := cfg.threshold;
    var n := |pixels|;
    var lastRun := Run(n - 1, n - 1);
    assert IsMaximalRun(pixels, t, lastRun);
    RunsAreTheMaximalRuns(pixels, t, lastRun);
    var runs := RowRuns(pixels, t);
    var k :| 0 <= k < |runs| && runs[k] == lastRun;
    if k < |runs| - 1 {
      RunsOrdered(pixels, t, k, |runs| - 1);
      EmittedEndOfRun(pixels, t, |runs| - 1);
    }
    RowScriptAt(pixels, row, rows, cfg, k);
    XCoordStrictlyIncreasing(n - 2, n - 1, cfg.dpi);
  }

  /** Number of maximal runs in the first n rows of the image. */
  function RunCount(image: seq<seq<int>>, n: int, threshold: int): nat
    requires 0 <= n <= |image|
  {
    if n == 0 then 0 else RunCount(image, n - 1, threshold) + |RowRuns(image[n - 1], threshold)|
  }

  /** The commands of the first n rows: one primitive per run, each one line width tall. */
  lemma {:induction false} RowsScriptPrimitives(image: seq<seq<int>>, n: int, cfg: Config)
    requires cfg.dpi != 0.0 && 0 <= n <= |image|
    ensures |RowsScript(image, n, cfg)| == RunCount(image, n, cfg.threshold)
    ensures var s := RowsScript(image, n, cfg);
      forall k :: 0 <= k < |s| ==> IsPrimitive(s[k]) && s[k].y1 == s[k].y0 - cfg.lineWidth
  {
    if n > 0 {
      RowsScriptPrimitives(image, n - 1, cfg);
      var prev := RowsScript(image, n - 1, cfg);
      var cmds := RowScript(image[n - 1], n - 1, |image|, cfg);
      RowScriptInRow(image[n - 1], n - 1, |image|, cfg);
      var s := prev + cmds;
      forall k | 0 <= k < |s|
        ensures IsPrimitive(s[k]) && s[k].y1 == s[k].y0 - cfg.lineWidth
      {
        if k >= |prev| {
          assert s[k] == cmds[k - |prev|];
        }
      }
    }
  }

  /** Every command is a primitive whose top edge is at height `y` or above. */
  ghost predicate AllAtOrAbove(s: seq<Command>, y: real)
  {
    forall k :: 0 <= k < |s| ==> IsPrimitive(s[k]) && y <= s[k].y0
  }

  /** Every command is a primitive and their top edges never rise along the sequence. */
  ghost predicate TopToBottom(s: seq<Command>)
  {
    && (forall k :: 0 <= k < |s| ==> IsPrimitive(s[k]))
    && (forall i, j :: 0 <= i < j < |s| ==> s[j].y0 <= s[i].y0)
  }

  /**
   * With a positive line width the rows come out top to bottom: the top edges
   * of the primitives never rise along the script, and none of the first n rows
   * lies below row n - 1.
   */
  lemma {:induction false} RowsScriptTopToBottom(image: seq<seq<int>>, n: int, cfg: Config)
    requires cfg.dpi != 0.0 && cfg.lineWidth > 0.0 && 0 <= n <= |image|
    ensures TopToBottom(RowsScript(image, n, cfg))
    ensures AllAtOrAbove(RowsScript(image, n, cfg), YCoord(n - 1, |image|, cfg.lineWidth))
  {
    if n > 0 {
      var rows, lw := |image|, cfg.lineWidth;
      RowsScriptTopToBottom(image, n - 1, cfg);
      var prev := RowsScript(image, n - 1, cfg);
      var cmds := RowScript(image[n - 1], n - 1, rows, cfg);
      RowScriptInRow(image[n - 1], n - 1, rows, cfg);
      YCoordStrictlyDecreasing(n - 2, n - 1, rows, lw);
      var s := prev + cmds;
      forall k | 0 <= k < |s|
        ensures IsPrimitive(s[k]) && YCoord(n - 1, rows, lw) <= s[k].y0
      {
        if k < |prev| {
          assert s[k] == prev[k];
        } else {
          assert s[k] == cmds[k - |prev|];
        }
      }
      forall i, j | 0 <= i < j < |s|
        ensures s[j].y0 <= s[i].y0
      {
        if j < |prev| {
          assert s[i] == prev[i] && s[j] == prev[j];
        } else if i < |prev| {
          assert s[i] == prev[i] && s[j] == cmds[j - |prev|];
        } else {
          assert s[i] == cmds[i - |prev|] && s[j] == cmds[j - |prev|];
        }
      }
    }
  }

  /**
   * The script opens with "GRID mil;" and "LAYER n;", closes with "GRID last;",
   * and holds one primitive per maximal run in between, each one line width tall.
   */
  lemma ScriptFraming(image: seq<seq<int>>, cfg: Config)
    requires cfg.dpi != 0.0
    ensures var s := Script(image, cfg);
      && |s| == 3 + RunCount(image, |image|, cfg.threshold)
      && s[0] == GridMil && s[1] == Layer(cfg.layer) && s[|s| - 1] == GridLast
      && forall k :: 2 <= k < |s| - 1 ==> IsPrimitive(s[k]) && s[k].y1 == s[k].y0 - cfg.lineWidth
  {
    RowsScriptPrimitives(image, |image|, cfg);
    var body := RowsScript(image, |image|, cfg);
    var s := Script(image, cfg);
    assert forall k :: 2 <= k < |s| - 1 ==> s[k] == body[k - 2];
  }

  /** With a positive line width, primitives of later rows never lie above those of earlier rows. */
  lemma ScriptTopToBottom(image: seq<seq<int>>, cfg: Config, i: int, j: int)
    requires cfg.dpi != 0.0 && cfg.lineWidth > 0.0
    requires 2 <= i < j < |Script(image, cfg)| - 1
    ensures IsPrimitive(Script(image, cfg)[i]) && IsPrimitive(Script(image, cfg)[j])
    ensures Script(image, cfg)[j].y0 <= Script(image, cfg)[i].y0
  {
    RowsScriptTopToBottom(image, |image|, cfg);
    var body := RowsScript(image, |image|, cfg);
    assert Script(image, cfg)[i] == body[i - 2];
    assert Script(image, cfg)[j] == body[j - 2];
    assert body[j - 2].y0 <= body[i - 2].y0;
  }

  /** The first n rows emit nothing exactly when all their pixels are background. */
  lemma {:induction false} RowsScriptEmptyIffBackground(image: seq<seq<int>>, n: int, cfg: Config)
    requires cfg.dpi != 0.0 && 0 <= n <= |image|
    ensures RowsScript(image, n, cfg) == [] <==>
      forall r, c :: 0 <= r < n && 0 <= c < |image[r]| ==> image[r][c] <= cfg.threshold
  {
    if n > 0 {
      RowsScriptEmptyIffBackground(image, n - 1, cfg);
      BackgroundRowEmitsNothing(image[n - 1], n - 1, |image|, cfg);
    }
  }

  /**
   * The script is the bare frame "GRID mil;", "LAYER n;", "GRID last;" exactly
   * when no pixel of the image is brighter than the threshold.
   */
  lemma FrameOnlyIffBackground(image: seq<seq<int>>, cfg: Config)
    requires cfg.dpi != 0.0
    ensures Script(image, cfg) == [GridMil, Layer(cfg.layer), GridLast] <==>
      forall r, c :: 0 <= r < |image| && 0 <= c < |image[r]| ==> image[r][c] <= cfg.threshold
  {
    RowsScriptEmptyIffBackground(image, |image|, cfg);
    var body := RowsScript(image, |image|, cfg);
    if Script(image, cfg) == [GridMil, Layer(cfg.layer), GridLast] {
      assert |body| == 0;
    }
  }
}
