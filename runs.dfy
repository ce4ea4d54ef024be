/**
 * Maximal runs of foreground pixels in one row of the resized image, the
 * reference the row scan of image2eagle.py:89-109 is proved against.
 */
module Runs {

  /** A pixel is foreground exactly when it is strictly brighter than the threshold. */
  predicate Fg(v: int, threshold: int)
  {
    v > threshold
  }

  /** A run of foreground pixels: its first column and the column of its last pixel. */
  datatype Run = Run(start: int, last: int)

  /**
   * `run` is a maximal run of `row`: every pixel from `start` to `last` is
   * foreground, and the run cannot be extended to either side.
   */
  ghost predicate IsMaximalRun(row: seq<int>, threshold: int, run: Run)
  {
    && 0 <= run.start <= run.last < |row|
    && (forall k :: run.start <= k <= run.last ==> Fg(row[k], threshold))
    && (run.start == 0 || !Fg(row[run.start - 1], threshold))
    && (run.last == |row| - 1 || !Fg(row[run.last + 1], threshold))
  }

  /** The last column of the block of foreground pixels that contains column `i`, looking right. */
  function RunLast(row: seq<int>, threshold: int, i: int): (e: int)
    requires 0 <= i < |row| && Fg(row[i], threshold)
    ensures i <= e < |row|
    ensures forall k :: i <= k <= e ==> Fg(row[k], threshold)
    ensures e == |row| - 1 || !Fg(row[e + 1], threshold)
    decreases |row| - i
  {
    if i + 1 < |row| && Fg(row[i + 1], threshold) then RunLast(row, threshold, i + 1) else i
  }

  /** The first column of the block of foreground pixels that contains column `i`, looking left. */
  function RunFirst(row: seq<int>, threshold: int, i: int): (s: int)
    requires 0 <= i < |row| && Fg(row[i], threshold)
    ensures 0 <= s <= i
    ensures forall k :: s <= k <= i ==> Fg(row[k], threshold)
    ensures s == 0 || !Fg(row[s - 1], threshold)
  {
    if 0 < i && Fg(row[i - 1], threshold) then RunFirst(row, threshold, i - 1) else i
  }

  /**
   * Column `i` does not cut a block of foreground pixels in two: it is an edge
   * of the row, or one of the pixels on either side of the cut is background.
   */
  predicate AtBoundary(row: seq<int>, threshold: int, i: int)
    requires 0 <= i <= |row|
  {
    i == 0 || i == |row| || !Fg(row[i - 1], threshold) || !Fg(row[i], threshold)
  }

  /** The maximal runs of `row` that start at column `i` or later, left to right. */
  function RunsFrom(row: seq<int>, threshold: int, i: int): seq<Run>
    requires 0 <= i <= |row| && AtBoundary(row, threshold, i)
    decreases |row| - i
  {
    if i == |row| then []
    else if !Fg(row[i], threshold) then RunsFrom(row, threshold, i + 1)
    else
      var e := RunLast(row, threshold, i);
      [Run(i, e)] + RunsFrom(row, threshold, e + 1)
  }

  /**
   * Every run in `runs` is maximal and starts at column `lo` or later, and the
   * runs are listed left to right with background between them.
   */
  ghost predicate OrderedMaximalRuns(row: seq<int>, threshold: int, lo: int, runs: seq<Run>)
  {
    && (forall k :: 0 <= k < |runs| ==> IsMaximalRun(row, threshold, runs[k]) && lo <= runs[k].start)
    && (forall k, l :: 0 <= k < l < |runs| ==> runs[k].last + 1 < runs[l].start)
  }

  /** A maximal run followed, past a background pixel, by ordered maximal runs. */
  lemma PrependRun(row: seq<int>, threshold: int, lo: int, run: Run, rest: seq<Run>)
    requires IsMaximalRun(row, threshold, run) && lo <= run.start
    requires OrderedMaximalRuns(row, threshold, run.last + 1, rest)
    ensures OrderedMaximalRuns(row, threshold, lo, [run] + rest)
  {
    var runs := [run] + rest;
    forall k | 0 <= k < |runs|
      ensures IsMaximalRun(row, threshold, runs[k]) && lo <= runs[k].start
    {
      if k > 0 {
        assert runs[k] == rest[k - 1];
      }
    }
    forall k, l | 0 <= k < l < |runs|
      ensures runs[k].last + 1 < runs[l].start
    {
      assert runs[l] == rest[l - 1];
      if k == 0 {
        assert Fg(row[rest[l - 1].start], threshold);
      } else {
        assert runs[k] == rest[k - 1];
      }
    }
  }

  /** The foreground block that starts at a boundary is a maximal run, and a boundary follows it. */
  lemma RunLastMaximal(row: seq<int>, threshold: int, i: int)
    requires 0 <= i < |row| && AtBoundary(row, threshold, i) && Fg(row[i], threshold)
    ensures IsMaximalRun(row, threshold, Run(i, RunLast(row, threshold, i)))
    ensures AtBoundary(row, threshold, RunLast(row, threshold, i) + 1)
  {
  }

  /** At a foreground pixel on a boundary, the scan lists that pixel's run first. */
  lemma RunsFromForeground(row: seq<int>, threshold: int, i: int)
    requires 0 <= i < |row| && AtBoundary(row, threshold, i) && Fg(row[i], threshold)
    ensures AtBoundary(row, threshold, RunLast(row, threshold, i) + 1)
    ensures RunsFrom(row, threshold, i)
         == [Run(i, RunLast(row, threshold, i))] + RunsFrom(row, threshold, RunLast(row, threshold, i) + 1)
  {
  }

  /** `RunsFrom` lists ordered maximal runs, none starting before column `i`. */
  lemma {:induction false} RunsFromSound(row: seq<int>, threshold: int, i: int)
    requires 0 <= i <= |row| && AtBoundary(row, threshold, i)
    ensures OrderedMaximalRuns(row, threshold, i, RunsFrom(row, threshold, i))
    decreases |row| - i
  {
    if i < |row| && !Fg(row[i], threshold) {
      RunsFromSound(row, threshold, i + 1);
      OrderedMaximalRunsFrom(row, threshold, i, i + 1, RunsFrom(row, threshold, i + 1));
    } else if i < |row| {
      var e := RunLast(row, threshold, i);
      RunLastMaximal(row, threshold, i);
      RunsFromForeground(row, threshold, i);
      RunsFromSound(row, threshold, e + 1);
      PrependRun(row, threshold, i, Run(i, e), RunsFrom(row, threshold, e + 1));
    }
  }

  /** Runs that start at column `hi` or later also start at `lo` or later. */
  lemma OrderedMaximalRunsFrom(row: seq<int>, threshold: int, lo: int, hi: int, runs: seq<Run>)
    requires lo <= hi && OrderedMaximalRuns(row, threshold, hi, runs)
    ensures OrderedMaximalRuns(row, threshold, lo, runs)
  {
  }

  /** The maximal runs of a whole row, left to right. */
  function RowRuns(row: seq<int>, threshold: int): seq<Run>
  {
    RunsFrom(row, threshold, 0)
  }

  /**
   * The column the scan closes `run` with, in a row of `cols` columns. A run
   * ended by a background pixel at column c is closed at c - 1, its last
   * pixel (image2eagle.py:96-102). A run still open at the end of the row is
   * closed at the final loop index minus one, cols - 2, which is one column
   * short of its last pixel (image2eagle.py:103-109).
   */
  function EmittedEnd(run: Run, cols: int): (e: int)
    ensures run.last == cols - 1 ==> e == run.last - 1
    ensures run.last != cols - 1 ==> e == run.last
  {
    if run.last == cols - 1 then cols - 2 else run.last
  }

  /**
   * Columns `lo` to `hi - 1` of `row` are all foreground. Stated recursively,
   * so that extending the block by one column is a single unfolding.
   */
  predicate AllForeground(row: seq<int>, threshold: int, lo: int, hi: int)
    requires 0 <= lo <= hi <= |row|
    decreases hi - lo
  {
    lo == hi || (Fg(row[hi - 1], threshold) && AllForeground(row, threshold, lo, hi - 1))
  }

  lemma {:induction false} AllForegroundAt(row: seq<int>, threshold: int, lo: int, hi: int, k: int)
    requires 0 <= lo <= k < hi <= |row| && AllForeground(row, threshold, lo, hi)
    ensures Fg(row[k], threshold)
    decreases hi - lo
  {
    if k < hi - 1 {
      AllForegroundAt(row, threshold, lo, hi - 1, k);
    }
  }

  /**
   * Seen from the first column of a block of foreground pixels that is ended at
   * column c (by a background pixel or by the end of the row), the runs are
   * that block followed by the runs from c on.
   */
  lemma RunsFromBlock(row: seq<int>, threshold: int, s: int, c: int)
    requires 0 <= s < c <= |row| && AtBoundary(row, threshold, s)
    requires AllForeground(row, threshold, s, c)
    requires c == |row| || !Fg(row[c], threshold)
    ensures RunsFrom(row, threshold, s) == [Run(s, c - 1)] + RunsFrom(row, threshold, c)
  {
    forall k | s <= k < c
      ensures Fg(row[k], threshold)
    {
      AllForegroundAt(row, threshold, s, c, k);
    }
    var e := RunLast(row, threshold, s);
  }

  /** A background pixel at a boundary belongs to no run. */
  lemma RunsFromSkip(row: seq<int>, threshold: int, i: int)
    requires 0 <= i < |row| && AtBoundary(row, threshold, i) && !Fg(row[i], threshold)
    ensures AtBoundary(row, threshold, i + 1)
    ensures RunsFrom(row, threshold, i) == RunsFrom(row, threshold, i + 1)
  {
  }

  /** Every maximal run that starts at column `i` or later is found by `RunsFrom`. */
  lemma {:induction false} RunsFromComplete(row: seq<int>, threshold: int, run: Run, i: int)
    requires 0 <= i <= |row| && AtBoundary(row, threshold, i)
    requires IsMaximalRun(row, threshold, run) && i <= run.start
    ensures run in RunsFrom(row, threshold, i)
    decreases |row| - i
  {
    assert Fg(row[run.start], threshold);
    if !Fg(row[i], threshold) {
      RunsFromComplete(row, threshold, run, i + 1);
    } else {
      var e := RunLast(row, threshold, i);
      if run.start != i {
        RunsFromComplete(row, threshold, run, e + 1);
      }
    }
  }

  /** `Runs` lists exactly the maximal runs of the row. */
  lemma RunsAreTheMaximalRuns(row: seq<int>, threshold: int, run: Run)
    ensures run in RowRuns(row, threshold) <==> IsMaximalRun(row, threshold, run)
  {
    RunsFromSound(row, threshold, 0);
    if IsMaximalRun(row, threshold, run) {
      RunsFromComplete(row, threshold, run, 0);
    }
  }

  /** Runs are listed left to right, do not overlap and are never adjacent. */
  lemma RunsOrdered(row: seq<int>, threshold: int, k: int, l: int)
    requires 0 <= k < l < |RowRuns(row, threshold)|
    ensures RowRuns(row, threshold)[k].start < RowRuns(row, threshold)[l].start
    ensures RowRuns(row, threshold)[k].last + 1 < RowRuns(row, threshold)[l].start
  {
    RunsFromSound(row, threshold, 0);
  }

  /** A pixel is foreground exactly when it lies inside some run. */
  lemma RunsCoverForeground(row: seq<int>, threshold: int, c: int)
    requires 0 <= c < |row|
    ensures Fg(row[c], threshold) <==>
      exists k :: 0 <= k < |RowRuns(row, threshold)| && RowRuns(row, threshold)[k].start <= c <= RowRuns(row, threshold)[k].last
  {
    RunsFromSound(row, threshold, 0);
    var runs := RowRuns(row, threshold);
    if Fg(row[c], threshold) {
      var s := RunFirst(row, threshold, c);
      var run := Run(s, RunLast(row, threshold, c));
      assert IsMaximalRun(row, threshold, run);
      RunsAreTheMaximalRuns(row, threshold, run);
      var k :| 0 <= k < |runs| && runs[k] == run;
    } else {
      forall k | 0 <= k < |runs|
        ensures !(runs[k].start <= c <= runs[k].last)
      {
      }
    }
  }

  /**
   * A row yields no run exactly when none of its pixels is brighter than the
   * threshold; in particular a pixel equal to the threshold starts no run.
   */
  lemma NoRunsIffBackground(row: seq<int>, threshold: int)
    ensures RowRuns(row, threshold) == [] <==> forall c :: 0 <= c < |row| ==> !Fg(row[c], threshold)
  {
    RunsFromSound(row, threshold, 0);
    if RowRuns(row, threshold) == [] {
      forall c | 0 <= c < |row|
        ensures !Fg(row[c], threshold)
      {
        RunsCoverForeground(row, threshold, c);
      }
    } else {
      assert Fg(row[RowRuns(row, threshold)[0].start], threshold);
    }
  }

  /** A row whose every pixel is foreground is one run spanning the whole row. */
  lemma ForegroundRowIsOneRun(row: seq<int>, threshold: int)
    requires |row| > 0
    requires forall c :: 0 <= c < |row| ==> Fg(row[c], threshold)
    ensures RowRuns(row, threshold) == [Run(0, |row| - 1)]
  {
    RunsFromSound(row, threshold, 0);
    var runs := RowRuns(row, threshold);
    RunsAreTheMaximalRuns(row, threshold, Run(0, |row| - 1));
    forall k | 0 <= k < |runs|
      ensures runs[k] == Run(0, |row| - 1)
    {
    }
    assert |runs| < 2 || runs[0].last + 1 < runs[1].start;
  }

  /**
   * The end column of an emitted run: the run's last pixel when a background
   * pixel follows it, one column less when the run reaches the right edge.
   */
  lemma EmittedEndOfRun(row: seq<int>, threshold: int, k: int)
    requires 0 <= k < |RowRuns(row, threshold)|
    ensures 0 <= RowRuns(row, threshold)[k].start <= RowRuns(row, threshold)[k].last < |row|
    ensures var run := RowRuns(row, threshold)[k];
      if run.last < |row| - 1 then
        EmittedEnd(run, |row|) == run.last && run.start <= EmittedEnd(run, |row|)
        && !Fg(row[run.last + 1], threshold)
      else
        EmittedEnd(run, |row|) == |row| - 2 == run.last - 1
  {
    RunsFromSound(row, threshold, 0);
  }

  /** Emitted runs of one row do not overlap: each ends before the next one starts. */
  lemma EmittedRunsDisjoint(row: seq<int>, threshold: int, k: int, l: int)
    requires 0 <= k < l < |RowRuns(row, threshold)|
    ensures EmittedEnd(RowRuns(row, threshold)[k], |row|) < RowRuns(row, threshold)[l].start
  {
    RunsFromSound(row, threshold, 0);
  }
}
