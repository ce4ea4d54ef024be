# image2eagle: run-length scan to Eagle script, modelled in Dafny

`image2eagle.py` turns a grayscale image into an Eagle command script. It
resizes the image so that every pixel row is one line width tall. Then it
scans each row left to right for maximal runs of pixels brighter than a
threshold, and writes one `RECT` or `WIRE` primitive per run. The script
starts with `GRID mil;` and `LAYER n;` and ends with `GRID last;`.

This project models the part after the image has been decoded and resized:

- `coords.dfy` (module `Coords`): the pixel-to-mil formulas `x_coord` and
  `y_coord`, over exact `real` arithmetic.
- `commands.dfy` (module `Commands`): the script's commands as a datatype,
  `render_run`'s choice between a rectangle and a wire, and the set of
  primitive styles the command line accepts.
- `runs.dfy` (module `Runs`): the reference definition of the maximal runs
  of a row (`RowRuns`), proved to list exactly the maximal runs, in order.
  It also defines `EmittedEnd`, the end column the scan actually writes.
- `scanner.dfy` (module `Scanner`): the scan itself. `ScanRow` is the
  column loop with its `inRun` / `startCol` state. `ScanImage` is the row
  loop with the header and trailer. `Image2Eagle` adds the style check.
  Each method is proved equal to a specification function (`RowScript`,
  `Script`) built from `RowRuns`.
- `script_properties.dfy` (module `ScriptProperties`): what the script
  promises. One primitive per maximal run. Rows come top to bottom, and runs
  within a row left to right without overlap. Every primitive is one line
  width tall. The frame is always present, and the script is the bare frame
  exactly when no pixel is foreground.
- `scenarios.dfy` (module `Scenarios`): three small images worked out to
  their exact scripts.

The image is a `seq<seq<int>>` of rows of already-resized grayscale values.
Each row is scanned over its own length, which for a real image is the
image's width `cols`. The output stream is a `seq<Command>` that the methods
build by appending. Each `Command` is a datatype value, not text.

## Run end columns

- A run still open at the end of a row is closed with
  `x_coord(col - 1)`, where `col` keeps its last loop value `cols - 1`
  (image2eagle.py:103-109). Its end column is therefore `cols - 2`, one
  column before the run's last pixel. A run closed by a background pixel
  ends exactly at its last pixel (image2eagle.py:96-102). `EmittedEnd`
  states both cases.
- So a primitive's `x0 <= x1` holds for runs closed by a background pixel
  (`RunEndColumns`), but a one-pixel run in the last column gets `x1 < x0`
  (`LastColumnPixelIsReversed`, `RightEdgeRunExample`).
- For the row dark, light, light, dark, the run is closed at `x_coord(2)`,
  the column of its last light pixel (`InteriorRunExample`).
- image2eagle.py does not check `--input-dpi` or `--line-width` for
  positivity.

## Model

| member | source | states |
|---|---|---|
| `Coords.XCoord` | image2eagle.py:22-23 | `x_coord`: the x-coordinate in mils of a pixel column, so that `dpi` columns make one inch of 1000 mils |
| `Coords.YCoord` | image2eagle.py:26-27 | `y_coord`: the y-coordinate in mils of a pixel row with the axis flipped; the last row lies at y = 0 and each row above it is one line width higher |
| `Coords.XCoordStrictlyIncreasing` | image2eagle.py:22-23 | with `dpi > 0`, a larger column has a strictly larger x-coordinate |
| `Coords.XCoordMonotone` | image2eagle.py:22-23 | with `dpi > 0`, `c1 <= c2` gives `x_coord(c1) <= x_coord(c2)` |
| `Coords.YCoordNextRow` | image2eagle.py:26-27 | the next row's y-coordinate is one line width lower |
| `Coords.YCoordStrictlyDecreasing` | image2eagle.py:26-27 | with a positive line width, a larger row index has a strictly smaller y-coordinate |
| `Coords.TopRowIsHighest` | image2eagle.py:26-27 | row 0 has the largest y-coordinate, the last row is at y = 0, and no row is below 0 |
| `Commands.IsKnownPrimitive` | image2eagle.py:59 | the style check accepts exactly the one-character styles "l" and "r" |
| `Commands.RenderRun` | image2eagle.py:15-19 | style "r" gives a rectangle and any other style a wire of the given width, both with the given corner coordinates |
| `Commands.KnownStyles` | image2eagle.py:15-19 | of the two accepted styles, "r" draws a rectangle and "l" draws a wire |
| `Runs.RunLast` | image2eagle.py:90-97 | from a foreground pixel, the block goes right to a column after which the row ends or a background pixel follows |
| `Runs.RunFirst` | image2eagle.py:91-94 | from a foreground pixel, the block goes left to a column before which the row starts or a background pixel stands |
| `Runs.RunLastMaximal` | image2eagle.py:91-97 | a foreground block that starts where the scan is at a boundary is a maximal run, and the scan is at a boundary again after it |
| `Runs.RunsFromForeground` | image2eagle.py:91-102 | at a foreground pixel on a boundary, that pixel's run is the next one listed and the scan resumes after it |
| `Runs.RunsFromSound` | image2eagle.py:89-109 | every listed run is maximal: all foreground (strictly above the threshold) and bounded by background or the row's edges; runs are listed left to right with background between them |
| `Runs.RunsFromComplete` | image2eagle.py:89-109 | every maximal run starting at or after the scan position is listed |
| `Runs.RunsAreTheMaximalRuns` | image2eagle.py:89-109 | a run is listed for a row if and only if it is a maximal run of that row |
| `Runs.RunsOrdered` | image2eagle.py:90-102 | runs are listed with strictly increasing start columns, each ending at least two columns before the next starts |
| `Runs.RunsCoverForeground` | image2eagle.py:91-94 | a pixel lies inside some run if and only if it is strictly above the threshold |
| `Runs.NoRunsIffBackground` | image2eagle.py:91-102 | a row has no run if and only if every pixel is at or below the threshold |
| `Runs.ForegroundRowIsOneRun` | image2eagle.py:89-109 | a non-empty all-foreground row is the single run from column 0 to column cols - 1 |
| `Runs.RunsFromBlock` | image2eagle.py:95-109 | a foreground block from a boundary to a background pixel or the row's end is the next run, and the scan continues after it |
| `Runs.RunsFromSkip` | image2eagle.py:91-97 | a background pixel adds no run and leaves the scan at a boundary |
| `Runs.EmittedEnd` | image2eagle.py:101-108 | the end column written for a run, `col-1`: its last pixel when a background pixel closes it, one column short of its last pixel when it reaches the row's end |
| `Runs.EmittedEndOfRun` | image2eagle.py:96-109 | a run followed by a background pixel is closed at its last pixel; a run reaching the right edge is closed at cols - 2, one before its last pixel |
| `Runs.EmittedRunsDisjoint` | image2eagle.py:96-109 | the written end column of a run is left of the next run's start |
| `Scanner.RunPrimitive` | image2eagle.py:98-109 | the `render_run` call for one run: a rectangle for "r", otherwise a wire of the line width, from `x_coord` of the start column and `y_coord` of the row to `x_coord` of the written end column and one line width lower |
| `Scanner.RenderRuns` | image2eagle.py:98-109 | one command per run |
| `Scanner.RenderRunsAt` | image2eagle.py:98-109 | the k-th command is the primitive of the k-th run |
| `Scanner.RenderRunsCons` | image2eagle.py:98-109 | the first run's primitive is written before those of the later runs |
| `Scanner.CloseRunAtBackground` | image2eagle.py:95-102 | a run closed by the background pixel at column c is written first, ending at column c - 1, and the scan goes on after c |
| `Scanner.CloseRunAtEdge` | image2eagle.py:103-109 | a run still open at the row's end is the last one written, ending at column cols - 2 |
| `Scanner.SkipBackground` | image2eagle.py:95-96 | a background pixel outside a run writes nothing |
| `Scanner.ScanStart` | image2eagle.py:89 | before the first column no run is open and nothing of the row is written |
| `Scanner.ScanForeground` | image2eagle.py:91-94 | a foreground pixel opens a run at its own column, or extends the open run, and writes nothing |
| `Scanner.ScanBackground` | image2eagle.py:95-102 | a background pixel closes the open run with end column col - 1 and writes its primitive, or changes nothing when no run is open |
| `Scanner.ScanEnd` | image2eagle.py:103-109 | after the last column, writing the open run (end column cols - 2), if any, completes exactly the row's script |
| `Scanner.ScanRow` | image2eagle.py:89-109 | the column loop with `inRun` and `startCol` writes exactly one primitive per maximal run of the row, in order, with the end columns of `EmittedEnd` |
| `Scanner.ScanImage` | image2eagle.py:82-112 | the script is `GRID mil`, `LAYER n`, the rows' primitives from row 0 down, and `GRID last` |
| `Scanner.Image2Eagle` | image2eagle.py:59-73 | an unknown primitive style, and only that, ends with exit status 2 and no script; a known style reaches the scan only with a non-zero resolution and line width, and then the full script is written |
| `ScriptProperties.RowScriptAt` | image2eagle.py:98-109 | the k-th primitive of a row has the style's shape, starts at the run's start column, ends at its written end column, and spans from the row's y down one line width |
| `ScriptProperties.RowPrimitivePerMaximalRun` | image2eagle.py:89-109 | a row writes as many primitives as it has runs, and its runs are exactly its maximal runs |
| `ScriptProperties.RowScriptInRow` | image2eagle.py:100-109 | every primitive of row r has top edge `y_coord(r)` and bottom edge one line width lower, so no run spans two rows |
| `ScriptProperties.BackgroundRowEmitsNothing` | image2eagle.py:91-102 | a row writes nothing if and only if all its pixels are at or below the threshold |
| `ScriptProperties.ForegroundRowEmitsOne` | image2eagle.py:103-109 | an all-foreground row writes one primitive from `x_coord(0)` to `x_coord(cols - 2)` |
| `ScriptProperties.RowLeftToRight` | image2eagle.py:90-102 | with `dpi > 0`, a row's primitives have strictly increasing x0, and each ends left of the next one's start |
| `ScriptProperties.RunEndColumns` | image2eagle.py:95-109 | a run closed by a background pixel ends at its last pixel's x with `x0 <= x1`; a run reaching the edge ends at `x_coord(cols - 2)` |
| `ScriptProperties.LastColumnPixelIsReversed` | image2eagle.py:103-109 | a one-pixel run in the last column is written from `x_coord(cols - 1)` to `x_coord(cols - 2)`, so `x1 < x0` |
| `ScriptProperties.RowsScriptPrimitives` | image2eagle.py:87-109 | the rows write one primitive per run in total, each one line width tall |
| `ScriptProperties.RowsScriptTopToBottom` | image2eagle.py:87-102 | with a positive line width, top edges never rise along the rows' output |
| `ScriptProperties.ScriptFraming` | image2eagle.py:82-112 | the script is `GRID mil`, `LAYER n`, one primitive per maximal run, `GRID last`, so its length is 3 plus the number of runs |
| `ScriptProperties.ScriptTopToBottom` | image2eagle.py:87-102 | with a positive line width, a later primitive never lies above an earlier one |
| `ScriptProperties.RowsScriptEmptyIffBackground` | image2eagle.py:87-109 | the rows write nothing if and only if no pixel is above the threshold |
| `ScriptProperties.FrameOnlyIffBackground` | image2eagle.py:82-112 | the script is exactly `GRID mil`, `LAYER n`, `GRID last` if and only if no pixel is above the threshold |
| `Scenarios.InteriorRunExample` | image2eagle.py:82-112 | dark, light, light, dark at 1000 dpi gives one rectangle from x = 1 to x = 2 mils |
| `Scenarios.RightEdgeRunExample` | image2eagle.py:103-109 | dark, light gives one rectangle from x = 1 back to x = 0 mils |
| `Scenarios.RowsDoNotMergeExample` | image2eagle.py:87-109 | two identical rows give two wires one line width apart, not one merged primitive |

## Left out

- Image decoding, grayscale conversion, inversion and Lanczos resizing
  (image2eagle.py:64-74) are library calls. The model takes the resized
  pixel grid as its input.
- The float computation of the row count (image2eagle.py:73) is left out.
  The row count is the number of rows in the input grid.
- Coordinates are exact reals, not Python floats. The `%f` and `%d` text
  formatting (image2eagle.py:17, 19, 83) is not modelled; commands are datatype values.
- Command-line parsing (image2eagle.py:30-57) is left out. Its result is the
  `Config` value. The invert flag is left out with the preprocessing it controls.
- The error message and usage text written before exit status 2
  (image2eagle.py:60-61) are not modelled; the exit status is.
- Opening the output file, the `IOError` exit with status 1 and closing the
  file (image2eagle.py:76-80, 113) are I/O. The model returns the script.
- Progress output to standard error (image2eagle.py:88, 114) does not affect
  the script and is left out.
- Scanner.Image2Eagle: a resolution or line width of zero (or none) makes
  image2eagle.py fail with an exception while resizing (image2eagle.py:73),
  before the output file is opened; that failure is not modelled, so a known
  style requires both to be non-zero. The scan requires `dpi != 0`. The lemmas
  about x order also require `dpi > 0`, and those about y order need a
  positive line width.
