/** A display-list view of the HTML canvas 2D context as the renderers use it:
    `clearRect`, `fillRect` with a fill style, and one-unit stroked lines. The
    browser raster and the PNG encoder are not modelled; instead `Sample`
    decodes the colour a display list leaves at an integer point, which is
    enough to state that a rendered snapshot shows the grid it was drawn from. */
module Drawing {
  import opened Basics

  datatype DrawOp =
    | ClearRect(x: int, y: int, w: int, h: int)
    | FillRect(color: string, x: int, y: int, w: int, h: int)
    | StrokeLine(color: string, width: int, x0: int, y0: int, x1: int, y1: int)

  /** A canvas element after drawing: its size and what was drawn on it. */
  datatype Surface = Surface(width: int, height: int, ops: seq<DrawOp>)

  /** What `canvas.toBlob(…, 'image/png', quality)` hands back. */
  datatype Blob = Png(surface: Surface, quality: real)

  predicate Between(a: int, b: int, v: int) {
    (a <= v <= b) || (b <= v <= a)
  }

  /** Whether drawing `op` affects the point (px, py). Rectangles are half-open;
      a stroked line covers the points of its (axis-parallel) segment. */
  predicate Covers(op: DrawOp, px: int, py: int) {
    match op
    case ClearRect(x, y, w, h) => x <= px < x + w && y <= py < y + h
    case FillRect(_, x, y, w, h) => x <= px < x + w && y <= py < y + h
    case StrokeLine(_, _, x0, y0, x1, y1) =>
      (x0 == x1 && px == x0 && Between(y0, y1, py)) || (y0 == y1 && py == y0 && Between(x0, x1, px))
  }

  /** Whether some operation of the list affects (px, py). */
  predicate Touches(ops: seq<DrawOp>, px: int, py: int) {
    ops != [] && (Covers(ops[|ops| - 1], px, py) || Touches(ops[..|ops| - 1], px, py))
  }

  /** The colour left at (px, py) when `ops` are drawn in order on a fresh
      (transparent) canvas; `None` means transparent. The last operation that
      covers the point decides. */
  function Sample(ops: seq<DrawOp>, px: int, py: int): Option<string> {
    if ops == [] then None
    else
      var op := ops[|ops| - 1];
      if Covers(op, px, py) then
        match op
        case ClearRect(_, _, _, _) => None
        case FillRect(c, _, _, _, _) => Some(c)
        case StrokeLine(c, _, _, _, _, _) => Some(c)
      else Sample(ops[..|ops| - 1], px, py)
  }

  /** Drawing `b` after `a`: where `b` draws, `b` decides; elsewhere `a` does. */
  lemma {:induction false} SampleConcat(a: seq<DrawOp>, b: seq<DrawOp>, px: int, py: int)
    ensures Touches(a + b, px, py) == (Touches(a, px, py) || Touches(b, px, py))
    ensures Sample(a + b, px, py) == if Touches(b, px, py) then Sample(b, px, py) else Sample(a, px, py)
  {
    if b == [] {
      assert a + b == a;
    } else {
      var b' := b[..|b| - 1];
      assert (a + b)[..|a + b| - 1] == a + b';
      assert (a + b)[|a + b| - 1] == b[|b| - 1];
      SampleConcat(a, b', px, py);
    }
  }

  /** The cell at row y, column x of a grid whose rows may be short:
      `pixels[y][x]`, which is `undefined` past the end of the row. */
  function Cell(g: seq<seq<int>>, y: nat, x: nat): Option<int>
    requires y < |g|
  {
    if x < |g[y]| then Some(g[y][x]) else None
  }

  /** The fills of row y for columns 0 .. xEnd-1, left to right: `paint`
      gives each cell's colour, or `None` when the renderer skips the cell. */
  function RowFills(g: seq<seq<int>>, p: nat, y: nat, xEnd: nat, paint: Option<int> -> Option<string>): seq<DrawOp>
    requires y < |g|
  {
    if xEnd == 0 then []
    else
      var before := RowFills(g, p, y, xEnd - 1, paint);
      match paint(Cell(g, y, xEnd - 1))
      case None => before
      case Some(c) => before + [FillRect(c, (xEnd - 1) * p, y * p, p, p)]
  }

  /** The fills of rows 0 .. yEnd-1 with `cols` columns each, row by row: the
      nested `for (y …) for (x …)` loops of the renderers. */
  function GridFills(g: seq<seq<int>>, cols: nat, p: nat, yEnd: nat, paint: Option<int> -> Option<string>): seq<DrawOp>
    requires yEnd <= |g|
  {
    if yEnd == 0 then [] else GridFills(g, cols, p, yEnd - 1, paint) + RowFills(g, p, yEnd - 1, cols, paint)
  }

  /** One more row of fills after a display list that already ends with rows
      0 .. y-1: the step of the renderers' outer loops. */
  lemma GridFillsExtend(start: seq<DrawOp>, mid: seq<DrawOp>, g: seq<seq<int>>, cols: nat, p: nat, y: nat, paint: Option<int> -> Option<string>)
    requires y < |g| && mid == start + GridFills(g, cols, p, y, paint)
    ensures mid + RowFills(g, p, y, cols, paint) == start + GridFills(g, cols, p, y + 1, paint)
  {
    assert GridFills(g, cols, p, y + 1, paint) == GridFills(g, cols, p, y, paint) + RowFills(g, p, y, cols, paint);
  }

  /** Blocks of side p tile the plane: a point at offset d inside block b lies
      in block a exactly when a == b. */
  lemma BlockIndex(a: int, b: int, p: int, d: int)
    requires p >= 1 && 0 <= d < p
    ensures (a * p <= b * p + d < a * p + p) <==> a == b
  {
    if a < b {
      BlocksApart(a, b, p);
    } else if a > b {
      BlocksApart(b, a, p);
    }
  }

  /** Block a ends where a later block b at the earliest begins. */
  lemma BlocksApart(a: int, b: int, p: int)
    requires p >= 1 && a < b
    ensures a * p + p <= b * p
  {
    var k := b - a - 1;
    assert b * p == a * p + p + k * p;
    assert k * p >= 0;
  }

  /** Drawing one more operation: where it draws, it decides. */
  lemma SampleSnoc(a: seq<DrawOp>, op: DrawOp, px: int, py: int)
    ensures Touches(a + [op], px, py) == (Covers(op, px, py) || Touches(a, px, py))
    ensures Sample(a + [op], px, py) == if Covers(op, px, py) then Sample([op], px, py) else Sample(a, px, py)
  {
    assert (a + [op])[..|a|] == a;
  }

  /** The block of cell (xc, yr) covers a point of block (x, y) exactly when
      the two cells are the same. */
  lemma BlockCovers(c: string, p: nat, xc: nat, yr: nat, x: nat, y: nat, dx: int, dy: int, px: int, py: int)
    requires p >= 1 && 0 <= dx < p && 0 <= dy < p
    requires px == x * p + dx && py == y * p + dy
    ensures Covers(FillRect(c, xc * p, yr * p, p, p), px, py) == (xc == x && yr == y)
  {
    BlockIndex(xc, x, p, dx);
    BlockIndex(yr, y, p, dy);
  }

  lemma {:induction false} RowSample(g: seq<seq<int>>, p: nat, yr: nat, xEnd: nat, paint: Option<int> -> Option<string>,
                                     x: nat, y: nat, dx: int, dy: int, px: int, py: int)
    requires p >= 1 && yr < |g| && y < |g| && 0 <= dx < p && 0 <= dy < p
    requires px == x * p + dx && py == y * p + dy
    ensures Touches(RowFills(g, p, yr, xEnd, paint), px, py) == (yr == y && x < xEnd && paint(Cell(g, y, x)).Some?)
    ensures Touches(RowFills(g, p, yr, xEnd, paint), px, py) ==> Sample(RowFills(g, p, yr, xEnd, paint), px, py) == paint(Cell(g, y, x))
  {
    if xEnd > 0 {
      RowSample(g, p, yr, xEnd - 1, paint, x, y, dx, dy, px, py);
      var before := RowFills(g, p, yr, xEnd - 1, paint);
      match paint(Cell(g, yr, xEnd - 1))
      case None =>
      case Some(c) =>
        BlockCovers(c, p, xEnd - 1, yr, x, y, dx, dy, px, py);
        SampleSnoc(before, FillRect(c, (xEnd - 1) * p, yr * p, p, p), px, py);
    }
  }

  /** Decoding a cell-fill list: a point (px, py) inside block (x, y) shows
      the colour that `paint` gave that cell, and is untouched when the cell
      was skipped. */
  lemma {:induction false} GridSample(g: seq<seq<int>>, cols: nat, p: nat, yEnd: nat, paint: Option<int> -> Option<string>,
                                      x: nat, y: nat, dx: int, dy: int, px: int, py: int)
    requires p >= 1 && yEnd <= |g| && y < |g| && x < cols && 0 <= dx < p && 0 <= dy < p
    requires px == x * p + dx && py == y * p + dy
    ensures Touches(GridFills(g, cols, p, yEnd, paint), px, py) == (y < yEnd && paint(Cell(g, y, x)).Some?)
    ensures Touches(GridFills(g, cols, p, yEnd, paint), px, py) ==> Sample(GridFills(g, cols, p, yEnd, paint), px, py) == paint(Cell(g, y, x))
  {
    if yEnd > 0 {
      var before, row := GridFills(g, cols, p, yEnd - 1, paint), RowFills(g, p, yEnd - 1, cols, paint);
      assert GridFills(g, cols, p, yEnd, paint) == before + row;
      GridSample(g, cols, p, yEnd - 1, paint, x, y, dx, dy, px, py);
      RowSample(g, p, yEnd - 1, cols, paint, x, y, dx, dy, px, py);
      SampleConcat(before, row, px, py);
    }
  }

  /** The k = 0 .. kEnd-1 vertical lines x = k·p from y = 0 to y = n·p. */
  function VerticalLines(color: string, n: nat, p: nat, kEnd: nat): seq<DrawOp> {
    if kEnd == 0 then [] else VerticalLines(color, n, p, kEnd - 1) + [StrokeLine(color, 1, (kEnd - 1) * p, 0, (kEnd - 1) * p, n * p)]
  }

  /** The k = 0 .. kEnd-1 horizontal lines y = k·p from x = 0 to x = n·p. */
  function HorizontalLines(color: string, n: nat, p: nat, kEnd: nat): seq<DrawOp> {
    if kEnd == 0 then [] else HorizontalLines(color, n, p, kEnd - 1) + [StrokeLine(color, 1, 0, (kEnd - 1) * p, n * p, (kEnd - 1) * p)]
  }

  /** With blocks at least two units wide, no grid line passes through the
      centre of a block. */
  lemma {:induction false} LinesMissCentres(color: string, n: nat, p: nat, kEnd: nat, x: nat, y: nat)
    requires p >= 2
    ensures !Touches(VerticalLines(color, n, p, kEnd), x * p + p / 2, y * p + p / 2)
    ensures !Touches(HorizontalLines(color, n, p, kEnd), x * p + p / 2, y * p + p / 2)
  {
    if kEnd > 0 {
      var k := kEnd - 1;
      var px, py := x * p + p / 2, y * p + p / 2;
      LinesMissCentres(color, n, p, k, x, y);
      LineMissesCentre(k, x, p);
      LineMissesCentre(k, y, p);
      SampleSnoc(VerticalLines(color, n, p, k), StrokeLine(color, 1, k * p, 0, k * p, n * p), px, py);
      SampleSnoc(HorizontalLines(color, n, p, k), StrokeLine(color, 1, 0, k * p, n * p, k * p), px, py);
    }
  }

  /** Line k of a grid with blocks of side p ≥ 2 runs between blocks, so it
      misses the centre of every block. */
  lemma LineMissesCentre(k: int, x: int, p: int)
    requires p >= 2
    ensures k * p != x * p + p / 2
  {
    BlockIndex(k, x, p, p / 2);
  }
}
