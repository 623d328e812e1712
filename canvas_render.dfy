/** `renderCanvasToElement` and `canvasStateToImage` of canvasUtils.ts, over a
    model of an HTML canvas element whose 2D context records what is drawn. */
module CanvasRender {
  import opened Basics
  import opened Seqs
  import opened Drawing
  import opened CanvasUtils

  const NO_CONTEXT: string := "无法获取Canvas上下文"
  const NO_IMAGE_DATA: string := "无法生成图片数据"
  const GRID_LINE_COLOR: string := "#e5e7eb"

  /** The two things the browser may refuse: a 2D context, and a blob from
      `toBlob` (which hands back `null` on failure). */
  datatype RenderEnv = RenderEnv(hasContext: bool, encodes: bool)

  /** A canvas element with its 2D context: the element's size, the context's
      drawing state, and the operations drawn since the bitmap was last
      reset. */
  class CanvasElement {
    const hasContext: bool
    var width: int
    var height: int
    var fillStyle: string
    var strokeStyle: string
    var lineWidth: int
    var ops: seq<DrawOp>

    /** `document.createElement('canvas')`: 300×150, blank, default styles. */
    constructor (hasContext: bool)
      ensures this.hasContext == hasContext && width == 300 && height == 150 && ops == []
      ensures fillStyle == "#000000" && strokeStyle == "#000000" && lineWidth == 1
    {
      this.hasContext := hasContext;
      width, height := 300, 150;
      fillStyle, strokeStyle, lineWidth := "#000000", "#000000", 1;
      ops := [];
    }

    /** Assigning `width` resets the bitmap and the context state. */
    method SetWidth(w: int)
      modifies this
      ensures width == w && height == old(height) && ops == []
      ensures fillStyle == "#000000" && strokeStyle == "#000000" && lineWidth == 1
    {
      width := w;
      fillStyle, strokeStyle, lineWidth := "#000000", "#000000", 1;
      ops := [];
    }

    /** Assigning `height` resets the bitmap and the context state. */
    method SetHeight(h: int)
      modifies this
      ensures height == h && width == old(width) && ops == []
      ensures fillStyle == "#000000" && strokeStyle == "#000000" && lineWidth == 1
    {
      height := h;
      fillStyle, strokeStyle, lineWidth := "#000000", "#000000", 1;
      ops := [];
    }

    method SetFillStyle(c: string)
      modifies this
      ensures fillStyle == c
      ensures width == old(width) && height == old(height) && ops == old(ops)
      ensures strokeStyle == old(strokeStyle) && lineWidth == old(lineWidth)
    {
      fillStyle := c;
    }

    method SetStroke(c: string, w: int)
      modifies this
      ensures strokeStyle == c && lineWidth == w
      ensures width == old(width) && height == old(height) && ops == old(ops) && fillStyle == old(fillStyle)
    {
      strokeStyle, lineWidth := c, w;
    }

    method ClearRect(x: int, y: int, w: int, h: int)
      modifies this
      ensures ops == old(ops) + [Drawing.ClearRect(x, y, w, h)]
      ensures width == old(width) && height == old(height)
      ensures fillStyle == old(fillStyle) && strokeStyle == old(strokeStyle) && lineWidth == old(lineWidth)
    {
      ops := ops + [Drawing.ClearRect(x, y, w, h)];
    }

    /** `fillRect` in the current fill style. */
    method FillRect(x: int, y: int, w: int, h: int)
      modifies this
      ensures ops == old(ops) + [Drawing.FillRect(old(fillStyle), x, y, w, h)]
      ensures width == old(width) && height == old(height)
      ensures fillStyle == old(fillStyle) && strokeStyle == old(strokeStyle) && lineWidth == old(lineWidth)
    {
      ops := ops + [Drawing.FillRect(fillStyle, x, y, w, h)];
    }

    /** `beginPath(); moveTo(x0, y0); lineTo(x1, y1); stroke()` in the current
        stroke style and line width. */
    method StrokeSegment(x0: int, y0: int, x1: int, y1: int)
      modifies this
      ensures ops == old(ops) + [StrokeLine(old(strokeStyle), old(lineWidth), x0, y0, x1, y1)]
      ensures width == old(width) && height == old(height)
      ensures fillStyle == old(fillStyle) && strokeStyle == old(strokeStyle) && lineWidth == old(lineWidth)
    {
      ops := ops + [StrokeLine(strokeStyle, lineWidth, x0, y0, x1, y1)];
    }

    /** `toBlob(cb, 'image/png', quality)`: the current picture, or `null`
        when the encoder fails or the bitmap has no pixels (a zero width or
        height always yields `null`). */
    method ToBlob(quality: real, encodes: bool) returns (blob: Option<Blob>)
      ensures blob == if encodes && width > 0 && height > 0 then Some(Png(Surface(width, height, ops), quality)) else None
    {
      if encodes && width > 0 && height > 0 {
        blob := Some(Png(Surface(width, height, ops), quality));
      } else {
        blob := None;
      }
    }
  }

  /** `COLOR_PALETTE[colorIndex] || COLOR_PALETTE[0]`: an index past the
      palette, a negative one, or a missing cell read as `undefined`, all fall
      back to white. */
  function CanvasColor(o: Option<int>): string {
    if o.Some? && 0 <= o.value < |COLOR_PALETTE| then COLOR_PALETTE[o.value] else COLOR_PALETTE[0]
  }

  /** renderCanvasToElement fills every cell. */
  function OpaquePaint(o: Option<int>): Option<string> {
    Some(CanvasColor(o))
  }

  /** What `renderCanvasToElement` draws for an n-row grid with blocks of
      side p: a full clear, n×n fills row by row, n+1 vertical then n+1
      horizontal grid lines. */
  function CanvasDisplayList(g: seq<seq<int>>, p: nat): seq<DrawOp> {
    var n := |g|;
    [Drawing.ClearRect(0, 0, n * p, n * p)] + GridFills(g, n, p, n, OpaquePaint) +
    VerticalLines(GRID_LINE_COLOR, n, p, n + 1) + HorizontalLines(GRID_LINE_COLOR, n, p, n + 1)
  }

  /** renderCanvasToElement: on success the element is n·p square and holds
      exactly `CanvasDisplayList`; without a context it throws before touching
      the element. */
  method RenderCanvasToElement(state: CanvasState, canvas: CanvasElement, pixelSize: nat) returns (r: Result<()>)
    modifies canvas
    ensures !canvas.hasContext ==> r == Err(NO_CONTEXT) && unchanged(canvas)
    ensures canvas.hasContext ==>
      && r == Ok(())
      && canvas.width == |state.pixels| * pixelSize && canvas.height == |state.pixels| * pixelSize
      && canvas.ops == CanvasDisplayList(state.pixels, pixelSize)
  {
    if !canvas.hasContext {
      return Err(NO_CONTEXT);
    }
    var g := state.pixels;
    var canvasSize := |g|;
    var p := pixelSize;
    canvas.SetWidth(canvasSize * p);
    canvas.SetHeight(canvasSize * p);
    canvas.ClearRect(0, 0, canvas.width, canvas.height);
    DrawCells(canvas, g, p);
    DrawGridLines(canvas, canvasSize, p);
    return Ok(());
  }

  /** The fill loops: one block per cell of the n×n grid, row by row. */
  method DrawCells(canvas: CanvasElement, g: seq<seq<int>>, p: nat)
    modifies canvas
    ensures canvas.ops == old(canvas.ops) + GridFills(g, |g|, p, |g|, OpaquePaint)
    ensures canvas.width == old(canvas.width) && canvas.height == old(canvas.height)
  {
    ghost var start := canvas.ops;
    var y := 0;
    while y < |g|
      invariant 0 <= y <= |g|
      invariant canvas.width == old(canvas.width) && canvas.height == old(canvas.height)
      invariant canvas.ops == start + GridFills(g, |g|, p, y, OpaquePaint)
    {
      ghost var before := canvas.ops;
      DrawRow(canvas, g, p, y);
      GridFillsExtend(start, before, g, |g|, p, y, OpaquePaint);
      y := y + 1;
    }
  }

  /** The inner fill loop for row y, columns 0 .. n-1. */
  method DrawRow(canvas: CanvasElement, g: seq<seq<int>>, p: nat, y: nat)
    requires y < |g|
    modifies canvas
    ensures canvas.ops == old(canvas.ops) + RowFills(g, p, y, |g|, OpaquePaint)
    ensures canvas.width == old(canvas.width) && canvas.height == old(canvas.height)
  {
    var x := 0;
    while x < |g|
      invariant 0 <= x <= |g|
      invariant canvas.width == old(canvas.width) && canvas.height == old(canvas.height)
      invariant canvas.ops == old(canvas.ops) + RowFills(g, p, y, x, OpaquePaint)
    {
      var color := COLOR_PALETTE[0];
      if x < |g[y]| && 0 <= g[y][x] < |COLOR_PALETTE| {
        color := COLOR_PALETTE[g[y][x]];
      }
      assert OpaquePaint(Cell(g, y, x)) == Some(color);
      canvas.SetFillStyle(color);
      canvas.FillRect(x * p, y * p, p, p);
      x := x + 1;
    }
  }

  /** The grid-line loops: n+1 vertical lines, then n+1 horizontal ones. */
  method DrawGridLines(canvas: CanvasElement, canvasSize: nat, p: nat)
    modifies canvas
    ensures canvas.ops == old(canvas.ops) + VerticalLines(GRID_LINE_COLOR, canvasSize, p, canvasSize + 1)
                                          + HorizontalLines(GRID_LINE_COLOR, canvasSize, p, canvasSize + 1)
    ensures canvas.width == old(canvas.width) && canvas.height == old(canvas.height)
  {
    canvas.SetStroke(GRID_LINE_COLOR, 1);
    ghost var afterFills := canvas.ops;
    var k := 0;
    while k <= canvasSize
      invariant 0 <= k <= canvasSize + 1
      invariant canvas.width == old(canvas.width) && canvas.height == old(canvas.height)
      invariant canvas.strokeStyle == GRID_LINE_COLOR && canvas.lineWidth == 1
      invariant canvas.ops == afterFills + VerticalLines(GRID_LINE_COLOR, canvasSize, p, k)
    {
      canvas.StrokeSegment(k * p, 0, k * p, canvasSize * p);
      k := k + 1;
    }
    ghost var afterVertical := canvas.ops;
    k := 0;
    while k <= canvasSize
      invariant 0 <= k <= canvasSize + 1
      invariant canvas.width == old(canvas.width) && canvas.height == old(canvas.height)
      invariant canvas.strokeStyle == GRID_LINE_COLOR && canvas.lineWidth == 1
      invariant canvas.ops == afterVertical + HorizontalLines(GRID_LINE_COLOR, canvasSize, p, k)
    {
      canvas.StrokeSegment(0, k * p, canvasSize * p, k * p);
      k := k + 1;
    }
  }

  /** What `canvasStateToImage` resolves to, or the message it rejects with. */
  function StateImage(state: CanvasState, p: nat, quality: real, env: RenderEnv): Result<Blob> {
    var n := |state.pixels|;
    if !env.hasContext then Err(NO_CONTEXT)
    else if !env.encodes || n * p == 0 then Err(NO_IMAGE_DATA)
    else Ok(Png(Surface(n * p, n * p, CanvasDisplayList(state.pixels, p)), quality))
  }

  /** canvasStateToImage: render onto a fresh canvas, then encode it. */
  method CanvasStateToImage(state: CanvasState, pixelSize: nat, quality: real, env: RenderEnv) returns (r: Result<Blob>)
    ensures r == StateImage(state, pixelSize, quality, env)
  {
    var canvas := new CanvasElement(env.hasContext);
    var rendered := RenderCanvasToElement(state, canvas, pixelSize);
    if rendered.Err? {
      return Err(rendered.message);
    }
    var blob := canvas.ToBlob(quality, env.encodes);
    if blob.None? {
      return Err(NO_IMAGE_DATA);
    }
    return Ok(blob.value);
  }

  // ---------------------------------------------------------------------
  // Reading a rendered snapshot back

  /** The palette index of a colour, or -1 for anything else. */
  function PaletteIndex(c: Option<string>): (i: int)
    ensures -1 <= i < |COLOR_PALETTE|
    ensures 0 <= i ==> c == Some(COLOR_PALETTE[i])
  {
    if c.Some? && c.value in COLOR_PALETTE then FirstIndex(COLOR_PALETTE, c.value) else -1
  }

  lemma PaletteIsDuplicateFree()
    ensures NoDuplicates(COLOR_PALETTE)
  {
  }

  lemma PaletteIndexOfColor(i: int)
    requires 0 <= i < |COLOR_PALETTE|
    ensures PaletteIndex(Some(COLOR_PALETTE[i])) == i
  {
    PaletteIsDuplicateFree();
    var r := PaletteIndex(Some(COLOR_PALETTE[i]));
    assert COLOR_PALETTE[r] == COLOR_PALETTE[i];
  }

  /** Read an n×n grid of palette indices back from a display list by
      sampling the centre of every p×p block. */
  function DecodeGrid(ops: seq<DrawOp>, n: nat, p: nat): seq<seq<int>> {
    seq(n, y => seq(n, x => PaletteIndex(Sample(ops, x * p + p / 2, y * p + p / 2))))
  }

  /** The centre of every block shows the colour of its cell: the grid lines
      run between blocks once blocks are at least two units wide. */
  lemma BlockCentreShowsCell(g: seq<seq<int>>, p: nat, x: nat, y: nat)
    requires p >= 2 && x < |g| && y < |g|
    ensures Sample(CanvasDisplayList(g, p), x * p + p / 2, y * p + p / 2) == Some(CanvasColor(Cell(g, y, x)))
  {
    var n := |g|;
    var px, py := x * p + p / 2, y * p + p / 2;
    var clear := [Drawing.ClearRect(0, 0, n * p, n * p)];
    var fills := GridFills(g, n, p, n, OpaquePaint);
    var v := VerticalLines(GRID_LINE_COLOR, n, p, n + 1);
    var h := HorizontalLines(GRID_LINE_COLOR, n, p, n + 1);
    assert CanvasDisplayList(g, p) == clear + fills + v + h;
    GridSample(g, n, p, n, OpaquePaint, x, y, p / 2, p / 2, px, py);
    LinesMissCentres(GRID_LINE_COLOR, n, p, n + 1, x, y);
    SampleConcat(clear, fills, px, py);
    SampleConcat(clear + fills, v, px, py);
    SampleConcat(clear + fills + v, h, px, py);
  }

  /** Round trip: decoding a rendered n×n grid of palette indices gives the
      grid back. */
  lemma DecodeRenderedGrid(g: seq<seq<int>>, p: nat)
    requires p >= 2
    requires forall y :: 0 <= y < |g| ==> |g[y]| == |g|
    requires forall y, x :: 0 <= y < |g| && 0 <= x < |g[y]| ==> ValidColor(g[y][x])
    ensures DecodeGrid(CanvasDisplayList(g, p), |g|, p) == g
  {
    var d := DecodeGrid(CanvasDisplayList(g, p), |g|, p);
    forall y | 0 <= y < |g| ensures d[y] == g[y] {
      forall x | 0 <= x < |g| ensures d[y][x] == g[y][x] {
        var c := Sample(CanvasDisplayList(g, p), x * p + p / 2, y * p + p / 2);
        assert d[y][x] == PaletteIndex(c);
        BlockCentreShowsCell(g, p, x, y);
        assert c == Some(COLOR_PALETTE[g[y][x]]);
        PaletteIndexOfColor(g[y][x]);
      }
    }
  }

  /** A successfully produced image of a valid state decodes to its grid. */
  lemma ImageShowsState(state: CanvasState, p: nat, quality: real, env: RenderEnv)
    requires p >= 2 && WellFormed(state)
    ensures StateImage(state, p, quality, env).Ok? <==> env.hasContext && env.encodes
    ensures StateImage(state, p, quality, env).Ok? ==>
      var s := StateImage(state, p, quality, env).value.surface;
      s.width == s.height == CANVAS_SIZE * p && DecodeGrid(s.ops, CANVAS_SIZE, p) == state.pixels
  {
    DecodeRenderedGrid(state.pixels, p);
  }

  /** Every operation of `ops` is a line in `color`. */
  predicate AllLinesIn(ops: seq<DrawOp>, color: string) {
    forall i :: 0 <= i < |ops| ==> ops[i].StrokeLine? && ops[i].color == color
  }

  lemma {:induction false} UniformSample(ops: seq<DrawOp>, color: string, px: int, py: int)
    requires AllLinesIn(ops, color)
    ensures Touches(ops, px, py) ==> Sample(ops, px, py) == Some(color)
  {
    if ops != [] {
      var q := ops[..|ops| - 1];
      assert AllLinesIn(q, color) by {
        forall i | 0 <= i < |q| ensures q[i].StrokeLine? && q[i].color == color {
          assert q[i] == ops[i];
        }
      }
      UniformSample(q, color, px, py);
    }
  }

  lemma {:induction false} GridLinesUniform(n: nat, p: nat, kEnd: nat)
    ensures AllLinesIn(VerticalLines(GRID_LINE_COLOR, n, p, kEnd), GRID_LINE_COLOR)
    ensures AllLinesIn(HorizontalLines(GRID_LINE_COLOR, n, p, kEnd), GRID_LINE_COLOR)
  {
    if kEnd > 0 {
      GridLinesUniform(n, p, kEnd - 1);
    }
  }

  /** Vertical line k (k ≤ kEnd - 1) covers every point of its segment. */
  lemma {:induction false} VerticalLineDrawn(n: nat, p: nat, kEnd: nat, k: nat, v: int)
    requires k < kEnd && 0 <= v <= n * p
    ensures Touches(VerticalLines(GRID_LINE_COLOR, n, p, kEnd), k * p, v)
  {
    var l := VerticalLines(GRID_LINE_COLOR, n, p, kEnd);
    assert l[..|l| - 1] == VerticalLines(GRID_LINE_COLOR, n, p, kEnd - 1);
    if k < kEnd - 1 {
      VerticalLineDrawn(n, p, kEnd - 1, k, v);
    }
  }

  /** Horizontal line k (k ≤ kEnd - 1) covers every point of its segment. */
  lemma {:induction false} HorizontalLineDrawn(n: nat, p: nat, kEnd: nat, k: nat, v: int)
    requires k < kEnd && 0 <= v <= n * p
    ensures Touches(HorizontalLines(GRID_LINE_COLOR, n, p, kEnd), v, k * p)
  {
    var l := HorizontalLines(GRID_LINE_COLOR, n, p, kEnd);
    assert l[..|l| - 1] == HorizontalLines(GRID_LINE_COLOR, n, p, kEnd - 1);
    if k < kEnd - 1 {
      HorizontalLineDrawn(n, p, kEnd - 1, k, v);
    }
  }

  /** The n+1 grid lines in each direction are drawn over the fills, in the
      grid colour, along their whole length. */
  lemma GridLinesOnTop(g: seq<seq<int>>, p: nat, k: nat, v: int)
    requires k <= |g| && 0 <= v <= |g| * p
    ensures Sample(CanvasDisplayList(g, p), k * p, v) == Some(GRID_LINE_COLOR)
    ensures Sample(CanvasDisplayList(g, p), v, k * p) == Some(GRID_LINE_COLOR)
  {
    var n := |g|;
    var front := [Drawing.ClearRect(0, 0, n * p, n * p)] + GridFills(g, n, p, n, OpaquePaint);
    var vl := VerticalLines(GRID_LINE_COLOR, n, p, n + 1);
    var hl := HorizontalLines(GRID_LINE_COLOR, n, p, n + 1);
    GridLinesUniform(n, p, n + 1);
    VerticalLineDrawn(n, p, n + 1, k, v);
    HorizontalLineDrawn(n, p, n + 1, k, v);
    SampleConcat(front, vl, k * p, v);
    SampleConcat(front + vl, hl, k * p, v);
    SampleConcat(front, vl, v, k * p);
    SampleConcat(front + vl, hl, v, k * p);
    UniformSample(vl, GRID_LINE_COLOR, k * p, v);
    UniformSample(hl, GRID_LINE_COLOR, k * p, v);
    UniformSample(hl, GRID_LINE_COLOR, v, k * p);
  }
}
