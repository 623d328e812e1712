/** The pictures the snapshot service produces (snapshotService.ts): its own
    palette lookup, the grid-less renderer `generateCleanImage`, the choice
    of renderer in `generateSnapshotImage` and the sizing of
    `generatePreview`. The methods that draw live on the service class;
    this module holds what they are proved against. */
module SnapshotImages {
  import opened Basics
  import opened Seqs
  import opened Drawing
  import opened CanvasUtils
  import opened CanvasRender

  /** The palette `getColorFromPalette` keeps locally: the shared palette
      written in lower case. */
  const SERVICE_PALETTE: seq<string> :=
    ["#ffffff", "#000000", "#ff0000", "#00ff00", "#0000ff", "#ffff00", "#ff00ff", "#00ffff"]

  const WHITE: string := "#ffffff"

  /** `palette[colorIndex] || palette[0]`: every palette entry is a non-empty
      string, so only an index off the palette (or a missing cell) falls back
      to white. */
  function GetColorFromPalette(colorIndex: Option<int>): (c: string)
    ensures c in SERVICE_PALETTE
  {
    if colorIndex.Some? && 0 <= colorIndex.value < |SERVICE_PALETTE| then SERVICE_PALETTE[colorIndex.value]
    else SERVICE_PALETTE[0]
  }

  function LowerChar(c: char): char {
    if 'A' <= c <= 'Z' then (c as int - 'A' as int + 'a' as int) as char else c
  }

  function Lower(s: string): string {
    seq(|s|, i requires 0 <= i < |s| => LowerChar(s[i]))
  }

  /** The service's palette is the shared one in lower case, so the clean
      renderer and the grid renderer paint every cell in the same colour
      (up to the case of the hex digits). */
  lemma PalettesAgree(o: Option<int>)
    ensures |SERVICE_PALETTE| == |COLOR_PALETTE|
    ensures forall i :: 0 <= i < |SERVICE_PALETTE| ==> SERVICE_PALETTE[i] == Lower(COLOR_PALETTE[i])
    ensures GetColorFromPalette(o) == Lower(CanvasColor(o))
  {
    assert Lower("#FFFFFF") == "#ffffff";
    assert Lower("#000000") == "#000000";
    assert Lower("#FF0000") == "#ff0000";
    assert Lower("#00FF00") == "#00ff00";
    assert Lower("#0000FF") == "#0000ff";
    assert Lower("#FFFF00") == "#ffff00";
    assert Lower("#FF00FF") == "#ff00ff";
    assert Lower("#00FFFF") == "#00ffff";
  }

  /** The paint rule of the clean renderer: a cell is skipped exactly when
      its colour is white and the background is transparent. */
  function CleanPaint(transparent: bool, o: Option<int>): Option<string> {
    var c := GetColorFromPalette(o);
    if c != WHITE || !transparent then Some(c) else None
  }

  function CleanPainter(transparent: bool): Option<int> -> Option<string> {
    o => CleanPaint(transparent, o)
  }

  /** The white background fill, drawn unless the background is transparent. */
  function Background(transparent: bool, side: int): seq<DrawOp> {
    if transparent then [] else [FillRect(WHITE, 0, 0, side, side)]
  }

  /** What `generateCleanImage` draws for an n-row grid with blocks of side
      p: the background, then the painted cells row by row, and no grid. */
  function CleanDisplayList(g: seq<seq<int>>, p: nat, transparent: bool): seq<DrawOp> {
    var n := |g|;
    Background(transparent, n * p) + GridFills(g, n, p, n, CleanPainter(transparent))
  }

  /** `SnapshotConfig`. */
  datatype SnapshotConfig = SnapshotConfig(pixelSize: nat, quality: real, includeGrid: bool, backgroundTransparent: bool)

  const DEFAULT_CONFIG: SnapshotConfig := SnapshotConfig(32, 1.0, true, false)

  /** A `Partial<SnapshotConfig>`: `None` is a key left out. */
  datatype ConfigOverrides = ConfigOverrides(
    pixelSize: Option<nat>, quality: Option<real>, includeGrid: Option<bool>, backgroundTransparent: Option<bool>)

  const NO_OVERRIDES: ConfigOverrides := ConfigOverrides(None, None, None, None)

  function OrElse<T>(o: Option<T>, d: T): T {
    if o.Some? then o.value else d
  }

  /** `{ ...DEFAULT_CONFIG, ...config }`. */
  function Resolve(o: ConfigOverrides): SnapshotConfig {
    SnapshotConfig(
      OrElse(o.pixelSize, DEFAULT_CONFIG.pixelSize),
      OrElse(o.quality, DEFAULT_CONFIG.quality),
      OrElse(o.includeGrid, DEFAULT_CONFIG.includeGrid),
      OrElse(o.backgroundTransparent, DEFAULT_CONFIG.backgroundTransparent))
  }

  /** What `generateCleanImage` resolves to, or the message it rejects with. */
  function CleanImage(state: CanvasState, cfg: SnapshotConfig, env: RenderEnv): Result<Blob> {
    var n := |state.pixels|;
    var p := cfg.pixelSize;
    if !env.hasContext then Err(NO_CONTEXT)
    else if !env.encodes || n * p == 0 then Err(NO_IMAGE_DATA)
    else Ok(Png(Surface(n * p, n * p, CleanDisplayList(state.pixels, p, cfg.backgroundTransparent)), cfg.quality))
  }

  /** `generateSnapshotImage`: the grid renderer of canvasUtils.ts when
      `includeGrid` is set, otherwise the clean one. The grid renderer takes
      no account of `backgroundTransparent`. */
  function SnapshotImage(state: CanvasState, cfg: SnapshotConfig, env: RenderEnv): Result<Blob> {
    if cfg.includeGrid then StateImage(state, cfg.pixelSize, cfg.quality, env)
    else CleanImage(state, cfg, env)
  }

  /** The configuration `generatePreview` hands to the clean renderer for a
      log replayed onto the 16×16 canvas. */
  function PreviewConfig(previewSize: nat): SnapshotConfig {
    SnapshotConfig(previewSize / CANVAS_SIZE, 0.8, false, false)
  }

  const DEFAULT_PREVIEW_SIZE: nat := 128

  // ---------------------------------------------------------------------
  // Drawing loops of the clean renderer

  /** The inner loop of `generateCleanImage` for row y. */
  method DrawCleanRow(canvas: CanvasElement, g: seq<seq<int>>, p: nat, y: nat, transparent: bool)
    requires y < |g|
    modifies canvas
    ensures canvas.ops == old(canvas.ops) + RowFills(g, p, y, |g|, CleanPainter(transparent))
    ensures canvas.width == old(canvas.width) && canvas.height == old(canvas.height)
  {
    var x := 0;
    while x < |g|
      invariant 0 <= x <= |g|
      invariant canvas.width == old(canvas.width) && canvas.height == old(canvas.height)
      invariant canvas.ops == old(canvas.ops) + RowFills(g, p, y, x, CleanPainter(transparent))
    {
      var colorIndex: Option<int> := if x < |g[y]| then Some(g[y][x]) else None;
      var color := GetColorFromPalette(colorIndex);
      assert colorIndex == Cell(g, y, x);
      if color != WHITE || !transparent {
        canvas.SetFillStyle(color);
        canvas.FillRect(x * p, y * p, p, p);
      }
      x := x + 1;
    }
  }

  /** The outer loop of `generateCleanImage`. */
  method DrawCleanCells(canvas: CanvasElement, g: seq<seq<int>>, p: nat, transparent: bool)
    modifies canvas
    ensures canvas.ops == old(canvas.ops) + GridFills(g, |g|, p, |g|, CleanPainter(transparent))
    ensures canvas.width == old(canvas.width) && canvas.height == old(canvas.height)
  {
    ghost var start := canvas.ops;
    ghost var paint := CleanPainter(transparent);
    var y := 0;
    while y < |g|
      invariant 0 <= y <= |g|
      invariant canvas.width == old(canvas.width) && canvas.height == old(canvas.height)
      invariant canvas.ops == start + GridFills(g, |g|, p, y, paint)
    {
      ghost var before := canvas.ops;
      DrawCleanRow(canvas, g, p, y, transparent);
      GridFillsExtend(start, before, g, |g|, p, y, paint);
      y := y + 1;
    }
  }

  // ---------------------------------------------------------------------
  // Reading a clean image back

  /** The palette index a sampled colour stands for; transparency reads as
      the white background (index 0), an unknown colour as -1. */
  function CleanColorIndex(c: Option<string>): (i: int)
    ensures -1 <= i < |SERVICE_PALETTE|
  {
    if c.None? then 0
    else if c.value in SERVICE_PALETTE then FirstIndex(SERVICE_PALETTE, c.value)
    else -1
  }

  /** Read an n×n grid back from a display list by sampling the top-left
      point of every p×p block. */
  function DecodeClean(ops: seq<DrawOp>, n: nat, p: nat): seq<seq<int>> {
    seq(n, y => seq(n, x => CleanColorIndex(Sample(ops, x * p, y * p))))
  }

  /** Every point of block (x, y) shows the colour the paint rule gave that
      cell, and is left transparent when the rule skipped it. */
  lemma CleanBlockShowsCell(g: seq<seq<int>>, p: nat, transparent: bool, x: nat, y: nat, dx: int, dy: int)
    requires p >= 1 && x < |g| && y < |g| && 0 <= dx < p && 0 <= dy < p
    ensures Sample(CleanDisplayList(g, p, transparent), x * p + dx, y * p + dy) == CleanPaint(transparent, Cell(g, y, x))
  {
    var n := |g|;
    var px, py := x * p + dx, y * p + dy;
    var bg := Background(transparent, n * p);
    var fills := GridFills(g, n, p, n, CleanPainter(transparent));
    GridSample(g, n, p, n, CleanPainter(transparent), x, y, dx, dy, px, py);
    SampleConcat(bg, fills, px, py);
    if transparent {
      assert bg == [];
    }
  }

  lemma ServicePaletteIndex(i: int)
    requires 0 <= i < |SERVICE_PALETTE|
    ensures CleanColorIndex(Some(SERVICE_PALETTE[i])) == i
  {
    assert NoDuplicates(SERVICE_PALETTE);
    var r := CleanColorIndex(Some(SERVICE_PALETTE[i]));
    assert SERVICE_PALETTE[r] == SERVICE_PALETTE[i];
  }

  /** Round trip: the clean image of a square grid of palette indices, on an
      opaque or a transparent background, decodes to the grid. */
  lemma DecodeCleanGrid(g: seq<seq<int>>, p: nat, transparent: bool)
    requires p >= 1
    requires forall y :: 0 <= y < |g| ==> |g[y]| == |g|
    requires forall y, x :: 0 <= y < |g| && 0 <= x < |g[y]| ==> ValidColor(g[y][x])
    ensures DecodeClean(CleanDisplayList(g, p, transparent), |g|, p) == g
  {
    var ops := CleanDisplayList(g, p, transparent);
    var d := DecodeClean(ops, |g|, p);
    forall y | 0 <= y < |g| ensures d[y] == g[y] {
      forall x | 0 <= x < |g| ensures d[y][x] == g[y][x] {
        CleanBlockShowsCell(g, p, transparent, x, y, 0, 0);
        assert x * p + 0 == x * p && y * p + 0 == y * p;
        assert Cell(g, y, x) == Some(g[y][x]);
        ServicePaletteIndex(g[y][x]);
      }
    }
  }

  /** A transparent clean image leaves exactly the white cells unpainted. */
  lemma TransparentSkipsOnlyWhite(g: seq<seq<int>>, p: nat, x: nat, y: nat)
    requires p >= 1 && x < |g| && y < |g| && x < |g[y]| && ValidColor(g[y][x])
    ensures Sample(CleanDisplayList(g, p, true), x * p, y * p).None? <==> g[y][x] == 0
  {
    CleanBlockShowsCell(g, p, true, x, y, 0, 0);
    assert x * p + 0 == x * p && y * p + 0 == y * p;
    assert Cell(g, y, x) == Some(g[y][x]);
    ServicePaletteIndex(g[y][x]);
  }

  /** A preview asked for fewer than 16 pixels has blocks of width 0, so
      its bitmap is empty and encoding rejects it; from 16 pixels on, a
      working browser produces it. */
  lemma SmallPreviewHasNoData(state: CanvasState, previewSize: nat, env: RenderEnv)
    requires |state.pixels| == CANVAS_SIZE && env.hasContext && env.encodes
    ensures CleanImage(state, PreviewConfig(previewSize), env).Ok? <==> previewSize >= CANVAS_SIZE
    ensures previewSize < CANVAS_SIZE ==> CleanImage(state, PreviewConfig(previewSize), env) == Err(NO_IMAGE_DATA)
  {
    if previewSize >= CANVAS_SIZE {
      assert PreviewConfig(previewSize).pixelSize >= 1;
    }
  }

  /** The preview is square, as wide as the largest multiple of 16 that fits
      in the requested size; the default size gives 8-unit blocks. */
  lemma PreviewFits(previewSize: nat)
    ensures var side := CANVAS_SIZE * PreviewConfig(previewSize).pixelSize;
      side <= previewSize < side + CANVAS_SIZE
    ensures PreviewConfig(DEFAULT_PREVIEW_SIZE).pixelSize == 8
    ensures !PreviewConfig(previewSize).includeGrid && !PreviewConfig(previewSize).backgroundTransparent
  {
  }

  /** Leaving every key out gives the default configuration (blocks of 32,
      full quality, with grid, opaque), and each key given overrides exactly
      its own setting while a key left out keeps the default. */
  lemma ResolveOverrides(o: ConfigOverrides)
    ensures Resolve(NO_OVERRIDES) == SnapshotConfig(32, 1.0, true, false)
    ensures Resolve(o).pixelSize == if o.pixelSize.Some? then o.pixelSize.value else 32
    ensures Resolve(o).quality == if o.quality.Some? then o.quality.value else 1.0
    ensures Resolve(o).includeGrid == if o.includeGrid.Some? then o.includeGrid.value else true
    ensures Resolve(o).backgroundTransparent ==
      if o.backgroundTransparent.Some? then o.backgroundTransparent.value else false
  {
  }
}
