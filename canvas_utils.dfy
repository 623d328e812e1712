/** The canvas state reducer of canvasUtils.ts: `calculateCanvasState`
    (replay a change log into a grid), `validateCanvasState` (the shape and
    bounds gate used before rendering) and `isCanvasStateDifferent` (the
    cell-by-cell diff). */
module CanvasUtils {
  import opened Basics
  import opened Seqs
  import opened StableSort
  import Text

  /** The shared 8-colour palette (PixelCanvas.tsx); index 0 is white, the
      background. */
  const COLOR_PALETTE: seq<string> :=
    ["#FFFFFF", "#000000", "#FF0000", "#00FF00", "#0000FF", "#FFFF00", "#FF00FF", "#00FFFF"]

  /** The side length `validateCanvasState` accepts, and the default size of
      `calculateCanvasState`. */
  const CANVAS_SIZE: nat := 16

  /** One recorded edit of one cell. */
  datatype PixelChange = PixelChange(artist: string, x: int, y: int, color: int, timestamp: int)

  /** A reconstructed canvas: `pixels[y][x]` is a palette index, `changes`
      the log it was replayed from (sorted), `lastUpdate` the latest time. */
  datatype CanvasState = CanvasState(pixels: seq<seq<int>>, changes: seq<PixelChange>, lastUpdate: int)

  function Timestamp(c: PixelChange): int {
    c.timestamp
  }

  /** `[...changes].sort((a, b) => a.timestamp - b.timestamp)`. */
  function ByTimestamp(changes: seq<PixelChange>): seq<PixelChange> {
    SortBy(changes, Timestamp)
  }

  predicate InBounds(c: PixelChange, size: int) {
    0 <= c.x < size && 0 <= c.y < size
  }

  predicate At(c: PixelChange, x: int, y: int) {
    c.x == x && c.y == y
  }

  function AtCell(x: int, y: int): PixelChange -> bool {
    c => At(c, x, y)
  }

  /** The colour the last change at (x, y) in `s` writes, or 0 if none does. */
  function LastColorAt(s: seq<PixelChange>, x: int, y: int): int {
    if s == [] then 0
    else if At(s[|s| - 1], x, y) then s[|s| - 1].color
    else LastColorAt(s[..|s| - 1], x, y)
  }

  /** The state `calculateCanvasState(changes, size)` returns, stated
      declaratively: every cell holds the colour of the chronologically last
      change to it (0 if none), the log is kept sorted, and `lastUpdate` is the
      timestamp of its last entry (0 for an empty log). */
  function Reconstruct(changes: seq<PixelChange>, size: nat): (r: CanvasState)
    ensures |r.pixels| == size && forall y :: 0 <= y < size ==> |r.pixels[y]| == size
  {
    var sorted := ByTimestamp(changes);
    CanvasState(
      seq(size, y => seq(size, x => LastColorAt(sorted, x, y))),
      sorted,
      if |sorted| > 0 then sorted[|sorted| - 1].timestamp else 0)
  }

  /** calculateCanvasState: copy and sort the log, then overwrite the cells of
      an all-zero grid in that order, skipping out-of-bounds coordinates. */
  method CalculateCanvasState(changes: seq<PixelChange>, canvasSize: nat) returns (state: CanvasState)
    ensures state == Reconstruct(changes, canvasSize)
  {
    var pixels: seq<seq<int>> := seq(canvasSize, _ => seq(canvasSize, _ => 0));
    var sorted := ByTimestamp(changes);
    var i := 0;
    while i < |sorted|
      invariant 0 <= i <= |sorted|
      invariant |pixels| == canvasSize
      invariant forall y :: 0 <= y < canvasSize ==> |pixels[y]| == canvasSize
      invariant forall y, x :: 0 <= y < canvasSize && 0 <= x < canvasSize ==>
                  pixels[y][x] == LastColorAt(sorted[..i], x, y)
    {
      var change := sorted[i];
      if change.x >= 0 && change.x < canvasSize && change.y >= 0 && change.y < canvasSize {
        pixels := pixels[change.y := pixels[change.y][change.x := change.color]];
      }
      assert sorted[..i + 1][..i] == sorted[..i];
      i := i + 1;
    }
    assert sorted[..|sorted|] == sorted;
    var target := Reconstruct(changes, canvasSize).pixels;
    forall y | 0 <= y < canvasSize ensures pixels[y] == target[y] {
    }
    state := CanvasState(pixels, sorted, if |sorted| > 0 then sorted[|sorted| - 1].timestamp else 0);
  }

  // ---------------------------------------------------------------------
  // Properties of the reconstruction

  /** The replayed log is the input log, reordered by time. */
  lemma ReconstructSortsLog(changes: seq<PixelChange>, size: nat)
    ensures var r := Reconstruct(changes, size);
      |r.changes| == |changes| && multiset(r.changes) == multiset(changes) && SortedBy(r.changes, Timestamp)
  {
  }

  /** Last write wins: the colour at (x, y) is that of the last change with
      those coordinates, or 0 when no change has them. */
  lemma {:induction false} LastColorAtIsLastWrite(s: seq<PixelChange>, x: int, y: int, i: int)
    ensures (forall j :: 0 <= j < |s| ==> !At(s[j], x, y)) ==> LastColorAt(s, x, y) == 0
    ensures 0 <= i < |s| && At(s[i], x, y) && (forall j :: i < j < |s| ==> !At(s[j], x, y))
            ==> LastColorAt(s, x, y) == s[i].color
  {
    if s != [] {
      var p := s[..|s| - 1];
      LastColorAtIsLastWrite(p, x, y, i);
      assert forall j :: 0 <= j < |p| ==> p[j] == s[j];
    }
  }

  lemma ReconstructLastWriteWins(changes: seq<PixelChange>, size: nat, x: nat, y: nat, i: int)
    requires x < size && y < size
    ensures var r := Reconstruct(changes, size);
      (forall j :: 0 <= j < |r.changes| ==> !At(r.changes[j], x, y)) ==> r.pixels[y][x] == 0
    ensures var r := Reconstruct(changes, size);
      0 <= i < |r.changes| && At(r.changes[i], x, y) && (forall j :: i < j < |r.changes| ==> !At(r.changes[j], x, y))
      ==> r.pixels[y][x] == r.changes[i].color
  {
    LastColorAtIsLastWrite(Reconstruct(changes, size).changes, x, y, i);
  }

  /** Changes with equal timestamps keep their input order in `changes`. */
  lemma ReconstructKeepsTieOrder(changes: seq<PixelChange>, size: nat, t: int)
    ensures WithKey(Reconstruct(changes, size).changes, Timestamp, t) == WithKey(changes, Timestamp, t)
  {
    SortByIsStable(changes, Timestamp, t);
  }

  /** `lastUpdate` is the latest timestamp of the log, or 0 for an empty log. */
  lemma ReconstructLastUpdate(changes: seq<PixelChange>, size: nat)
    ensures var r := Reconstruct(changes, size);
      (changes == [] ==> r.lastUpdate == 0) &&
      (changes != [] ==> (exists c :: c in changes && c.timestamp == r.lastUpdate) &&
                         forall c :: c in changes ==> c.timestamp <= r.lastUpdate)
  {
    var r := Reconstruct(changes, size);
    if changes != [] {
      var last := r.changes[|r.changes| - 1];
      assert last in multiset(changes);
      forall c | c in changes ensures c.timestamp <= r.lastUpdate {
        assert c in multiset(r.changes);
        var k :| 0 <= k < |r.changes| && r.changes[k] == c;
      }
    }
  }

  lemma FilterSnoc<T>(s: seq<T>, z: T, p: T -> bool)
    ensures p(z) ==> Filter(s + [z], p) == Filter(s, p) + [z]
    ensures !p(z) ==> Filter(s + [z], p) == Filter(s, p)
  {
    FilterAppend(s, [z], p);
    assert Filter([z], p) == (if p(z) then [z] else []) + Filter([z][1..], p);
    if !p(z) {
      assert Filter(s, p) + [] == Filter(s, p);
    }
  }

  /** Only the changes at (x, y) matter for the colour at (x, y). */
  lemma {:induction false} LastColorAtOfFilter(s: seq<PixelChange>, x: int, y: int)
    ensures LastColorAt(s, x, y) == LastColorAt(Filter(s, AtCell(x, y)), x, y)
  {
    if s != [] {
      var p, z := s[..|s| - 1], s[|s| - 1];
      assert s == p + [z];
      LastColorAtOfFilter(p, x, y);
      FilterSnoc(p, z, AtCell(x, y));
      var f := Filter(p, AtCell(x, y));
      if At(z, x, y) {
        assert Filter(s, AtCell(x, y)) == f + [z];
      } else {
        assert Filter(s, AtCell(x, y)) == f;
      }
    }
  }

  /** The colour at (x, y) depends only on the changes at (x, y). */
  lemma ReconstructCellDependsOnCellOnly(a: seq<PixelChange>, b: seq<PixelChange>, size: nat, x: nat, y: nat)
    requires x < size && y < size
    requires Filter(a, AtCell(x, y)) == Filter(b, AtCell(x, y))
    ensures Reconstruct(a, size).pixels[y][x] == Reconstruct(b, size).pixels[y][x]
  {
    LastColorAtOfFilter(ByTimestamp(a), x, y);
    LastColorAtOfFilter(ByTimestamp(b), x, y);
    FilterSortBy(a, Timestamp, AtCell(x, y));
    FilterSortBy(b, Timestamp, AtCell(x, y));
  }

  /** Inserting a change that is not at (x, y) leaves the changes at (x, y)
      as they were. */
  lemma FilterIgnoresOtherCell(changes: seq<PixelChange>, i: nat, c: PixelChange, x: int, y: int)
    requires i <= |changes| && !At(c, x, y)
    ensures Filter(changes[..i] + [c] + changes[i..], AtCell(x, y)) == Filter(changes, AtCell(x, y))
  {
    var f := AtCell(x, y);
    var a, b := changes[..i], changes[i..];
    calc {
      Filter(a + [c] + b, f);
      { FilterAppend(a + [c], b, f); }
      Filter(a + [c], f) + Filter(b, f);
      { assert !f(c); FilterSnoc(a, c, f); }
      Filter(a, f) + Filter(b, f);
      { FilterAppend(a, b, f); assert a + b == changes; }
      Filter(changes, f);
    }
  }

  /** An out-of-bounds change, wherever it sits in the log, leaves every cell
      as it was, yet it is still retained in `changes`. */
  lemma OutOfBoundsChangeIgnored(changes: seq<PixelChange>, i: nat, c: PixelChange, size: nat)
    requires i <= |changes| && !InBounds(c, size)
    ensures var with := changes[..i] + [c] + changes[i..];
      Reconstruct(with, size).pixels == Reconstruct(changes, size).pixels &&
      |Reconstruct(with, size).changes| == |changes| + 1 &&
      c in Reconstruct(with, size).changes
  {
    var with := changes[..i] + [c] + changes[i..];
    var p1, p2 := Reconstruct(with, size).pixels, Reconstruct(changes, size).pixels;
    forall y | 0 <= y < size ensures p1[y] == p2[y] {
      forall x | 0 <= x < size ensures p1[y][x] == p2[y][x] {
        FilterIgnoresOtherCell(changes, i, c, x, y);
        ReconstructCellDependsOnCellOnly(with, changes, size, x, y);
      }
    }
    assert c in multiset(with);
  }

  /** Idempotence: replaying the returned (already sorted) log reproduces the
      same state. */
  lemma ReconstructIdempotent(changes: seq<PixelChange>, size: nat)
    ensures Reconstruct(Reconstruct(changes, size).changes, size) == Reconstruct(changes, size)
  {
    SortBySortedIsIdentity(ByTimestamp(changes), Timestamp);
  }

  /** Determinism up to input order: logs that agree on the order of the
      changes within every timestamp (however the groups interleave) give the
      same state. */
  lemma ReconstructIgnoresInterleaving(a: seq<PixelChange>, b: seq<PixelChange>, size: nat)
    requires forall t :: WithKey(a, Timestamp, t) == WithKey(b, Timestamp, t)
    ensures Reconstruct(a, size) == Reconstruct(b, size)
  {
    SortByDependsOnGroupsOnly(a, b, Timestamp);
  }

  /** The tie-break is input order: two writes to one cell at the same time
      resolve to whichever comes later in the input. */
  lemma TieBrokenByInputOrder()
    ensures var first := PixelChange("A", 0, 0, 1, 5);
            var second := PixelChange("B", 0, 0, 2, 5);
            Reconstruct([first, second], 1).pixels == [[2]] &&
            Reconstruct([second, first], 1).pixels == [[1]]
  {
    var first := PixelChange("A", 0, 0, 1, 5);
    var second := PixelChange("B", 0, 0, 2, 5);
    assert [first, second][1..] == [second];
    assert ByTimestamp([second]) == [second];
    assert ByTimestamp([first, second]) == [first, second];
    assert [second, first][1..] == [first];
    assert ByTimestamp([first]) == [first];
    assert ByTimestamp([second, first]) == [second, first];
    assert [first, second][..1] == [first];
    assert [second, first][..1] == [second];
    assert LastColorAt([first, second], 0, 0) == 2;
    assert LastColorAt([second, first], 0, 0) == 1;
    assert Reconstruct([first, second], 1).pixels[0] == [2];
    assert Reconstruct([second, first], 1).pixels[0] == [1];
  }

  // ---------------------------------------------------------------------
  // validateCanvasState

  /** The errors `validateCanvasState` can push, in its own terms; `ErrorText`
      gives the message text. */
  datatype ValidationError =
    | EmptyCanvas
    | WrongSize(rows: nat, firstRowLength: nat)
    | BadRowLength(row: nat)
    | PixelColorOutOfRange(x: nat, y: nat, color: int)
    | ChangeOutOfBounds(cx: int, cy: int)
    | ChangeColorOutOfRange(changeColor: int)

  function ErrorText(e: ValidationError): string {
    match e
    case EmptyCanvas => "画布数据为空"
    case WrongSize(rows, cols) => "画布尺寸不正确，期望16x16，实际" + Text.IntToString(rows) + "x" + Text.IntToString(cols)
    case BadRowLength(i) => "第" + Text.IntToString(i) + "行长度不正确"
    case PixelColorOutOfRange(x, y, c) =>
      "像素(" + Text.IntToString(x) + "," + Text.IntToString(y) + ")的颜色值" + Text.IntToString(c) + "超出范围"
    case ChangeOutOfBounds(x, y) => "更改记录坐标(" + Text.IntToString(x) + "," + Text.IntToString(y) + ")超出范围"
    case ChangeColorOutOfRange(c) => "更改记录颜色值" + Text.IntToString(c) + "超出范围"
  }

  function ErrorTexts(es: seq<ValidationError>): seq<string> {
    seq(|es|, i requires 0 <= i < |es| => ErrorText(es[i]))
  }

  predicate ValidColor(c: int) {
    0 <= c < |COLOR_PALETTE|
  }

  /** The row-length scan from row i on: the first row whose length differs
      from the number of rows, if any. */
  function RowLengthErrors(p: seq<seq<int>>, i: nat): seq<ValidationError>
    requires i <= |p|
    decreases |p| - i
  {
    if i == |p| then []
    else if |p[i]| != |p| then [BadRowLength(i)]
    else RowLengthErrors(p, i + 1)
  }

  function ShapeErrors(p: seq<seq<int>>): seq<ValidationError> {
    if |p| == 0 then [EmptyCanvas]
    else (if |p| != CANVAS_SIZE then [WrongSize(|p|, |p[0]|)] else []) + RowLengthErrors(p, 0)
  }

  /** The colour errors of row y, columns 0 .. xEnd-1. */
  function RowColorErrors(p: seq<seq<int>>, y: nat, xEnd: nat): seq<ValidationError>
    requires y < |p| && xEnd <= |p[y]|
  {
    if xEnd == 0 then []
    else RowColorErrors(p, y, xEnd - 1) +
         (if ValidColor(p[y][xEnd - 1]) then [] else [PixelColorOutOfRange(xEnd - 1, y, p[y][xEnd - 1])])
  }

  /** The colour errors of rows 0 .. yEnd-1, row by row. */
  function ColorErrors(p: seq<seq<int>>, yEnd: nat): seq<ValidationError>
    requires yEnd <= |p|
  {
    if yEnd == 0 then [] else ColorErrors(p, yEnd - 1) + RowColorErrors(p, yEnd - 1, |p[yEnd - 1]|)
  }

  function ChangeErrorsOf(c: PixelChange): seq<ValidationError> {
    (if InBounds(c, CANVAS_SIZE) then [] else [ChangeOutOfBounds(c.x, c.y)]) +
    (if ValidColor(c.color) then [] else [ChangeColorOutOfRange(c.color)])
  }

  function ChangeErrors(cs: seq<PixelChange>): seq<ValidationError> {
    if cs == [] then [] else ChangeErrors(cs[..|cs| - 1]) + ChangeErrorsOf(cs[|cs| - 1])
  }

  /** The error list `validateCanvasState` builds, in push order. */
  function ValidationErrors(s: CanvasState): seq<ValidationError> {
    ShapeErrors(s.pixels) + ColorErrors(s.pixels, |s.pixels|) + ChangeErrors(s.changes)
  }

  /** The property the gate checks, stated directly. */
  predicate WellFormed(s: CanvasState) {
    && |s.pixels| == CANVAS_SIZE
    && (forall y :: 0 <= y < |s.pixels| ==> |s.pixels[y]| == CANVAS_SIZE)
    && (forall y, x :: 0 <= y < |s.pixels| && 0 <= x < |s.pixels[y]| ==> ValidColor(s.pixels[y][x]))
    && (forall i :: 0 <= i < |s.changes| ==> InBounds(s.changes[i], CANVAS_SIZE) && ValidColor(s.changes[i].color))
  }

  /** validateCanvasState: the shape checks, the cell colours row by row,
      then the change log; valid is whether nothing was pushed. */
  method ValidateCanvasState(s: CanvasState) returns (valid: bool, errors: seq<ValidationError>)
    ensures errors == ValidationErrors(s)
    ensures valid <==> errors == []
    ensures valid <==> WellFormed(s)
  {
    errors := CheckShape(s.pixels);
    errors := CheckColors(s.pixels, errors);
    errors := CheckChanges(s.changes, errors);
    valid := |errors| == 0;
    ValidationErrorsEmptyIff(s);
  }

  /** The size checks; the first row of the wrong length stops the row scan
      (`break`). */
  method CheckShape(p: seq<seq<int>>) returns (errors: seq<ValidationError>)
    ensures errors == ShapeErrors(p)
  {
    errors := [];
    if |p| == 0 {
      errors := errors + [EmptyCanvas];
      return;
    }
    var size := |p|;
    if size != 16 {
      errors := errors + [WrongSize(size, |p[0]|)];
    }
    var i := 0;
    while i < |p|
      invariant 0 <= i <= |p|
      invariant errors == (if |p| != CANVAS_SIZE then [WrongSize(|p|, |p[0]|)] else [])
      invariant RowLengthErrors(p, 0) == RowLengthErrors(p, i)
    {
      if |p[i]| != size {
        errors := errors + [BadRowLength(i)];
        return;
      }
      i := i + 1;
    }
  }

  /** Every cell, row by row, whose colour is not a palette index. */
  method CheckColors(p: seq<seq<int>>, before: seq<ValidationError>) returns (errors: seq<ValidationError>)
    ensures errors == before + ColorErrors(p, |p|)
  {
    errors := before;
    var y := 0;
    while y < |p|
      invariant 0 <= y <= |p|
      invariant errors == before + ColorErrors(p, y)
    {
      var x := 0;
      while x < |p[y]|
        invariant 0 <= x <= |p[y]|
        invariant errors == before + ColorErrors(p, y) + RowColorErrors(p, y, x)
      {
        var color := p[y][x];
        if color < 0 || color >= |COLOR_PALETTE| {
          errors := errors + [PixelColorOutOfRange(x, y, color)];
        }
        x := x + 1;
      }
      y := y + 1;
    }
  }

  /** Every change off the 16×16 canvas, and every change colour that is not
      a palette index. */
  method CheckChanges(cs: seq<PixelChange>, before: seq<ValidationError>) returns (errors: seq<ValidationError>)
    ensures errors == before + ChangeErrors(cs)
  {
    errors := before;
    var k := 0;
    while k < |cs|
      invariant 0 <= k <= |cs|
      invariant errors == before + ChangeErrors(cs[..k])
    {
      var change := cs[k];
      assert cs[..k + 1][..k] == cs[..k];
      if change.x < 0 || change.x >= 16 || change.y < 0 || change.y >= 16 {
        errors := errors + [ChangeOutOfBounds(change.x, change.y)];
      }
      if change.color < 0 || change.color >= |COLOR_PALETTE| {
        errors := errors + [ChangeColorOutOfRange(change.color)];
      }
      k := k + 1;
    }
    assert cs[..|cs|] == cs;
  }

  lemma {:induction false} RowLengthErrorsEmptyIff(p: seq<seq<int>>, i: nat)
    requires i <= |p|
    ensures RowLengthErrors(p, i) == [] <==> forall y :: i <= y < |p| ==> |p[y]| == |p|
    decreases |p| - i
  {
    if i < |p| {
      RowLengthErrorsEmptyIff(p, i + 1);
    }
  }

  /** When the row scan reports, it names the first row of the wrong length. */
  lemma {:induction false} RowLengthErrorsFirstBad(p: seq<seq<int>>, i: nat)
    requires i <= |p|
    ensures RowLengthErrors(p, i) != [] ==>
      exists r :: i <= r < |p| && RowLengthErrors(p, i) == [BadRowLength(r)] && |p[r]| != |p| &&
                  forall y :: i <= y < r ==> |p[y]| == |p|
    decreases |p| - i
  {
    if i < |p| && |p[i]| == |p| {
      RowLengthErrorsFirstBad(p, i + 1);
    }
  }

  lemma {:induction false} RowColorErrorsEmptyIff(p: seq<seq<int>>, y: nat, xEnd: nat)
    requires y < |p| && xEnd <= |p[y]|
    ensures RowColorErrors(p, y, xEnd) == [] <==> forall x :: 0 <= x < xEnd ==> ValidColor(p[y][x])
  {
    if xEnd > 0 {
      RowColorErrorsEmptyIff(p, y, xEnd - 1);
    }
  }

  lemma {:induction false} ColorErrorsEmptyIff(p: seq<seq<int>>, yEnd: nat)
    requires yEnd <= |p|
    ensures ColorErrors(p, yEnd) == [] <==>
      forall y, x :: 0 <= y < yEnd && 0 <= x < |p[y]| ==> ValidColor(p[y][x])
  {
    if yEnd > 0 {
      ColorErrorsEmptyIff(p, yEnd - 1);
      RowColorErrorsEmptyIff(p, yEnd - 1, |p[yEnd - 1]|);
    }
  }

  lemma {:induction false} ChangeErrorsEmptyIff(cs: seq<PixelChange>)
    ensures ChangeErrors(cs) == [] <==>
      forall i :: 0 <= i < |cs| ==> InBounds(cs[i], CANVAS_SIZE) && ValidColor(cs[i].color)
  {
    if cs != [] {
      var p := cs[..|cs| - 1];
      ChangeErrorsEmptyIff(p);
      assert forall i :: 0 <= i < |p| ==> p[i] == cs[i];
    }
  }

  /** valid == true exactly when no error was pushed, which is exactly when
      the state is 16×16, all its colours are palette indices and every
      retained change is in bounds with a palette colour. */
  lemma ValidationErrorsEmptyIff(s: CanvasState)
    ensures ValidationErrors(s) == [] <==> WellFormed(s)
  {
    RowLengthErrorsEmptyIff(s.pixels, 0);
    ColorErrorsEmptyIff(s.pixels, |s.pixels|);
    ChangeErrorsEmptyIff(s.changes);
  }

  lemma {:induction false} LastColorAtInRange(s: seq<PixelChange>, x: int, y: int)
    requires forall i :: 0 <= i < |s| ==> ValidColor(s[i].color)
    ensures ValidColor(LastColorAt(s, x, y))
  {
    if s != [] {
      var p := s[..|s| - 1];
      assert forall i :: 0 <= i < |p| ==> p[i] == s[i];
      LastColorAtInRange(p, x, y);
    }
  }

  /** A 16×16 reconstruction of changes that all lie on the canvas and use
      palette colours passes validation. */
  lemma ReconstructIsValid(changes: seq<PixelChange>)
    requires forall i :: 0 <= i < |changes| ==> InBounds(changes[i], CANVAS_SIZE) && ValidColor(changes[i].color)
    ensures ValidationErrors(Reconstruct(changes, CANVAS_SIZE)) == []
  {
    var r := Reconstruct(changes, CANVAS_SIZE);
    forall i | 0 <= i < |r.changes| ensures InBounds(r.changes[i], CANVAS_SIZE) && ValidColor(r.changes[i].color) {
      assert r.changes[i] in multiset(changes);
      var k :| 0 <= k < |changes| && changes[k] == r.changes[i];
    }
    forall y, x | 0 <= y < CANVAS_SIZE && 0 <= x < CANVAS_SIZE ensures ValidColor(r.pixels[y][x]) {
      LastColorAtInRange(r.changes, x, y);
    }
    ValidationErrorsEmptyIff(r);
  }

  /** Conversely, one change off the canvas makes the reconstruction invalid,
      even though the grid ignored it. */
  lemma OutOfBoundsChangeFailsValidation(changes: seq<PixelChange>, i: nat)
    requires i < |changes| && !InBounds(changes[i], CANVAS_SIZE)
    ensures ValidationErrors(Reconstruct(changes, CANVAS_SIZE)) != []
  {
    var r := Reconstruct(changes, CANVAS_SIZE);
    assert changes[i] in multiset(r.changes);
    var k :| 0 <= k < |r.changes| && r.changes[k] == changes[i];
    ValidationErrorsEmptyIff(r);
  }

  // ---------------------------------------------------------------------
  // isCanvasStateDifferent

  /** What a JavaScript engine (V8) reports when `state2.pixels[y][x]` is
      read past the last row of `state2`. */
  const READ_PAST_LAST_ROW: string := "Cannot read properties of undefined (reading '0')"

  /** Some column x of r1 either lies past the end of r2 (the comparison with
      `undefined` is true) or holds a different value. */
  predicate RowDiffers(r1: seq<int>, r2: seq<int>) {
    exists x :: 0 <= x < |r1| && (x >= |r2| || r1[x] != r2[x])
  }

  /** The row scan from row y on, over the rows and columns of the first grid. */
  function DiffRows(p1: seq<seq<int>>, p2: seq<seq<int>>, y: nat): Result<bool>
    requires y <= |p1|
    decreases |p1| - y
  {
    if y == |p1| then Ok(false)
    else if |p1[y]| == 0 then DiffRows(p1, p2, y + 1)
    else if y >= |p2| then Err(READ_PAST_LAST_ROW)
    else if RowDiffers(p1[y], p2[y]) then Ok(true)
    else DiffRows(p1, p2, y + 1)
  }

  /** What `isCanvasStateDifferent(s1, s2)` returns (or throws). */
  function Differs(s1: CanvasState, s2: CanvasState): Result<bool> {
    if |s1.changes| != |s2.changes| then Ok(true) else DiffRows(s1.pixels, s2.pixels, 0)
  }

  predicate SameShape(p1: seq<seq<int>>, p2: seq<seq<int>>) {
    |p1| == |p2| && forall y :: 0 <= y < |p1| ==> |p1[y]| == |p2[y]|
  }

  /** isCanvasStateDifferent: the change counts first, then cell by cell over
      the first state's rows, returning at the first difference. */
  method IsCanvasStateDifferent(s1: CanvasState, s2: CanvasState) returns (r: Result<bool>)
    ensures r == Differs(s1, s2)
    ensures |s1.changes| != |s2.changes| ==> r == Ok(true)
    ensures |s1.changes| == |s2.changes| && SameShape(s1.pixels, s2.pixels) ==>
      r == Ok(exists y, x :: 0 <= y < |s1.pixels| && 0 <= x < |s1.pixels[y]| && s1.pixels[y][x] != s2.pixels[y][x])
  {
    DiffersOnSameShape(s1, s2);
    if |s1.changes| != |s2.changes| {
      return Ok(true);
    }
    var p1, p2 := s1.pixels, s2.pixels;
    var y := 0;
    while y < |p1|
      invariant 0 <= y <= |p1|
      invariant DiffRows(p1, p2, 0) == DiffRows(p1, p2, y)
    {
      var x := 0;
      while x < |p1[y]|
        invariant 0 <= x <= |p1[y]|
        invariant x > 0 ==> y < |p2|
        invariant forall x' :: 0 <= x' < x ==> x' < |p2[y]| && p1[y][x'] == p2[y][x']
      {
        if y >= |p2| {
          return Err(READ_PAST_LAST_ROW);
        }
        if x >= |p2[y]| || p1[y][x] != p2[y][x] {
          RowDiffersAt(p1, p2, y, x);
          return Ok(true);
        }
        x := x + 1;
      }
      assert x == |p1[y]|;
      assert forall x' :: 0 <= x' < |p1[y]| ==> x' < |p2[y]| && p1[y][x'] == p2[y][x'];
      RowAgrees(p1, p2, y);
      y := y + 1;
    }
    return Ok(false);
  }

  /** A differing column at (y, x) ends the scan with `true`. */
  lemma RowDiffersAt(p1: seq<seq<int>>, p2: seq<seq<int>>, y: nat, x: nat)
    requires y < |p1| && y < |p2| && x < |p1[y]|
    requires x >= |p2[y]| || p1[y][x] != p2[y][x]
    ensures DiffRows(p1, p2, y) == Ok(true)
  {
    assert RowDiffers(p1[y], p2[y]);
  }

  /** A row that agrees column by column passes the scan on to the next row. */
  lemma RowAgrees(p1: seq<seq<int>>, p2: seq<seq<int>>, y: nat)
    requires y < |p1| && (|p1[y]| > 0 ==> y < |p2|)
    requires forall x' :: 0 <= x' < |p1[y]| ==> x' < |p2[y]| && p1[y][x'] == p2[y][x']
    ensures DiffRows(p1, p2, y) == DiffRows(p1, p2, y + 1)
  {
    if |p1[y]| > 0 {
      assert !RowDiffers(p1[y], p2[y]);
    }
  }

  lemma {:induction false} DiffRowsSameShape(p1: seq<seq<int>>, p2: seq<seq<int>>, y: nat)
    requires y <= |p1| && SameShape(p1, p2)
    ensures DiffRows(p1, p2, y) ==
      Ok(exists y', x :: y <= y' < |p1| && 0 <= x < |p1[y']| && p1[y'][x] != p2[y'][x])
    decreases |p1| - y
  {
    if y < |p1| {
      DiffRowsSameShape(p1, p2, y + 1);
    }
  }

  /** For grids of the same shape and logs of the same length, the diff is
      true exactly when some cell differs. */
  lemma DiffersOnSameShape(s1: CanvasState, s2: CanvasState)
    ensures |s1.changes| == |s2.changes| && SameShape(s1.pixels, s2.pixels) ==>
      Differs(s1, s2) == Ok(exists y, x :: 0 <= y < |s1.pixels| && 0 <= x < |s1.pixels[y]| && s1.pixels[y][x] != s2.pixels[y][x])
  {
    if SameShape(s1.pixels, s2.pixels) {
      DiffRowsSameShape(s1.pixels, s2.pixels, 0);
    }
  }

  /** A state never differs from itself. */
  lemma DiffersIrreflexive(s: CanvasState)
    ensures Differs(s, s) == Ok(false)
  {
    DiffersOnSameShape(s, s);
  }

  /** The scan runs over the first state's grid only: extra rows in the second
      state go unnoticed, while the swapped call reports a difference. */
  lemma DiffersIsAsymmetric()
    ensures var small := CanvasState([[1]], [], 0);
            var large := CanvasState([[1], [2]], [], 0);
            Differs(small, large) == Ok(false) && Differs(large, small) == Err(READ_PAST_LAST_ROW)
  {
  }
}
