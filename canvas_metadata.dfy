/** `generateSnapshotMetadata` of canvasUtils.ts: the NFT metadata record
    derived from a canvas state. */
module CanvasMetadata {
  import opened Basics
  import opened Seqs
  import opened StableSort
  import opened Tally
  import opened CanvasUtils
  import Text

  /** What a JavaScript engine (V8) reports for `pixels[0].length` when
      `pixels` is empty. */
  const NO_FIRST_ROW: string := "Cannot read properties of undefined (reading 'length')"

  /** How many colours the "Dominant Colors" attribute names. */
  const DOMINANT_COUNT: nat := 3

  /** Integer property keys that are array indices (0 ≤ k < 2^32 − 1);
      `Object.entries` lists these first, in ascending order. */
  predicate IsArrayIndex(k: int) {
    0 <= k < 0xFFFF_FFFF
  }

  predicate NotArrayIndex(k: int) {
    !IsArrayIndex(k)
  }

  function Identity(k: int): int {
    k
  }

  /** The order of `Object.entries` for an object whose integer keys were
      first inserted in the order `d`: array indices ascending, then the
      other keys in insertion order. */
  function IntKeyOrder(d: seq<int>): seq<int> {
    SortBy(Filter(d, IsArrayIndex), Identity) + Filter(d, NotArrayIndex)
  }

  /** `Object.entries(colorUsage)` for the colours of a grid. */
  function ColorUsage(pixels: seq<seq<int>>): seq<Entry<int>> {
    var flat := Flatten(pixels);
    EntriesIn(flat, IntKeyOrder(Distinct(flat)))
  }

  /** The three most used colours, most used first. */
  function DominantEntries(pixels: seq<seq<int>>): seq<Entry<int>> {
    Top(ColorUsage(pixels), DOMINANT_COUNT)
  }

  /** `COLOR_PALETTE[parseInt(key)]`, where an index outside the palette gives
      `undefined`, which `join` prints as the empty string. */
  function PaletteName(k: int): string {
    if 0 <= k < |COLOR_PALETTE| then COLOR_PALETTE[k] else ""
  }

  /** `.map(([color]) => COLOR_PALETTE[parseInt(color)])`. */
  function PaletteNames(top: seq<Entry<int>>): seq<string> {
    seq(|top|, i requires 0 <= i < |top| => PaletteName(top[i].key))
  }

  function DominantColors(pixels: seq<seq<int>>): seq<string> {
    PaletteNames(DominantEntries(pixels))
  }

  function Artists(changes: seq<PixelChange>): seq<string> {
    seq(|changes|, i requires 0 <= i < |changes| => changes[i].artist)
  }

  /** `Array.from(new Set(changes.map(c => c.artist)))`. */
  function Participants(changes: seq<PixelChange>): seq<string> {
    Distinct(Artists(changes))
  }

  /** The coordinates of every change; the `${x},${y}` keys of the source
      are in one-to-one correspondence with these pairs. */
  function Cells(changes: seq<PixelChange>): seq<(int, int)> {
    seq(|changes|, i requires 0 <= i < |changes| => (changes[i].x, changes[i].y))
  }

  /** The number of distinct coordinates that were ever changed. */
  function ChangedPixels(changes: seq<PixelChange>): nat {
    |Distinct(Cells(changes))|
  }

  datatype AttributeValue =
    | Num(n: int)
    | Str(s: string)
      /** `${(changed / total * 100).toFixed(1)}%`, kept as its two operands. */
    | Percent(changed: nat, total: nat)

  datatype Attribute = Attribute(traitType: string, value: AttributeValue)

  datatype SnapshotMetadata = SnapshotMetadata(
    id: int,
    timestamp: int,
    totalChanges: nat,
    participantCount: nat,
    participants: seq<string>,
    canvasSize: nat,
    colorPalette: seq<string>,
    description: string,
    attributes: seq<Attribute>)

  function Description(id: int, participants: nat, changes: nat): string {
    "PixelCanvas协作艺术快照 #" + Text.IntToString(id) + "，由" + Text.NatToString(participants) +
    "位艺术家共同创作，包含" + Text.NatToString(changes) + "次像素更改。"
  }

  /** The "Pixel Coverage" attribute: changed cells out of rows × length of
      the first row. */
  function MetadataCoverage(state: CanvasState): AttributeValue
    requires state.pixels != []
  {
    Percent(ChangedPixels(state.changes), |state.pixels| * |state.pixels[0]|)
  }

  /** The record for a non-empty grid, given the names of its dominant
      colours. */
  function Assemble(id: int, state: CanvasState, now: int, today: string, dominant: seq<string>): SnapshotMetadata
    requires state.pixels != []
  {
    var p := state.pixels;
    var participants := Participants(state.changes);
    SnapshotMetadata(
      id, now, |state.changes|, |participants|, participants, |p|, COLOR_PALETTE,
      Description(id, |participants|, |state.changes|),
      [ Attribute("Snapshot ID", Num(id)),
        Attribute("Total Changes", Num(|state.changes|)),
        Attribute("Participants", Num(|participants|)),
        Attribute("Pixel Coverage", MetadataCoverage(state)),
        Attribute("Dominant Colors", Str(Text.Join(dominant, ", "))),
        Attribute("Canvas Size", Str(Text.NatToString(|p|) + "x" + Text.NatToString(|p[0]|))),
        Attribute("Creation Date", Str(today)) ])
  }

  /** What `generateSnapshotMetadata(id, state, hash)` returns when called at
      time `now` on the calendar day `today` (an ISO `YYYY-MM-DD` date), or
      the TypeError it throws for an empty grid. The image hash is unused. */
  function Metadata(id: int, state: CanvasState, now: int, today: string): Result<SnapshotMetadata> {
    if state.pixels == [] then Err(NO_FIRST_ROW)
    else Ok(Assemble(id, state, now, today, DominantColors(state.pixels)))
  }

  /** The colour histogram of generateSnapshotMetadata: the counting loop over
      the flattened grid, then `Object.entries`, which lists it in key order. */
  method CountColorUsage(grid: seq<seq<int>>) returns (entries: seq<Entry<int>>)
    ensures entries == ColorUsage(grid)
  {
    var pixels := Flatten(grid);
    var colorUsage, insertion := CountOccurrences(pixels);
    var keys := IntKeyOrder(insertion);
    assert forall i :: 0 <= i < |keys| ==> keys[i] in pixels by {
      DistinctElements(pixels);
      IntKeyOrderMembers(insertion);
    }
    EntriesOfCountMap(pixels, keys);
    entries := EntriesOf(colorUsage, keys);
  }

  /** generateSnapshotMetadata: the histogram, its three most used colours,
      then the record. */
  method GenerateSnapshotMetadata(id: int, state: CanvasState, ipfsImageHash: string, now: int, today: string)
    returns (r: Result<SnapshotMetadata>)
    ensures r == Metadata(id, state, now, today)
    ensures r.Err? <==> state.pixels == []
    ensures r.Ok? ==> |r.value.attributes| == 7 && r.value.participants == Participants(state.changes)
  {
    var entries := CountColorUsage(state.pixels);
    var dominant := PaletteNames(Top(entries, 3));
    if |state.pixels| == 0 {
      return Err(NO_FIRST_ROW);
    }
    r := Ok(Assemble(id, state, now, today, dominant));
  }

  // ---------------------------------------------------------------------
  // Properties

  lemma SortedIndexKeys(d: seq<int>)
    ensures var sa := SortBy(Filter(d, IsArrayIndex), Identity);
      (forall i :: 0 <= i < |sa| ==> sa[i] in d && IsArrayIndex(sa[i])) &&
      (forall i :: 0 <= i < |d| && IsArrayIndex(d[i]) ==> d[i] in sa)
  {
    var a := Filter(d, IsArrayIndex);
    var sa := SortBy(a, Identity);
    FilterMembers(d, IsArrayIndex);
    forall i | 0 <= i < |sa| ensures sa[i] in d && IsArrayIndex(sa[i]) {
      assert sa[i] in multiset(a);
      assert sa[i] in a;
    }
    forall i | 0 <= i < |d| && IsArrayIndex(d[i]) ensures d[i] in sa {
      assert d[i] in a;
      assert d[i] in multiset(sa);
    }
  }

  /** The key order lists each inserted key exactly once. */
  lemma IntKeyOrderMembers(d: seq<int>)
    ensures forall i :: 0 <= i < |IntKeyOrder(d)| ==> IntKeyOrder(d)[i] in d
    ensures forall i :: 0 <= i < |d| ==> d[i] in IntKeyOrder(d)
    ensures NoDuplicates(d) ==> NoDuplicates(IntKeyOrder(d))
  {
    var a, b := Filter(d, IsArrayIndex), Filter(d, NotArrayIndex);
    var sa := SortBy(a, Identity);
    assert IntKeyOrder(d) == sa + b;
    SortedIndexKeys(d);
    FilterMembers(d, NotArrayIndex);
    forall i | 0 <= i < |d| ensures d[i] in sa + b {
      if IsArrayIndex(d[i]) {
        assert d[i] in sa;
      } else {
        assert NotArrayIndex(d[i]);
        assert d[i] in b;
      }
    }
    if NoDuplicates(d) {
      FilterNoDuplicates(d, IsArrayIndex);
      FilterNoDuplicates(d, NotArrayIndex);
      SortByNoDuplicates(a, Identity);
      NoDuplicatesAppend(sa, b);
    }
  }

  lemma NoDuplicatesAppend(sa: seq<int>, b: seq<int>)
    requires NoDuplicates(sa) && NoDuplicates(b)
    requires forall i :: 0 <= i < |sa| ==> IsArrayIndex(sa[i])
    requires forall i :: 0 <= i < |b| ==> NotArrayIndex(b[i])
    ensures NoDuplicates(sa + b)
  {
    forall i, j | 0 <= i < j < |sa + b| ensures (sa + b)[i] != (sa + b)[j] {
      if i < |sa| && j >= |sa| {
        assert IsArrayIndex((sa + b)[i]);
        assert NotArrayIndex((sa + b)[j]);
      }
    }
  }

  /** The colour histogram accounts for every cell once; for an n×m grid its
      counts add up to n·m. */
  lemma ColorUsageCountsEveryCell(pixels: seq<seq<int>>, cols: nat)
    ensures Total(ColorUsage(pixels)) == |Flatten(pixels)|
    ensures (forall y :: 0 <= y < |pixels| ==> |pixels[y]| == cols) ==> Total(ColorUsage(pixels)) == |pixels| * cols
    ensures forall i :: 0 <= i < |ColorUsage(pixels)| ==> ColorUsage(pixels)[i].count > 0
  {
    var flat := Flatten(pixels);
    var d := Distinct(flat);
    DistinctElements(flat);
    IntKeyOrderMembers(d);
    TallyAccountsForAll(flat, IntKeyOrder(d));
    if forall y :: 0 <= y < |pixels| ==> |pixels[y]| == cols {
      FlattenRectangular(pixels, cols);
    }
    var u := ColorUsage(pixels);
    forall i | 0 <= i < |u| ensures u[i].count > 0 {
      CountIsMultiplicity(flat, u[i].key);
    }
  }

  /** When every colour is a non-negative integer below 2^32 − 1 (in
      particular for palette indices), the histogram is listed by ascending
      colour value. */
  lemma ColorUsageAscending(pixels: seq<seq<int>>)
    requires forall i :: 0 <= i < |Flatten(pixels)| ==> IsArrayIndex(Flatten(pixels)[i])
    ensures StrictlyAscending(ColorUsage(pixels), (e: Entry<int>) => e.key)
  {
    var flat := Flatten(pixels);
    var d := Distinct(flat);
    DistinctElements(flat);
    forall k | 0 <= k < |d| ensures !NotArrayIndex(d[k]) {
      assert d[k] in flat;
      var i :| 0 <= i < |flat| && flat[i] == d[k];
    }
    FilterNone(d, NotArrayIndex);
    IntKeyOrderMembers(d);
    var keys := IntKeyOrder(d);
    assert keys == SortBy(Filter(d, IsArrayIndex), Identity);
    forall i, j | 0 <= i < j < |keys| ensures keys[i] < keys[j] {
      assert Identity(keys[i]) <= Identity(keys[j]);
    }
  }

  /** "Dominant Colors" names at most three colours, most used first; no
      colour left out is used more often than one named; and equally used
      palette colours are named in palette order. */
  lemma DominantColorsAreMostUsed(pixels: seq<seq<int>>)
    ensures |DominantEntries(pixels)| == if |ColorUsage(pixels)| < 3 then |ColorUsage(pixels)| else 3
    ensures var top := DominantEntries(pixels);
      forall i, j :: 0 <= i < j < |top| ==> top[i].count >= top[j].count
    ensures var top := DominantEntries(pixels); var all := ColorUsage(pixels);
      forall j, i :: 0 <= j < |all| && all[j] !in top && 0 <= i < |top| ==> all[j].count <= top[i].count
    ensures (forall i :: 0 <= i < |Flatten(pixels)| ==> IsArrayIndex(Flatten(pixels)[i])) ==>
      LexSortedBy(DominantEntries(pixels), ByCountDescending, (e: Entry<int>) => e.key)
  {
    TopIsRanking(ColorUsage(pixels), DOMINANT_COUNT);
    if forall i :: 0 <= i < |Flatten(pixels)| ==> IsArrayIndex(Flatten(pixels)[i]) {
      ColorUsageAscending(pixels);
      TopBreaksTiesByEntryOrder(ColorUsage(pixels), DOMINANT_COUNT, (e: Entry<int>) => e.key);
    }
  }

  /** Participants: every artist once, nobody else, listed by first
      contribution. */
  lemma ParticipantsAreArtists(changes: seq<PixelChange>, i: nat, j: nat)
    ensures NoDuplicates(Participants(changes))
    ensures forall k :: 0 <= k < |changes| ==> changes[k].artist in Participants(changes)
    ensures forall k :: 0 <= k < |Participants(changes)| ==> Participants(changes)[k] in Artists(changes)
    ensures i < j < |Participants(changes)| ==>
      FirstIndex(Artists(changes), Participants(changes)[i]) < FirstIndex(Artists(changes), Participants(changes)[j])
  {
    var a := Artists(changes);
    DistinctElements(a);
    forall k | 0 <= k < |changes| ensures changes[k].artist in Participants(changes) {
      assert a[k] == changes[k].artist;
    }
    if i < j < |Participants(changes)| {
      DistinctFirstSeenOrder(a, i, j);
    }
  }

  /** The cells (x, y) with 0 ≤ x < n, in row y. */
  function RowCells(n: nat, y: int): set<(int, int)> {
    if n == 0 then {} else RowCells(n - 1, y) + {(n - 1, y)}
  }

  /** The cells (x, y) with 0 ≤ x < n and 0 ≤ y < m. */
  function Rect(n: nat, m: nat): set<(int, int)> {
    if m == 0 then {} else Rect(n, m - 1) + RowCells(n, m - 1)
  }

  lemma {:induction false} RowCellsCard(n: nat, y: int)
    ensures forall c :: c in RowCells(n, y) <==> 0 <= c.0 < n && c.1 == y
    ensures |RowCells(n, y)| == n
  {
    if n > 0 {
      RowCellsCard(n - 1, y);
    }
  }

  lemma {:induction false} RectMembers(n: nat, m: nat)
    ensures forall c :: c in Rect(n, m) <==> 0 <= c.0 < n && 0 <= c.1 < m
  {
    if m > 0 {
      RectMembers(n, m - 1);
      RowCellsCard(n, m - 1);
    }
  }

  lemma MulStep(n: nat, m: nat)
    requires m > 0
    ensures n * m == n * (m - 1) + n
  {
  }

  lemma RectStep(n: nat, m: nat)
    requires m > 0
    ensures |Rect(n, m)| == |Rect(n, m - 1)| + n
  {
    var prev, row := Rect(n, m - 1), RowCells(n, m - 1);
    RectMembers(n, m - 1);
    RowCellsCard(n, m - 1);
    assert prev !! row;
    assert Rect(n, m) == prev + row;
  }

  lemma {:induction false} RectCard(n: nat, m: nat)
    ensures |Rect(n, m)| == n * m
  {
    if m > 0 {
      RectCard(n, m - 1);
      RectStep(n, m);
      MulStep(n, m);
    }
  }

  /** When every change lies on an n×n canvas, at most n·n distinct cells
      were changed, so the coverage is at most 100%. */
  lemma CoverageAtMostFull(changes: seq<PixelChange>, n: nat)
    requires forall i :: 0 <= i < |changes| ==> InBounds(changes[i], n)
    ensures ChangedPixels(changes) <= n * n
  {
    var d := Distinct(Cells(changes));
    DistinctElements(Cells(changes));
    ElementsOfNoDuplicates(d);
    RectCard(n, n);
    RectMembers(n, n);
    forall c | c in Elements(d) ensures c in Rect(n, n) {
      var k :| 0 <= k < |d| && d[k] == c;
      assert c in Cells(changes);
      var i :| 0 <= i < |changes| && Cells(changes)[i] == c;
    }
    RectCard(n, n);
    assert Elements(d) <= Rect(n, n);
    assert Rect(n, n) == Elements(d) + (Rect(n, n) - Elements(d));
  }

  /** Changes off the canvas still count as changed cells, so the coverage
      can exceed 100%: on a 1×1 canvas, two cells changed out of one. */
  lemma CoverageCanExceedFull(artist: string, color: int)
    ensures var changes := [PixelChange(artist, 0, 0, color, 1), PixelChange(artist, 5, 5, color, 2)];
      ChangedPixels(changes) == 2 &&
      MetadataCoverage(CanvasState([[color]], changes, 2)) == Percent(2, 1)
  {
    var cs := [PixelChange(artist, 0, 0, color, 1), PixelChange(artist, 5, 5, color, 2)];
    var cells := Cells(cs);
    assert cells == [(0, 0), (5, 5)];
    assert cells[..1] == [(0, 0)];
    assert Distinct(cells[..1]) == [(0, 0)];
    assert Distinct(cells) == [(0, 0), (5, 5)];
  }

  /** The log of a small session: three changes by two artists, on a 2×2
      canvas; the first artist paints twice. */
  function SessionLog(a: string, b: string): seq<PixelChange> {
    [PixelChange(a, 0, 0, 1, 1), PixelChange(b, 0, 0, 2, 2), PixelChange(a, 1, 1, 3, 3)]
  }

  lemma SessionSorted(a: string, b: string)
    ensures ByTimestamp(SessionLog(a, b)) == SessionLog(a, b)
  {
    var c1, c2, c3 := PixelChange(a, 0, 0, 1, 1), PixelChange(b, 0, 0, 2, 2), PixelChange(a, 1, 1, 3, 3);
    assert [c1, c2, c3][1..] == [c2, c3];
    assert [c2, c3][1..] == [c3];
    assert ByTimestamp([c3]) == [c3];
    assert ByTimestamp([c2, c3]) == [c2, c3];
  }

  lemma LastColorOfThree(c1: PixelChange, c2: PixelChange, c3: PixelChange, x: int, y: int)
    ensures LastColorAt([c1, c2, c3], x, y) ==
      if At(c3, x, y) then c3.color else if At(c2, x, y) then c2.color else if At(c1, x, y) then c1.color else 0
  {
    assert [c1, c2, c3][..2] == [c1, c2];
    assert [c1, c2][..1] == [c1];
    assert [c1][..0] == [];
    assert LastColorAt([c1], x, y) == if At(c1, x, y) then c1.color else 0;
    assert LastColorAt([c1, c2], x, y) == if At(c2, x, y) then c2.color else LastColorAt([c1], x, y);
    assert LastColorAt([c1, c2, c3], x, y) == if At(c3, x, y) then c3.color else LastColorAt([c1, c2], x, y);
  }

  lemma TwoByTwo(changes: seq<PixelChange>)
    requires ByTimestamp(changes) == changes
    ensures var g := Reconstruct(changes, 2).pixels;
      g[0][0] == LastColorAt(changes, 0, 0) && g[0][1] == LastColorAt(changes, 1, 0) &&
      g[1][0] == LastColorAt(changes, 0, 1) && g[1][1] == LastColorAt(changes, 1, 1)
  {
  }

  lemma GridLiteral(g: seq<seq<int>>)
    requires |g| == 2 && |g[0]| == 2 && |g[1]| == 2
    requires g[0][0] == 2 && g[0][1] == 0 && g[1][0] == 0 && g[1][1] == 3
    ensures g == [[2, 0], [0, 3]]
  {
    assert g[0] == [2, 0];
    assert g[1] == [0, 3];
  }

  lemma SessionGrid(a: string, b: string)
    ensures Reconstruct(SessionLog(a, b), 2).pixels == [[2, 0], [0, 3]]
  {
    var c1, c2, c3 := PixelChange(a, 0, 0, 1, 1), PixelChange(b, 0, 0, 2, 2), PixelChange(a, 1, 1, 3, 3);
    SessionSorted(a, b);
    TwoByTwo(SessionLog(a, b));
    LastColorOfThree(c1, c2, c3, 0, 0);
    LastColorOfThree(c1, c2, c3, 1, 0);
    LastColorOfThree(c1, c2, c3, 0, 1);
    LastColorOfThree(c1, c2, c3, 1, 1);
    GridLiteral(Reconstruct(SessionLog(a, b), 2).pixels);
  }

  lemma SessionParticipants(a: string, b: string)
    requires a != b
    ensures Participants(SessionLog(a, b)) == [a, b]
  {
    var s := Artists(SessionLog(a, b));
    assert s == [] + [a] + [b] + [a];
    DistinctSnoc([], a);
    DistinctSnoc([] + [a], b);
    DistinctSnoc([] + [a] + [b], a);
  }

  lemma SessionChangedPixels(a: string, b: string)
    ensures ChangedPixels(SessionLog(a, b)) == 2
  {
    var cells := Cells(SessionLog(a, b));
    assert cells == [] + [(0, 0)] + [(0, 0)] + [(1, 1)];
    DistinctSnoc([], (0, 0));
    DistinctSnoc([] + [(0, 0)], (0, 0));
    DistinctSnoc([] + [(0, 0)] + [(0, 0)], (1, 1));
  }

  /** The session reconstructs to [[2, 0], [0, 3]] with participants in order
      of first contribution and a coverage of 2 cells out of 4. */
  lemma SessionExample(a: string, b: string)
    requires a != b
    ensures var state := Reconstruct(SessionLog(a, b), 2);
      state.pixels == [[2, 0], [0, 3]] &&
      Participants(state.changes) == [a, b] &&
      MetadataCoverage(state) == Percent(2, 4)
  {
    SessionSorted(a, b);
    SessionGrid(a, b);
    SessionParticipants(a, b);
    SessionChangedPixels(a, b);
  }
}
