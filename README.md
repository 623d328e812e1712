# Pixel Canvas snapshots, modelled in Dafny

This project models the snapshot core of a collaborative 16×16 pixel canvas
application. The model has three parts.

- **The canvas state reducer** (`canvasUtils.ts`):
  - `calculateCanvasState` sorts the change log by timestamp and replays it
    onto an all-white grid.
  - `validateCanvasState` checks the shape and bounds of a state.
  - `isCanvasStateDifferent` compares two states cell by cell.
  - `generateSnapshotMetadata` builds the NFT metadata record: participants,
    colour histogram, dominant colours, coverage and attributes.
  - `renderCanvasToElement` and `canvasStateToImage` draw the grid with its
    grid lines. They are modelled as a display list of fill rectangles and
    line strokes.
- **The snapshot coordinator**, the `SnapshotService` class of
  `snapshotService.ts`:
  - a status record that partial updates are merged into;
  - subscribers that are told about every new status, and can unsubscribe;
  - the four-step `generateSnapshot` run;
  - the grid and clean image renderers, and the preview;
  - a batch loop that skips failed items;
  - the per-artist statistics.
- **The Web3 error classifier** (`errorHandler.ts`): an ordered cascade of
  phrase and code tests, plus the two style tables.

Modules, one or more per source area:

| module | file | contents |
|---|---|---|
| `Basics` | basics.dfy | `Option`, `Result` |
| `Seqs` | seqs.dfy | `new Set` of a list (`Distinct`), counts, `Filter`, `flat()` |
| `StableSort` | sorting.dfy | JavaScript's stable `Array.prototype.sort` with a numeric comparator |
| `Text` | text.dfy | `String.prototype.includes`, number printing, `join` |
| `Tally` | tally.dfy | the counting-object loop, `Object.entries`, the top-N ranking |
| `Drawing` | drawing.dfy | display-list operations and what a point shows after them |
| `CanvasUtils` | canvas_utils.dfy | the reducer, the validator and the diff |
| `CanvasRender` | canvas_render.dfy | a canvas element as a class, the grid renderer, the image |
| `CanvasMetadata` | canvas_metadata.dfy | `generateSnapshotMetadata` |
| `SnapshotImages` | snapshot_images.dfy | the service's palette, the clean renderer, the configuration |
| `Snapshots` | snapshot_service.dfy | the `SnapshotService` class, its runs and its batch |
| `ErrorHandler` | error_handler.dfy | `parseWeb3Error`, `getErrorStyles`, `getErrorTextStyles` |

Imperative code is imperative here too:
- `calculateCanvasState`, the validator, the diff, the counting loops and the
  drawing loops are methods with loop invariants;
- each method is proved equal to a declarative function, whose properties are
  proved as lemmas;
- the canvas element and the snapshot service are classes whose methods
  change their fields.

The service's subscriber callbacks are numbers. The service records every
call it makes in a `deliveries` field, in order, so the contracts can say who
was told what.

The environment is passed in as parameters:
- whether the browser gives a 2D context and whether the PNG encoder behind `toBlob` works
  (`RenderEnv`);
- the current time and the calendar day (`ItemEnv`).

## Model

All source paths are under `packages/frontend/src/`.

| member | source | states |
|---|---|---|
| Seqs.DistinctElements | packages/frontend/src/lib/canvasUtils.ts:168 | `Array.from(new Set(xs))` holds exactly the elements of `xs`, each once |
| Seqs.DistinctSnoc | packages/frontend/src/lib/canvasUtils.ts:168 | adding an element to the set appends it exactly when it is new |
| Seqs.DistinctFirstSeenOrder | packages/frontend/src/lib/canvasUtils.ts:168 | the set lists its elements in the order of their first occurrence |
| Seqs.FlattenRectangular | packages/frontend/src/lib/canvasUtils.ts:172 | `flat()` of a grid of r rows of c cells has r·c elements |
| Seqs.Take | packages/frontend/src/lib/canvasUtils.ts:181 | `slice(0, n)` is the prefix of length min(n, length) |
| StableSort.SortBy | packages/frontend/src/lib/canvasUtils.ts:50 | the sorted copy has the input's length and elements (a permutation) and ascends by key |
| StableSort.SortByIsStable | packages/frontend/src/lib/canvasUtils.ts:50 | elements with equal keys keep their input order |
| StableSort.SortedGroupsDetermine | packages/frontend/src/lib/canvasUtils.ts:50 | two key-ordered lists with the same equal-key groups are equal, so every stable sort gives `SortBy`'s result |
| StableSort.SortBySortedIsIdentity | packages/frontend/src/lib/canvasUtils.ts:50 | sorting a list already in key order changes nothing |
| StableSort.SortByDependsOnGroupsOnly | packages/frontend/src/lib/canvasUtils.ts:50 | inputs with the same equal-key groups sort to the same list, however the groups interleave |
| StableSort.FilterSortBy | packages/frontend/src/lib/canvasUtils.ts:50 | filtering commutes with the stable sort |
| StableSort.SortByBreaksTiesByInputOrder | packages/frontend/src/lib/canvasUtils.ts:180 | an input ascending in a tie key sorts into (key, tie key) order |
| Text.ContainsIff | packages/frontend/src/lib/errorHandler.ts:27 | `includes(sub)` holds exactly when `sub` occurs at some index |
| Tally.CountOccurrences | packages/frontend/src/lib/canvasUtils.ts:174-176 | the counting loop builds the count map of the list, and first inserts its keys in `Distinct` order |
| Tally.CountMapCounts | packages/frontend/src/lib/canvasUtils.ts:174-176 | the count map's keys are exactly the list's values, each mapped to its number of occurrences |
| Tally.EntriesOfCountMap | packages/frontend/src/lib/canvasUtils.ts:179 | `Object.entries` of the count object, in a given key order, pairs each key with its number of occurrences |
| Tally.TallyAccountsForAll | packages/frontend/src/lib/canvasUtils.ts:174-176 | the counts, over duplicate-free keys that cover the list, add up to the list's length |
| Tally.TopIsRanking | packages/frontend/src/lib/canvasUtils.ts:179-181 | sort by count descending then `slice(0, n)`: min(n, length) entries from the input, in non-increasing count, none left out more frequent than one kept |
| Tally.TopBreaksTiesByEntryOrder | packages/frontend/src/lib/canvasUtils.ts:180 | equal counts keep their `Object.entries` order |
| Drawing.SampleConcat | packages/frontend/src/lib/canvasUtils.ts:86-118 | what is drawn later covers what was drawn earlier wherever it draws; elsewhere the earlier drawing shows |
| Drawing.SampleSnoc | packages/frontend/src/lib/canvasUtils.ts:95-96 | one more operation decides the points it covers and leaves the others as they were |
| Drawing.BlockIndex | packages/frontend/src/lib/canvasUtils.ts:96 | blocks of side p tile the plane: a point of block b lies in block a exactly when a = b |
| Drawing.BlockCovers | packages/frontend/src/lib/canvasUtils.ts:96 | the rectangle of cell (xc, yr) covers a point of block (x, y) exactly when they are the same cell |
| Drawing.RowSample | packages/frontend/src/lib/canvasUtils.ts:91-97 | after one row of fills, a point of block (x, y) is painted exactly when the row is y and the cell was painted, and it shows that cell's colour |
| Drawing.GridSample | packages/frontend/src/lib/canvasUtils.ts:90-98 | after the nested fill loops, every point of block (x, y) shows the colour the paint rule gave cell (x, y), or nothing when it skipped it |
| Drawing.LinesMissCentres | packages/frontend/src/lib/canvasUtils.ts:105-118 | the grid lines run along block edges and never through a block's centre once blocks are at least 2 wide |
| CanvasUtils.Reconstruct | packages/frontend/src/lib/canvasUtils.ts:47 | the grid has `canvasSize` rows of `canvasSize` cells |
| CanvasUtils.CalculateCanvasState | packages/frontend/src/lib/canvasUtils.ts:45-64 | the sort-and-replay loop returns exactly the declarative reconstruction: each cell holds its last write in time order (0 if none), the sorted log, and the last timestamp |
| CanvasUtils.ReconstructSortsLog | packages/frontend/src/lib/canvasUtils.ts:50-61 | `changes` is a timestamp-ascending permutation of the input, of the same length |
| CanvasUtils.ReconstructKeepsTieOrder | packages/frontend/src/lib/canvasUtils.ts:50 | changes with equal timestamps keep their input order in `changes` |
| CanvasUtils.LastColorAtIsLastWrite | packages/frontend/src/lib/canvasUtils.ts:53-57 | the replayed colour is that of the last change at the cell, or 0 when no change is there |
| CanvasUtils.ReconstructLastWriteWins | packages/frontend/src/lib/canvasUtils.ts:53-57 | every in-bounds cell holds the colour of the last sorted change at it, or 0 when there is none |
| CanvasUtils.LastColorAtOfFilter | packages/frontend/src/lib/canvasUtils.ts:53-57 | only the changes at a cell matter for that cell's colour |
| CanvasUtils.ReconstructCellDependsOnCellOnly | packages/frontend/src/lib/canvasUtils.ts:53-57 | two logs with the same changes at a cell give that cell the same colour |
| CanvasUtils.OutOfBoundsChangeIgnored | packages/frontend/src/lib/canvasUtils.ts:54-61 | inserting an out-of-bounds change anywhere leaves the grid untouched, yet the change is kept in `changes`, which grows by one |
| CanvasUtils.ReconstructLastUpdate | packages/frontend/src/lib/canvasUtils.ts:62 | `lastUpdate` is 0 for an empty log, otherwise the largest timestamp, which some change has |
| CanvasUtils.ReconstructIdempotent | packages/frontend/src/lib/canvasUtils.ts:45-64 | replaying the returned log reproduces the same state |
| CanvasUtils.ReconstructIgnoresInterleaving | packages/frontend/src/lib/canvasUtils.ts:50 | logs that agree on the order within each timestamp give the same state |
| CanvasUtils.TieBrokenByInputOrder | packages/frontend/src/lib/canvasUtils.ts:50-57 | two writes to a cell at the same time resolve to the later one in the input, in either order |
| CanvasUtils.ValidateCanvasState | packages/frontend/src/lib/canvasUtils.ts:271-316 | the checking loops push exactly the declarative error list, in order; `valid` holds iff no error was pushed iff the state is well formed |
| CanvasUtils.CheckShape | packages/frontend/src/lib/canvasUtils.ts:275-290 | the empty-grid, size and first-bad-row errors, with the `break` |
| CanvasUtils.CheckColors | packages/frontend/src/lib/canvasUtils.ts:293-300 | one error per out-of-palette cell, row by row |
| CanvasUtils.CheckChanges | packages/frontend/src/lib/canvasUtils.ts:303-310 | per change, a coordinate error then a colour error |
| CanvasUtils.RowLengthErrorsEmptyIff | packages/frontend/src/lib/canvasUtils.ts:284-289 | no row-length error iff every row is as long as the grid is tall |
| CanvasUtils.RowLengthErrorsFirstBad | packages/frontend/src/lib/canvasUtils.ts:284-289 | at most one row-length error, naming the first bad row |
| CanvasUtils.RowColorErrorsEmptyIff | packages/frontend/src/lib/canvasUtils.ts:294-299 | no colour error in a row iff every cell of it is a palette index |
| CanvasUtils.ColorErrorsEmptyIff | packages/frontend/src/lib/canvasUtils.ts:293-300 | no colour error iff every cell is a palette index |
| CanvasUtils.ChangeErrorsEmptyIff | packages/frontend/src/lib/canvasUtils.ts:303-310 | no change error iff every change is on the 16×16 canvas with a palette colour |
| CanvasUtils.ValidationErrorsEmptyIff | packages/frontend/src/lib/canvasUtils.ts:312-315 | the error list is empty iff the state is well formed |
| CanvasUtils.ReconstructIsValid | packages/frontend/src/lib/canvasUtils.ts:271-316 | a 16×16 replay of changes that are all in bounds with palette colours validates |
| CanvasUtils.OutOfBoundsChangeFailsValidation | packages/frontend/src/lib/canvasUtils.ts:303-306 | a 16×16 replay with an off-canvas change fails validation |
| CanvasUtils.IsCanvasStateDifferent | packages/frontend/src/lib/canvasUtils.ts:240-254 | the nested loops return the declarative diff: `true` when the change counts differ, and on equal shapes `true` iff some cell differs |
| CanvasUtils.DiffRowsSameShape | packages/frontend/src/lib/canvasUtils.ts:245-251 | on equal shapes the row scan from row y finds a difference iff some cell from row y on differs |
| CanvasUtils.DiffersOnSameShape | packages/frontend/src/lib/canvasUtils.ts:240-254 | equal counts and shapes: the result is whether some cell differs |
| CanvasUtils.DiffersIrreflexive | packages/frontend/src/lib/canvasUtils.ts:240-254 | a state is never different from itself |
| CanvasUtils.DiffersIsAsymmetric | packages/frontend/src/lib/canvasUtils.ts:245-251 | a 1-row and a 2-row state compare as equal one way, and the other way the scan reads past the last row and throws |
| CanvasMetadata.CountColorUsage | packages/frontend/src/lib/canvasUtils.ts:171-179 | the counting loop over the flattened grid, read through `Object.entries`, gives the declarative histogram |
| CanvasMetadata.GenerateSnapshotMetadata | packages/frontend/src/lib/canvasUtils.ts:162-232 | the record is the declarative metadata; it throws exactly for an empty grid, and otherwise has 7 attributes and the distinct artists as participants |
| CanvasMetadata.IntKeyOrderMembers | packages/frontend/src/lib/canvasUtils.ts:179 | the integer-key order of `Object.entries` lists every inserted key exactly once |
| CanvasMetadata.ColorUsageCountsEveryCell | packages/frontend/src/lib/canvasUtils.ts:171-179 | the histogram's counts add up to the number of cells (rows × columns for a rectangular grid), and each is positive |
| CanvasMetadata.ColorUsageAscending | packages/frontend/src/lib/canvasUtils.ts:179 | for palette indices the histogram lists colours in ascending index order |
| CanvasMetadata.DominantColorsAreMostUsed | packages/frontend/src/lib/canvasUtils.ts:179-182 | at most 3 dominant colours, in non-increasing use, none left out used more; for palette indices, ties go to the lower index |
| CanvasMetadata.ParticipantsAreArtists | packages/frontend/src/lib/canvasUtils.ts:168 | participants are duplicate-free, include every change's artist, hold nothing else, and follow first-occurrence order |
| CanvasMetadata.CoverageAtMostFull | packages/frontend/src/lib/canvasUtils.ts:185-190 | when every change is in bounds, the distinct changed cells number at most n·n |
| CanvasMetadata.CoverageCanExceedFull | packages/frontend/src/lib/canvasUtils.ts:185-190 | an off-canvas change still counts, so the coverage of a 1×1 grid can be 2 of 1 |
| CanvasMetadata.SessionExample | packages/frontend/src/lib/canvasUtils.ts:168-190 | a concrete three-change session: the grid, the participants in first-seen order, and 2 of 4 cells covered |
| CanvasRender.CanvasElement.constructor | packages/frontend/src/lib/canvasUtils.ts:135 | a new canvas element is 300×150, blank, with black styles and line width 1 |
| CanvasRender.CanvasElement.SetWidth | packages/frontend/src/lib/canvasUtils.ts:83 | assigning the width clears the bitmap and resets the context styles |
| CanvasRender.CanvasElement.FillRect | packages/frontend/src/lib/canvasUtils.ts:95-96 | a fill appends a rectangle in the current fill style |
| CanvasRender.CanvasElement.StrokeSegment | packages/frontend/src/lib/canvasUtils.ts:106-109 | a stroked path appends a line in the current stroke style and width |
| CanvasRender.CanvasElement.ToBlob | packages/frontend/src/lib/canvasUtils.ts:142-148 | the blob is the surface as drawn, or nothing when encoding fails or the bitmap has a zero side |
| CanvasRender.RenderCanvasToElement | packages/frontend/src/lib/canvasUtils.ts:72-119 | without a context it throws and changes nothing; otherwise the element is n·p square and holds the clear, the n×n fills and the 2(n+1) grid lines, in order |
| CanvasRender.DrawCells | packages/frontend/src/lib/canvasUtils.ts:90-98 | the nested loops append one fill per cell, row by row, with the palette fallback |
| CanvasRender.DrawRow | packages/frontend/src/lib/canvasUtils.ts:91-97 | the inner loop appends the fills of one row |
| CanvasRender.DrawGridLines | packages/frontend/src/lib/canvasUtils.ts:101-118 | n+1 vertical lines, then n+1 horizontal lines, in the grid colour |
| CanvasRender.CanvasStateToImage | packages/frontend/src/lib/canvasUtils.ts:128-153 | the image of the rendered element, or the renderer's error, or the encoder's error when encoding fails or the image is 0×0 |
| CanvasRender.BlockCentreShowsCell | packages/frontend/src/lib/canvasUtils.ts:90-118 | the centre of every block shows its cell's palette colour (white for an index off the palette) |
| CanvasRender.DecodeRenderedGrid | packages/frontend/src/lib/canvasUtils.ts:72-119 | round trip: reading block centres back from the rendering of a square grid of palette indices gives the grid |
| CanvasRender.ImageShowsState | packages/frontend/src/lib/canvasUtils.ts:128-153 | for a well-formed state, an image results iff the context and the encoder work, and it is 16p square and decodes to the state's grid |
| CanvasRender.VerticalLineDrawn | packages/frontend/src/lib/canvasUtils.ts:105-110 | every vertical line k·p is drawn over the whole height |
| CanvasRender.HorizontalLineDrawn | packages/frontend/src/lib/canvasUtils.ts:113-118 | every horizontal line k·p is drawn over the whole width |
| CanvasRender.GridLinesOnTop | packages/frontend/src/lib/canvasUtils.ts:101-118 | every point on a grid line shows the grid colour, over the fills |
| SnapshotImages.GetColorFromPalette | packages/frontend/src/lib/snapshotService.ts:228-241 | the result is always a palette colour |
| SnapshotImages.PalettesAgree | packages/frontend/src/lib/snapshotService.ts:230-240 | the service palette is the shared palette in lower case, and both fallbacks agree, so both renderers paint a cell alike |
| SnapshotImages.DrawCleanRow | packages/frontend/src/lib/snapshotService.ts:204-212 | the inner loop appends the painted cells of one row, skipping per the rule |
| SnapshotImages.DrawCleanCells | packages/frontend/src/lib/snapshotService.ts:203-213 | the nested loops append the painted cells row by row |
| SnapshotImages.CleanBlockShowsCell | packages/frontend/src/lib/snapshotService.ts:197-213 | every point of block (x, y) shows the cell's colour, or nothing when the rule skips the cell |
| SnapshotImages.DecodeCleanGrid | packages/frontend/src/lib/snapshotService.ts:179-223 | round trip: the clean image of a square grid of palette indices, opaque or transparent, decodes to the grid |
| SnapshotImages.TransparentSkipsOnlyWhite | packages/frontend/src/lib/snapshotService.ts:208 | on a transparent background exactly the white cells are left unpainted |
| SnapshotImages.SmallPreviewHasNoData | packages/frontend/src/lib/snapshotService.ts:251 | with a working browser the preview is produced iff at least 16 pixels are asked for; below that the blocks are 0 wide and the encoder's no-data error results |
| SnapshotImages.PreviewFits | packages/frontend/src/lib/snapshotService.ts:246-259 | the preview is the largest multiple of 16 that fits the requested size, with no grid on white; the default 128 gives blocks of 8 |
| SnapshotImages.ResolveOverrides | packages/frontend/src/lib/snapshotService.ts:91 | no overrides give the defaults (32, 1.0, grid, opaque); for each of the four keys, a given value wins and a missing one keeps its default |
| Snapshots.MergeChangesOnlyNamedFields | packages/frontend/src/lib/snapshotService.ts:71 | a merge changes only fields the update names |
| Snapshots.MergeSetsNamedFields | packages/frontend/src/lib/snapshotService.ts:71 | the named fields take the update's values whatever the old status was |
| Snapshots.MergeAlgebra | packages/frontend/src/lib/snapshotService.ts:71 | the empty update changes nothing, merging twice is merging once, and two merges are one merge of the combined update |
| Snapshots.RunAppend | packages/frontend/src/lib/snapshotService.ts:70-73 | a run of updates split in two: the second part starts from the status the first part left |
| Snapshots.TrailIsPrefixFinals | packages/frontend/src/lib/snapshotService.ts:70-73 | the i-th published status is the status after the first i+1 updates |
| Snapshots.ResetRestoresInitial | packages/frontend/src/lib/snapshotService.ts:358-367 | reset names all six fields and gives the initial status (idle, 0, ready, no id, no hash, no error) |
| Snapshots.IndexOf | packages/frontend/src/lib/snapshotService.ts:60 | `indexOf` is -1 iff absent, else the first occurrence |
| Snapshots.RemoveFirstRemovesOne | packages/frontend/src/lib/snapshotService.ts:59-64 | unsubscribing removes exactly one occurrence of the callback and keeps the others in order |
| Snapshots.UnsubscribeTwice | packages/frontend/src/lib/snapshotService.ts:59-64 | calling the handle again changes nothing for a callback registered once; one registered twice is gone after two calls |
| Snapshots.SubscribeUnsubscribeRoundTrip | packages/frontend/src/lib/snapshotService.ts:53-64 | subscribing a new callback and unsubscribing it restores the list |
| Snapshots.SnapshotService.constructor | packages/frontend/src/lib/snapshotService.ts:43-48 | no subscribers and the initial status |
| Snapshots.SnapshotService.OnStatusUpdate | packages/frontend/src/lib/snapshotService.ts:53-56 | appends the callback and calls it once with the current status |
| Snapshots.SnapshotService.Unsubscribe | packages/frontend/src/lib/snapshotService.ts:59-64 | removes the first occurrence of the callback, if any, and nothing else |
| Snapshots.SnapshotService.UpdateStatus | packages/frontend/src/lib/snapshotService.ts:70-73 | the merged status, then every subscriber told of it in registration order |
| Snapshots.SnapshotService.GetStatus | packages/frontend/src/lib/snapshotService.ts:379-381 | returns the current status |
| Snapshots.SnapshotService.Reset | packages/frontend/src/lib/snapshotService.ts:358-367 | the status becomes the initial one and every subscriber is told |
| Snapshots.SnapshotService.GenerateCleanImage | packages/frontend/src/lib/snapshotService.ts:179-223 | the declarative clean image: no context gives its error, a failing encoder or a 0×0 bitmap gives the no-data error, otherwise an n·p square of background then painted cells |
| Snapshots.SnapshotService.GenerateSnapshotImage | packages/frontend/src/lib/snapshotService.ts:163-174 | the grid renderer when `includeGrid` is set, else the clean one |
| Snapshots.SnapshotService.GeneratePreview | packages/frontend/src/lib/snapshotService.ts:246-259 | the clean image of the 16×16 replay at `floor(previewSize / 16)`, quality 0.8, no grid, white background |
| Snapshots.SnapshotService.GenerateSnapshot | packages/frontend/src/lib/snapshotService.ts:82-158 | the declarative outcome, with the status after the declarative step list and every step told to every subscriber |
| Snapshots.SnapshotService.RunSteps | packages/frontend/src/lib/snapshotService.ts:104-146 | validate, render and build metadata after the first step, publishing each later step |
| Snapshots.SnapshotService.BatchGenerateSnapshots | packages/frontend/src/lib/snapshotService.ts:264-306 | the declarative batch results and the declarative status run, all told to every subscriber |
| Snapshots.SnapshotService.BatchLoop | packages/frontend/src/lib/snapshotService.ts:273-305 | the loop keeps the successes in order and announces each item before it runs, then the summary |
| Snapshots.SnapshotService.BatchItem | packages/frontend/src/lib/snapshotService.ts:276-294 | one item: its announcement, then its own run |
| Snapshots.SnapshotService.GenerateSnapshotStats | packages/frontend/src/lib/snapshotService.ts:311-353 | the loops return the declarative statistics, or throw for an empty grid |
| Snapshots.CountColors | packages/frontend/src/lib/snapshotService.ts:329-335 | the nested loops build the count map of the flattened grid |
| Snapshots.CountRow | packages/frontend/src/lib/snapshotService.ts:331-334 | the inner loop adds one row to the count map |
| Snapshots.ReplayValidIff | packages/frontend/src/lib/snapshotService.ts:104-110 | the 16×16 replay validates iff every change is on the canvas with a palette colour |
| Snapshots.SnapshotSucceedsIff | packages/frontend/src/lib/snapshotService.ts:82-158 | a run succeeds iff the log validates, the renderer works and `pixelSize` is positive; a success carries the replay, a 16p-wide image and the metadata; a failure carries the validation, context or encoder message |
| Snapshots.SucceedingRunSteps | packages/frontend/src/lib/snapshotService.ts:95-140 | a successful run publishes exactly the four fixed steps |
| Snapshots.SuccessTrail | packages/frontend/src/lib/snapshotService.ts:95-140 | the published statuses are calculating/10, rendering/40, rendering/70, completed/100, all with the snapshot id, hash and error left as they were |
| Snapshots.SuccessfulRunPublishes | packages/frontend/src/lib/snapshotService.ts:95-140 | the same for the steps of any successful run |
| Snapshots.FailingRunSteps | packages/frontend/src/lib/snapshotService.ts:107-157 | a failing run publishes calculating, then rendering only when validation passed, then the failure |
| Snapshots.FailedRunPublishes | packages/frontend/src/lib/snapshotService.ts:107-157 | after a failure the status is error/0 with the failure message, and no rendering step when validation failed |
| Snapshots.FailureTrail | packages/frontend/src/lib/snapshotService.ts:148-157 | the failure update leaves error/0 with the message and the snapshot id |
| Snapshots.FinalKeepsSnapshotId | packages/frontend/src/lib/snapshotService.ts:95-100 | the snapshot id set by the first step survives steps that do not name it |
| Snapshots.RunErrorField | packages/frontend/src/lib/snapshotService.ts:148-157 | after a run, the error field holds the failure message, or what it held before on success |
| Snapshots.BatchProgressBounds | packages/frontend/src/lib/snapshotService.ts:280 | per-item progress starts at 0, never decreases and stays within 0..99 |
| Snapshots.CollectKeepsSuccesses | packages/frontend/src/lib/snapshotService.ts:285-294 | the results hold only successful items, each with its own id, and no more entries than items |
| Snapshots.CollectKeepsAll | packages/frontend/src/lib/snapshotService.ts:285-290 | when every item succeeds, the results are all of them, in input order |
| Snapshots.BatchResultsBound | packages/frontend/src/lib/snapshotService.ts:273-305 | no more results than items |
| Snapshots.BatchResultsAreSuccesses | packages/frontend/src/lib/snapshotService.ts:285-294 | every result is the successful snapshot of an input item with that id |
| Snapshots.BatchKeepsEverySuccess | packages/frontend/src/lib/snapshotService.ts:285-290 | when every item succeeds, the results follow the input ids in order |
| Snapshots.AnnouncedErrorField | packages/frontend/src/lib/snapshotService.ts:275-297 | after k items the error field holds the message of the last failure so far, or its old value |
| Snapshots.BatchEndsCompleted | packages/frontend/src/lib/snapshotService.ts:299-303 | the batch ends completed/100 with "succeeded/total" in the message, and still carries the last failure's error |
| Snapshots.EmptyBatchCompletes | packages/frontend/src/lib/snapshotService.ts:273-305 | an empty batch has no results and publishes only the summary 0/0 |
| Snapshots.StatsDescribeState | packages/frontend/src/lib/snapshotService.ts:311-353 | throws iff the grid is empty; per-artist counts add up to the number of changes, one per participant; at most 5 top contributors, drawn from them in non-increasing count; the colour usage counts every cell |
| Snapshots.StatsCoverageOfReplay | packages/frontend/src/lib/snapshotService.ts:337-351 | for a valid 16×16 replay the coverage total is 256 and the changed cells at most that |
| ErrorHandler.MessageOf | packages/frontend/src/lib/errorHandler.ts:23 | the text inspected is the first non-empty of message, shortMessage and reason, else '未知错误' |
| ErrorHandler.MentionsAnyIff | packages/frontend/src/lib/errorHandler.ts:26-30 | a chain of `includes` tests holds iff some phrase occurs |
| ErrorHandler.ParseWeb3Error | packages/frontend/src/lib/errorHandler.ts:22-155 | each of the ten notices, the network notice and the four revert-reason notices included, is returned exactly when its guard holds and no earlier guard does; the generic contract notice when no reason matches; unknown when no guard holds |
| ErrorHandler.TextlessErrorClassifiedByCode | packages/frontend/src/lib/errorHandler.ts:23-154 | an error with no text is classified by its code alone |
| ErrorHandler.RejectionPhraseWins | packages/frontend/src/lib/errorHandler.ts:26-41 | a rejection phrase anywhere in the text gives the cancelled notice, whatever the code |
| ErrorHandler.RejectionCodeWins | packages/frontend/src/lib/errorHandler.ts:31 | code 4001 gives the cancelled notice, whatever the text |
| ErrorHandler.RedundantPhrases | packages/frontend/src/lib/errorHandler.ts:76-136 | 'execution reverted' and 'wallet not connected' add nothing to the phrases they contain |
| ErrorHandler.GetErrorStyles | packages/frontend/src/lib/errorHandler.ts:160-173 | every style starts with the shared base classes |
| ErrorHandler.TextClassesTable | packages/frontend/src/lib/errorHandler.ts:178-205 | the text styles of the four tones |
| ErrorHandler.StylesShareTone | packages/frontend/src/lib/errorHandler.ts:160-205 | both tables pick the same tone for a type: yellow, blue, red, gray |
| ErrorHandler.StylesDistinguishTypes | packages/frontend/src/lib/errorHandler.ts:160-205 | distinct types get distinct box styles and title styles |

## Left out

- Three behaviours of the code that a reader might not expect, modelled as written:
  - an empty batch completes normally with "0/0";
  - on a transparent background the clean renderer skips a cell by comparing its colour string with `'#ffffff'`, so an off-palette index, which falls back to white, is skipped too;
  - the grid renderer ignores `backgroundTransparent`.
- Floating point is not modelled:
  - coverage and contributor percentages (`toFixed(1)`) are kept as their two integer operands;
  - batch progress `Math.floor(i / n * 100)` is computed as `(i·100) / n` on integers. Floating point can be one lower (29 of 100 gives 28).
- `Date.now()` and the ISO creation date are parameters of the metadata.
- The `delay` pauses are left out. Each `await` becomes a plain sequential call; there is no concurrency.
- The browser canvas is a display list:
  - rasterisation, anti-aliasing, line width and PNG encoding are not modelled;
  - whether `getContext` succeeds and whether the encoder works are parameters. A bitmap with a zero side always encodes to `null`, as in a browser.
- Callbacks are opaque identifiers. Not modelled:
  - what a callback does with a status;
  - callbacks that re-enter the service;
  - callbacks that unsubscribe while `forEach` is running.
- `console.error` in the batch loop is output only and is left out.
- Snapshots.SnapshotService.GetStatus: returns the status as a value. In JavaScript the caller, and every callback, receives the service's current status object itself, so mutating it changes the service's status until the next update replaces the object. Later updates build a new object and are not seen through an old one.
- SnapshotImages.Resolve: a `Partial<SnapshotConfig>` with a key given as `undefined` is not modelled. Such a key would override the default with `undefined`.
- Coordinates, colours and timestamps of a pixel change are integers. Fractional or NaN numbers are not modelled: a fractional index would set a non-index property of the row, and a NaN timestamp breaks the sort comparator.
- `canvasSize`, `previewSize` and `pixelSize` are natural numbers; negative or fractional sizes are not modelled (for `canvasSize`, `Array(canvasSize)` would throw a RangeError). Every caller in the core uses the default 16.
- Artist keys of the contributor count: `Object.entries` lists them in insertion order. This holds because artist addresses never look like array indices.
- The `${x},${y}` keys of the coverage count are modelled as integer pairs. The two are in one-to-one correspondence for integer coordinates.
- ErrorHandler.ParseWeb3Error: no lemma proves that a particular concrete message (say, a timeout text) avoids every earlier phrase. The characterisation holds for all messages.
- The `'uploading'` phase is part of the status type but nothing in the core sets it.
- `generateSnapshotMetadata` throws only for an empty grid. `generateSnapshot` always replays onto 16×16, so that path cannot happen there, and the model shows it is unreachable.
- `getCanvasStateHash` (`btoa`), `exportCanvasState` and `importCanvasState` (JSON) are not part of this model.
- The UI components, wallet hooks and upload services are not part of this model.
