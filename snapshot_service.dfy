/** The snapshot coordinator of snapshotService.ts: a status record that
    partial updates are merged into, a list of subscribers told about every
    new status, the four-step `generateSnapshot` run, a batch loop that
    skips failures, and the contributor statistics of a canvas.

    Subscriber callbacks are identified by a number; what a callback does
    with a status is outside the model, so the service records every call
    it makes in `deliveries`, in order. */
module Snapshots {
  import opened Basics
  import opened Seqs
  import opened Text
  import opened Drawing
  import opened Tally
  import opened CanvasUtils
  import opened CanvasRender
  import opened CanvasMetadata
  import opened SnapshotImages

  // ---------------------------------------------------------------------
  // Status records and partial updates

  /** `SnapshotGenerationStatus['status']`; `Failed` is `'error'`. */
  datatype Phase = Idle | Calculating | Rendering | Uploading | Completed | Failed

  /** `SnapshotGenerationStatus`; `None` is a field that is absent or
      `undefined`. */
  datatype Status = Status(
    phase: Phase,
    progress: int,
    message: string,
    snapshotId: Option<int>,
    ipfsHash: Option<string>,
    error: Option<string>)

  const READY: string := "准备就绪"
  const INITIAL_STATUS: Status := Status(Idle, 0, READY, None, None, None)

  /** One field of a `Partial<SnapshotGenerationStatus>`: left out, or given
      a value (possibly `undefined`, i.e. `Put(None)`). */
  datatype Field<T> = Keep | Put(value: T)

  datatype StatusUpdate = StatusUpdate(
    phase: Field<Phase>,
    progress: Field<int>,
    message: Field<string>,
    snapshotId: Field<Option<int>>,
    ipfsHash: Field<Option<string>>,
    error: Field<Option<string>>)

  const NO_UPDATE: StatusUpdate := StatusUpdate(Keep, Keep, Keep, Keep, Keep, Keep)

  function Pick<T>(f: Field<T>, v: T): T {
    if f.Put? then f.value else v
  }

  /** `{ ...status, ...update }`. */
  function Merge(s: Status, u: StatusUpdate): Status {
    Status(Pick(u.phase, s.phase), Pick(u.progress, s.progress), Pick(u.message, s.message),
           Pick(u.snapshotId, s.snapshotId), Pick(u.ipfsHash, s.ipfsHash), Pick(u.error, s.error))
  }

  datatype FieldName = PhaseField | ProgressField | MessageField | SnapshotIdField | IpfsHashField | ErrorField

  /** The fields an update gives a value to. */
  function Named(u: StatusUpdate): set<FieldName> {
    (if u.phase.Put? then {PhaseField} else {}) + (if u.progress.Put? then {ProgressField} else {}) +
    (if u.message.Put? then {MessageField} else {}) + (if u.snapshotId.Put? then {SnapshotIdField} else {}) +
    (if u.ipfsHash.Put? then {IpfsHashField} else {}) + (if u.error.Put? then {ErrorField} else {})
  }

  /** The fields in which two statuses differ. */
  function Differing(a: Status, b: Status): set<FieldName> {
    (if a.phase != b.phase then {PhaseField} else {}) + (if a.progress != b.progress then {ProgressField} else {}) +
    (if a.message != b.message then {MessageField} else {}) + (if a.snapshotId != b.snapshotId then {SnapshotIdField} else {}) +
    (if a.ipfsHash != b.ipfsHash then {IpfsHashField} else {}) + (if a.error != b.error then {ErrorField} else {})
  }

  /** `v` applied after `u`, as one update. */
  function Then(u: StatusUpdate, v: StatusUpdate): StatusUpdate {
    StatusUpdate(
      if v.phase.Put? then v.phase else u.phase,
      if v.progress.Put? then v.progress else u.progress,
      if v.message.Put? then v.message else u.message,
      if v.snapshotId.Put? then v.snapshotId else u.snapshotId,
      if v.ipfsHash.Put? then v.ipfsHash else u.ipfsHash,
      if v.error.Put? then v.error else u.error)
  }

  /** A merge changes only the fields the update names. */
  lemma MergeChangesOnlyNamedFields(s: Status, u: StatusUpdate)
    ensures Differing(s, Merge(s, u)) <= Named(u)
  {
  }

  /** A merge sets the named fields the same way whatever the status was
      before, and keeps the other differences. */
  lemma MergeSetsNamedFields(s: Status, t: Status, u: StatusUpdate)
    ensures Differing(Merge(s, u), Merge(t, u)) !! Named(u)
    ensures Differing(Merge(s, u), Merge(t, u)) <= Differing(s, t)
  {
  }

  /** An empty update changes nothing, applying an update twice is the same
      as once, and two updates in a row act as their composition. */
  lemma MergeAlgebra(s: Status, u: StatusUpdate, v: StatusUpdate)
    ensures Merge(s, NO_UPDATE) == s
    ensures Merge(Merge(s, u), u) == Merge(s, u)
    ensures Merge(Merge(s, u), v) == Merge(s, Then(u, v))
  {
  }

  // ---------------------------------------------------------------------
  // Runs of updates and what subscribers receive

  /** One call of a subscriber's callback. */
  datatype Delivery = Delivery(subscriber: nat, status: Status)

  /** `statusCallbacks.forEach(cb => cb(status))`. */
  function Broadcast(subs: seq<nat>, st: Status): (r: seq<Delivery>)
    ensures |r| == |subs|
  {
    seq(|subs|, i requires 0 <= i < |subs| => Delivery(subs[i], st))
  }

  /** The status after applying `us` in order to `s`. */
  function Final(s: Status, us: seq<StatusUpdate>): Status {
    if us == [] then s else Merge(Final(s, us[..|us| - 1]), us[|us| - 1])
  }

  /** The statuses published while applying `us` to `s`, one per update. */
  function Trail(s: Status, us: seq<StatusUpdate>): (r: seq<Status>)
    ensures |r| == |us|
  {
    if us == [] then [] else Trail(s, us[..|us| - 1]) + [Final(s, us)]
  }

  /** Every status of `ss` sent to every subscriber, status by status. */
  function Broadcasts(subs: seq<nat>, ss: seq<Status>): seq<Delivery> {
    if ss == [] then [] else Broadcasts(subs, ss[..|ss| - 1]) + Broadcast(subs, ss[|ss| - 1])
  }

  lemma {:induction false} RunAppend(s: Status, a: seq<StatusUpdate>, b: seq<StatusUpdate>)
    ensures Final(s, a + b) == Final(Final(s, a), b)
    ensures Trail(s, a + b) == Trail(s, a) + Trail(Final(s, a), b)
  {
    if b == [] {
      assert a + b == a;
    } else {
      var b' := b[..|b| - 1];
      assert (a + b)[..|a + b| - 1] == a + b';
      assert (a + b)[|a + b| - 1] == b[|b| - 1];
      RunAppend(s, a, b');
    }
  }

  lemma {:induction false} BroadcastsAppend(subs: seq<nat>, a: seq<Status>, b: seq<Status>)
    ensures Broadcasts(subs, a + b) == Broadcasts(subs, a) + Broadcasts(subs, b)
  {
    if b == [] {
      assert a + b == a;
    } else {
      var b' := b[..|b| - 1];
      assert (a + b)[..|a + b| - 1] == a + b';
      assert (a + b)[|a + b| - 1] == b[|b| - 1];
      BroadcastsAppend(subs, a, b');
    }
  }

  lemma AppendAssoc<T>(a: seq<T>, b: seq<T>, c: seq<T>)
    ensures (a + b) + c == a + (b + c)
  {
  }

  /** A run split in two: the second part starts where the first ends. */
  lemma RunSplit(s: Status, subs: seq<nat>, a: seq<StatusUpdate>, b: seq<StatusUpdate>)
    ensures Final(s, a + b) == Final(Final(s, a), b)
    ensures Broadcasts(subs, Trail(s, a + b)) == Broadcasts(subs, Trail(s, a)) + Broadcasts(subs, Trail(Final(s, a), b))
  {
    RunAppend(s, a, b);
    BroadcastsAppend(subs, Trail(s, a), Trail(Final(s, a), b));
  }

  lemma {:induction false} TrailIsPrefixFinals(s: Status, us: seq<StatusUpdate>, i: nat)
    requires i < |us|
    ensures Trail(s, us)[i] == Final(s, us[..i + 1])
  {
    if i < |us| - 1 {
      var p := us[..|us| - 1];
      assert p[..i + 1] == us[..i + 1];
      TrailIsPrefixFinals(s, p, i);
    } else {
      assert us[..i + 1] == us;
    }
  }

  // ---------------------------------------------------------------------
  // The updates the service publishes

  function CalculatingUpdate(id: int): StatusUpdate {
    StatusUpdate(Put(Calculating), Put(10), Put("计算画布状态..."), Put(Some(id)), Keep, Keep)
  }

  function Step(phase: Phase, progress: int, message: string): StatusUpdate {
    StatusUpdate(Put(phase), Put(progress), Put(message), Keep, Keep, Keep)
  }

  const RENDERING_IMAGE: StatusUpdate := Step(Rendering, 40, "生成快照图片...")
  const RENDERING_METADATA: StatusUpdate := Step(Rendering, 70, "生成元数据...")
  const SNAPSHOT_DONE: StatusUpdate := Step(Completed, 100, "快照生成完成")

  /** The catch block of `generateSnapshot`. */
  function FailureUpdate(message: string): StatusUpdate {
    StatusUpdate(Put(Failed), Put(0), Put("快照生成失败"), Keep, Keep, Put(Some(message)))
  }

  /** `reset`: every field named, the optional ones set to `undefined`. */
  const RESET: StatusUpdate := StatusUpdate(Put(Idle), Put(0), Put(READY), Put(None), Put(None), Put(None))

  /** Resetting restores the initial status, whatever came before. */
  lemma ResetRestoresInitial(s: Status)
    ensures Merge(s, RESET) == INITIAL_STATUS
    ensures Named(RESET) == {PhaseField, ProgressField, MessageField, SnapshotIdField, IpfsHashField, ErrorField}
  {
  }

  // ---------------------------------------------------------------------
  // generateSnapshot, stated as functions

  datatype Snapshot = Snapshot(imageBlob: Blob, metadata: SnapshotMetadata, canvasState: CanvasState)

  /** What the run depends on besides its arguments: whether the browser
      renders and encodes, and the clock the metadata reads. */
  datatype ItemEnv = ItemEnv(render: RenderEnv, now: int, today: string)

  /** The message of the error thrown for a state that fails validation. */
  function InvalidStateMessage(errors: seq<ValidationError>): string {
    "画布状态无效: " + Join(ErrorTexts(errors), ", ")
  }

  /** What a run does with a replayed state: the snapshot, or the message
      of the first error its steps throw. A state that passes validation
      has rows, so building its metadata cannot throw. */
  function StateOutcome(id: int, state: CanvasState, cfg: SnapshotConfig, env: ItemEnv): Result<Snapshot> {
    var errors := ValidationErrors(state);
    var image := SnapshotImage(state, cfg, env.render);
    if errors != [] then Err(InvalidStateMessage(errors))
    else if image.Err? then Err(image.message)
    else
      ValidationErrorsEmptyIff(state);
      Ok(Snapshot(image.value, Metadata(id, state, env.now, env.today).value, state))
  }

  /** The updates a run publishes for a replayed state, in order: each step
      extends what the previous ones published, and the first error ends the
      run with the failure update. */
  function StateSteps(id: int, state: CanvasState, cfg: SnapshotConfig, env: ItemEnv): seq<StatusUpdate> {
    var errors := ValidationErrors(state);
    var image := SnapshotImage(state, cfg, env.render);
    var calculating := [CalculatingUpdate(id)];
    var rendering := calculating + [RENDERING_IMAGE];
    if errors != [] then calculating + [FailureUpdate(InvalidStateMessage(errors))]
    else if image.Err? then rendering + [FailureUpdate(image.message)]
    else rendering + [RENDERING_METADATA] + [SNAPSHOT_DONE]
  }

  /** The result of `generateSnapshot`: the snapshot, or the message of the
      error it re-throws. */
  function Outcome(id: int, changes: seq<PixelChange>, cfg: SnapshotConfig, env: ItemEnv): Result<Snapshot> {
    StateOutcome(id, Reconstruct(changes, CANVAS_SIZE), cfg, env)
  }

  /** The updates `generateSnapshot` publishes, in order. */
  function Steps(id: int, changes: seq<PixelChange>, cfg: SnapshotConfig, env: ItemEnv): seq<StatusUpdate> {
    StateSteps(id, Reconstruct(changes, CANVAS_SIZE), cfg, env)
  }

  // ---------------------------------------------------------------------
  // batchGenerateSnapshots, stated as functions

  datatype SnapshotRequest = SnapshotRequest(id: int, changes: seq<PixelChange>)

  datatype BatchEntry = BatchEntry(snapshotId: int, snapshot: Snapshot)

  /** `Math.floor((i / n) * 100)`, in exact arithmetic. */
  function BatchProgress(i: nat, n: nat): int
    requires n > 0
  {
    (i * 100) / n
  }

  function BatchItemUpdate(i: nat, n: nat, id: int): StatusUpdate
    requires n > 0
  {
    StatusUpdate(Put(Rendering), Put(BatchProgress(i, n)),
                 Put("处理快照 " + NatToString(i + 1) + "/" + NatToString(n) + "..."), Put(Some(id)), Keep, Keep)
  }

  function BatchDoneUpdate(succeeded: nat, n: nat): StatusUpdate {
    Step(Completed, 100, "批量处理完成，成功生成 " + NatToString(succeeded) + "/" + NatToString(n) + " 个快照")
  }

  /** What one `generateSnapshot` call of the batch returns and publishes. */
  datatype ItemRun = ItemRun(result: Result<Snapshot>, steps: seq<StatusUpdate>)

  function RunOf(req: SnapshotRequest, cfg: SnapshotConfig, env: ItemEnv): ItemRun {
    ItemRun(Outcome(req.id, req.changes, cfg, env), Steps(req.id, req.changes, cfg, env))
  }

  /** The run of every request, request i in environment i. */
  function Runs(reqs: seq<SnapshotRequest>, cfg: SnapshotConfig, envs: seq<ItemEnv>): (runs: seq<ItemRun>)
    requires |reqs| <= |envs|
    ensures |runs| == |reqs|
  {
    seq(|reqs|, j requires 0 <= j < |reqs| => RunOf(reqs[j], cfg, envs[j]))
  }

  /** `runs` are the runs of `reqs`; stated pointwise, so that a proof about
      the batch loop looks at one run only where it needs to. */
  predicate RunsOf(runs: seq<ItemRun>, reqs: seq<SnapshotRequest>, cfg: SnapshotConfig, envs: seq<ItemEnv>) {
    |runs| == |reqs| <= |envs| &&
    forall j {:trigger RunOf(reqs[j], cfg, envs[j])} :: 0 <= j < |runs| ==> runs[j] == RunOf(reqs[j], cfg, envs[j])
  }

  lemma RunsAreRunsOf(reqs: seq<SnapshotRequest>, cfg: SnapshotConfig, envs: seq<ItemEnv>)
    requires |reqs| <= |envs|
    ensures RunsOf(Runs(reqs, cfg, envs), reqs, cfg, envs)
  {
  }

  /** The successes among the first k runs, in request order. */
  function Collect(reqs: seq<SnapshotRequest>, runs: seq<ItemRun>, k: nat): seq<BatchEntry>
    requires k <= |runs| == |reqs|
  {
    if k == 0 then []
    else
      var r := runs[k - 1].result;
      Collect(reqs, runs, k - 1) + (if r.Ok? then [BatchEntry(reqs[k - 1].id, r.value)] else [])
  }

  /** The updates published while processing the first k requests: each
      request's announcement, then what its run publishes. */
  function Announced(reqs: seq<SnapshotRequest>, runs: seq<ItemRun>, k: nat): seq<StatusUpdate>
    requires k <= |runs| == |reqs|
  {
    if k == 0 then []
    else Announced(reqs, runs, k - 1) + [BatchItemUpdate(k - 1, |reqs|, reqs[k - 1].id)] + runs[k - 1].steps
  }

  /** What `batchGenerateSnapshots` returns. */
  function BatchResults(reqs: seq<SnapshotRequest>, cfg: SnapshotConfig, envs: seq<ItemEnv>): seq<BatchEntry>
    requires |reqs| <= |envs|
  {
    Collect(reqs, Runs(reqs, cfg, envs), |reqs|)
  }

  /** Every update of a whole batch, the closing one included. */
  function BatchRun(reqs: seq<SnapshotRequest>, cfg: SnapshotConfig, envs: seq<ItemEnv>): seq<StatusUpdate>
    requires |reqs| <= |envs|
  {
    Announced(reqs, Runs(reqs, cfg, envs), |reqs|) + [BatchDoneUpdate(|BatchResults(reqs, cfg, envs)|, |reqs|)]
  }

  // ---------------------------------------------------------------------
  // generateSnapshotStats, stated as functions

  /** `pixelCoverage` without its percentage string. */
  datatype Coverage = Coverage(changed: nat, total: nat)

  /** The statistics record without its percentage strings. */
  datatype SnapshotStats = SnapshotStats(
    totalChanges: nat,
    participantCount: nat,
    topContributors: seq<Entry<string>>,
    colorUsage: map<int, nat>,
    pixelCoverage: Coverage)

  const TOP_CONTRIBUTORS: nat := 5

  /** Changes per artist, artists by first contribution. */
  function Contributions(changes: seq<PixelChange>): seq<Entry<string>> {
    EntriesIn(Artists(changes), Participants(changes))
  }

  /** What `generateSnapshotStats` returns, or the TypeError it throws on an
      empty grid (reading the length of a missing first row). */
  function Stats(state: CanvasState): Result<SnapshotStats> {
    var p := state.pixels;
    if p == [] then Err(NO_FIRST_ROW)
    else Ok(SnapshotStats(
      |state.changes|,
      |Participants(state.changes)|,
      Top(Contributions(state.changes), TOP_CONTRIBUTORS),
      CountMap(Flatten(p)),
      Coverage(ChangedPixels(state.changes), |p| * |p[0]|)))
  }

  // ---------------------------------------------------------------------
  // Subscriber lists

  /** `array.indexOf(x)`. */
  function IndexOf(s: seq<nat>, x: nat): (i: int)
    ensures -1 <= i < |s|
    ensures i == -1 <==> x !in s
    ensures 0 <= i ==> s[i] == x && x !in s[..i]
  {
    if x in s then FirstIndex(s, x) else -1
  }

  /** The list after the unsubscribe handle of `x` has run. */
  function RemoveFirst(s: seq<nat>, x: nat): seq<nat> {
    var i := IndexOf(s, x);
    if i > -1 then s[..i] + s[i + 1..] else s
  }

  function Others(s: seq<nat>, x: nat): seq<nat> {
    Filter(s, (z: nat) => z != x)
  }

  /** Unsubscribing removes one registration of that callback and nothing
      else; the other callbacks keep their order. */
  lemma RemoveFirstRemovesOne(s: seq<nat>, x: nat)
    ensures multiset(RemoveFirst(s, x)) == multiset(s) - multiset{x}
    ensures Others(RemoveFirst(s, x), x) == Others(s, x)
  {
    var i := IndexOf(s, x);
    if i > -1 {
      assert s == s[..i] + [x] + s[i + 1..];
      FilterAppend(s[..i] + [x], s[i + 1..], (z: nat) => z != x);
      FilterAppend(s[..i], [x], (z: nat) => z != x);
      FilterAppend(s[..i], s[i + 1..], (z: nat) => z != x);
      assert Filter([x], (z: nat) => z != x) == [];
    } else {
      assert x !in multiset(s);
    }
  }

  /** Calling the handle of a callback registered once a second time
      changes nothing; a callback registered twice loses both registrations
      to two calls of either handle. */
  lemma UnsubscribeTwice(s: seq<nat>, x: nat)
    ensures multiset(s)[x] <= 1 ==> RemoveFirst(RemoveFirst(s, x), x) == RemoveFirst(s, x)
    ensures multiset(s)[x] == 2 ==> x !in RemoveFirst(RemoveFirst(s, x), x)
  {
    RemoveFirstRemovesOne(s, x);
    RemoveFirstRemovesOne(RemoveFirst(s, x), x);
    if multiset(s)[x] <= 1 {
      assert x !in multiset(RemoveFirst(s, x));
    }
  }

  // ---------------------------------------------------------------------
  // The service

  class SnapshotService {
    var statusCallbacks: seq<nat>
    var currentStatus: Status
    /** Every callback invocation so far, oldest first. */
    var deliveries: seq<Delivery>

    constructor ()
      ensures statusCallbacks == [] && currentStatus == INITIAL_STATUS && deliveries == []
    {
      statusCallbacks := [];
      currentStatus := INITIAL_STATUS;
      deliveries := [];
    }

    /** `onStatusUpdate`: register the callback and call it at once with the
        current status. */
    method OnStatusUpdate(callback: nat)
      modifies this
      ensures statusCallbacks == old(statusCallbacks) + [callback]
      ensures currentStatus == old(currentStatus)
      ensures deliveries == old(deliveries) + [Delivery(callback, currentStatus)]
    {
      statusCallbacks := statusCallbacks + [callback];
      deliveries := deliveries + [Delivery(callback, currentStatus)];
    }

    /** The handle `onStatusUpdate` returns, called for `callback`. */
    method Unsubscribe(callback: nat)
      modifies this
      ensures statusCallbacks == RemoveFirst(old(statusCallbacks), callback)
      ensures currentStatus == old(currentStatus) && deliveries == old(deliveries)
    {
      var index := IndexOf(statusCallbacks, callback);
      if index > -1 {
        statusCallbacks := statusCallbacks[..index] + statusCallbacks[index + 1..];
      }
    }

    /** `updateStatus`: merge, then tell every callback, in registration
        order. */
    method UpdateStatus(update: StatusUpdate)
      modifies this
      ensures currentStatus == Merge(old(currentStatus), update)
      ensures statusCallbacks == old(statusCallbacks)
      ensures deliveries == old(deliveries) + Broadcast(statusCallbacks, currentStatus)
    {
      currentStatus := Merge(currentStatus, update);
      var i := 0;
      while i < |statusCallbacks|
        invariant 0 <= i <= |statusCallbacks|
        invariant statusCallbacks == old(statusCallbacks)
        invariant currentStatus == Merge(old(currentStatus), update)
        invariant deliveries == old(deliveries) + Broadcast(statusCallbacks[..i], currentStatus)
      {
        assert statusCallbacks[..i + 1] == statusCallbacks[..i] + [statusCallbacks[i]];
        deliveries := deliveries + [Delivery(statusCallbacks[i], currentStatus)];
        i := i + 1;
      }
      assert statusCallbacks[..i] == statusCallbacks;
    }

    /** One more update of a run that started in status s0 with deliveries
        d0 and has published `done` so far. */
    method Publish(update: StatusUpdate, ghost s0: Status, ghost d0: seq<Delivery>, ghost done: seq<StatusUpdate>)
      requires currentStatus == Final(s0, done)
      requires deliveries == d0 + Broadcasts(statusCallbacks, Trail(s0, done))
      modifies this
      ensures statusCallbacks == old(statusCallbacks)
      ensures currentStatus == Final(s0, done + [update])
      ensures deliveries == d0 + Broadcasts(statusCallbacks, Trail(s0, done + [update]))
    {
      UpdateStatus(update);
      assert (done + [update])[..|done|] == done;
      assert Trail(s0, done + [update]) == Trail(s0, done) + [currentStatus];
    }

    method GetStatus() returns (s: Status)
      ensures s == currentStatus
    {
      s := currentStatus;
    }

    /** `reset`: back to the initial status, announced to every callback. */
    method Reset()
      modifies this
      ensures currentStatus == INITIAL_STATUS
      ensures statusCallbacks == old(statusCallbacks)
      ensures deliveries == old(deliveries) + Broadcast(statusCallbacks, INITIAL_STATUS)
    {
      UpdateStatus(RESET);
      ResetRestoresInitial(old(currentStatus));
    }

    /** `generateCleanImage`: size the canvas, paint the background unless
        it is transparent, paint the cells the paint rule keeps, encode. */
    method GenerateCleanImage(state: CanvasState, cfg: SnapshotConfig, env: RenderEnv) returns (r: Result<Blob>)
      ensures r == CleanImage(state, cfg, env)
    {
      var canvas := new CanvasElement(env.hasContext);
      if !canvas.hasContext {
        return Err(NO_CONTEXT);
      }
      var canvasSize := |state.pixels|;
      var p := cfg.pixelSize;
      canvas.SetWidth(canvasSize * p);
      canvas.SetHeight(canvasSize * p);
      if !cfg.backgroundTransparent {
        canvas.SetFillStyle(WHITE);
        canvas.FillRect(0, 0, canvas.width, canvas.height);
      }
      assert canvas.ops == Background(cfg.backgroundTransparent, canvasSize * p);
      DrawCleanCells(canvas, state.pixels, p, cfg.backgroundTransparent);
      var blob := canvas.ToBlob(cfg.quality, env.encodes);
      if blob.None? {
        return Err(NO_IMAGE_DATA);
      }
      return Ok(blob.value);
    }

    /** `generateSnapshotImage`. */
    method GenerateSnapshotImage(state: CanvasState, cfg: SnapshotConfig, env: RenderEnv) returns (r: Result<Blob>)
      ensures r == SnapshotImage(state, cfg, env)
    {
      if cfg.includeGrid {
        r := CanvasStateToImage(state, cfg.pixelSize, cfg.quality, env);
      } else {
        r := GenerateCleanImage(state, cfg, env);
      }
    }

    /** `generatePreview`: replay the log, then a clean opaque image with
        blocks of `floor(previewSize / rows)` units. */
    method GeneratePreview(pixelChanges: seq<PixelChange>, previewSize: nat, env: RenderEnv) returns (r: Result<Blob>)
      ensures r == CleanImage(Reconstruct(pixelChanges, CANVAS_SIZE), PreviewConfig(previewSize), env)
    {
      var canvasState := CalculateCanvasState(pixelChanges, CANVAS_SIZE);
      var pixelSize := previewSize / |canvasState.pixels|;
      r := GenerateCleanImage(canvasState, SnapshotConfig(pixelSize, 0.8, false, false), env);
    }

    /** `generateSnapshot`: replay and validate the log, render, build the
        metadata (with an empty image hash), publishing a status before
        each step; on failure publish the error status and re-throw. */
    method GenerateSnapshot(snapshotId: int, pixelChanges: seq<PixelChange>, config: ConfigOverrides, env: ItemEnv)
      returns (r: Result<Snapshot>)
      modifies this
      ensures r == Outcome(snapshotId, pixelChanges, Resolve(config), env)
      ensures statusCallbacks == old(statusCallbacks)
      ensures currentStatus == Final(old(currentStatus), Steps(snapshotId, pixelChanges, Resolve(config), env))
      ensures deliveries == old(deliveries) +
        Broadcasts(statusCallbacks, Trail(old(currentStatus), Steps(snapshotId, pixelChanges, Resolve(config), env)))
    {
      var finalConfig := Resolve(config);
      ghost var s0, d0 := currentStatus, deliveries;
      Publish(CalculatingUpdate(snapshotId), s0, d0, []);
      var canvasState := CalculateCanvasState(pixelChanges, CANVAS_SIZE);
      r := RunSteps(snapshotId, canvasState, finalConfig, env, s0, d0);
    }

    /** The steps of `generateSnapshot` after the first status update. */
    method RunSteps(snapshotId: int, canvasState: CanvasState, finalConfig: SnapshotConfig, env: ItemEnv,
                    ghost s0: Status, ghost d0: seq<Delivery>)
      returns (r: Result<Snapshot>)
      requires currentStatus == Final(s0, [CalculatingUpdate(snapshotId)])
      requires deliveries == d0 + Broadcasts(statusCallbacks, Trail(s0, [CalculatingUpdate(snapshotId)]))
      modifies this
      ensures r == StateOutcome(snapshotId, canvasState, finalConfig, env)
      ensures statusCallbacks == old(statusCallbacks)
      ensures currentStatus == Final(s0, StateSteps(snapshotId, canvasState, finalConfig, env))
      ensures deliveries == d0 + Broadcasts(statusCallbacks, Trail(s0, StateSteps(snapshotId, canvasState, finalConfig, env)))
    {
      ghost var done: seq<StatusUpdate> := [CalculatingUpdate(snapshotId)];
      var valid, errors := ValidateCanvasState(canvasState);
      if !valid {
        var message := InvalidStateMessage(errors);
        assert done + [FailureUpdate(message)] == StateSteps(snapshotId, canvasState, finalConfig, env);
        Publish(FailureUpdate(message), s0, d0, done);
        return Err(message);
      }
      Publish(RENDERING_IMAGE, s0, d0, done);
      done := done + [RENDERING_IMAGE];
      var imageBlob := GenerateSnapshotImage(canvasState, finalConfig, env.render);
      if imageBlob.Err? {
        assert done + [FailureUpdate(imageBlob.message)] == StateSteps(snapshotId, canvasState, finalConfig, env);
        Publish(FailureUpdate(imageBlob.message), s0, d0, done);
        return Err(imageBlob.message);
      }
      Publish(RENDERING_METADATA, s0, d0, done);
      done := done + [RENDERING_METADATA];
      var metadata := GenerateSnapshotMetadata(snapshotId, canvasState, "", env.now, env.today);
      assert done + [SNAPSHOT_DONE] == StateSteps(snapshotId, canvasState, finalConfig, env);
      Publish(SNAPSHOT_DONE, s0, d0, done);
      return Ok(Snapshot(imageBlob.value, metadata.value, canvasState));
    }

    /** `batchGenerateSnapshots`: the requests in order, each announced with
        its position, failures skipped, then a closing status. `envs[i]` is
        the environment of request i. */
    method BatchGenerateSnapshots(snapshots: seq<SnapshotRequest>, config: ConfigOverrides, envs: seq<ItemEnv>)
      returns (results: seq<BatchEntry>)
      requires |envs| == |snapshots|
      modifies this
      ensures results == BatchResults(snapshots, Resolve(config), envs)
      ensures statusCallbacks == old(statusCallbacks)
      ensures currentStatus == Final(old(currentStatus), BatchRun(snapshots, Resolve(config), envs))
      ensures deliveries == old(deliveries) +
        Broadcasts(statusCallbacks, Trail(old(currentStatus), BatchRun(snapshots, Resolve(config), envs)))
    {
      RunsAreRunsOf(snapshots, Resolve(config), envs);
      results := BatchLoop(snapshots, config, envs, Runs(snapshots, Resolve(config), envs));
    }

    /** The loop of `batchGenerateSnapshots` and its closing update, for
        requests whose runs are `runs`. */
    method BatchLoop(snapshots: seq<SnapshotRequest>, config: ConfigOverrides, envs: seq<ItemEnv>, ghost runs: seq<ItemRun>)
      returns (results: seq<BatchEntry>)
      requires |envs| == |snapshots|
      requires RunsOf(runs, snapshots, Resolve(config), envs)
      modifies this
      ensures results == Collect(snapshots, runs, |snapshots|)
      ensures statusCallbacks == old(statusCallbacks)
      ensures currentStatus ==
        Final(old(currentStatus), Announced(snapshots, runs, |snapshots|) + [BatchDoneUpdate(|results|, |snapshots|)])
      ensures deliveries == old(deliveries) + Broadcasts(statusCallbacks,
        Trail(old(currentStatus), Announced(snapshots, runs, |snapshots|) + [BatchDoneUpdate(|results|, |snapshots|)]))
    {
      ghost var s0, d0 := currentStatus, deliveries;
      results := [];
      var i := 0;
      assert d0 + Broadcasts(statusCallbacks, []) == d0;
      while i < |snapshots|
        invariant 0 <= i <= |snapshots|
        invariant statusCallbacks == old(statusCallbacks)
        invariant results == Collect(snapshots, runs, i)
        invariant currentStatus == Final(s0, Announced(snapshots, runs, i))
        invariant deliveries == d0 + Broadcasts(statusCallbacks, Trail(s0, Announced(snapshots, runs, i)))
      {
        var result := BatchItem(snapshots, config, envs, i, runs, s0, d0);
        if result.Ok? {
          results := results + [BatchEntry(snapshots[i].id, result.value)];
        }
        i := i + 1;
      }
      Publish(BatchDoneUpdate(|results|, |snapshots|), s0, d0, Announced(snapshots, runs, i));
    }

    /** One pass of the batch loop: announce request i, then run it. */
    method BatchItem(snapshots: seq<SnapshotRequest>, config: ConfigOverrides, envs: seq<ItemEnv>, i: nat,
                     ghost runs: seq<ItemRun>, ghost s0: Status, ghost d0: seq<Delivery>)
      returns (result: Result<Snapshot>)
      requires i < |snapshots| == |envs|
      requires RunsOf(runs, snapshots, Resolve(config), envs)
      requires currentStatus == Final(s0, Announced(snapshots, runs, i))
      requires deliveries == d0 + Broadcasts(statusCallbacks, Trail(s0, Announced(snapshots, runs, i)))
      modifies this
      ensures result == runs[i].result
      ensures statusCallbacks == old(statusCallbacks)
      ensures currentStatus == Final(s0, Announced(snapshots, runs, i + 1))
      ensures deliveries == d0 + Broadcasts(statusCallbacks, Trail(s0, Announced(snapshots, runs, i + 1)))
    {
      var snapshot := snapshots[i];
      ghost var run := RunOf(snapshot, Resolve(config), envs[i]);
      assert runs[i] == run;
      ghost var done := Announced(snapshots, runs, i);
      var announce := BatchItemUpdate(i, |snapshots|, snapshot.id);
      Publish(announce, s0, d0, done);
      ghost var mid, before := currentStatus, deliveries;
      result := GenerateSnapshot(snapshot.id, snapshot.changes, config, envs[i]);
      ghost var pre := done + [announce];
      RunSplit(s0, statusCallbacks, pre, run.steps);
      assert Announced(snapshots, runs, i + 1) == pre + run.steps;
      ghost var x, y := Broadcasts(statusCallbacks, Trail(s0, pre)), Broadcasts(statusCallbacks, Trail(mid, run.steps));
      assert deliveries == (d0 + x) + y;
      AppendAssoc(d0, x, y);
    }

    /** `generateSnapshotStats`: count changes per artist in a loop, rank
        them, count colours over every cell in the nested loops, and measure
        coverage against rows × length of the first row. */
    method GenerateSnapshotStats(canvasState: CanvasState) returns (r: Result<SnapshotStats>)
      ensures r == Stats(canvasState)
    {
      var participants := Participants(canvasState.changes);
      var artists := Artists(canvasState.changes);
      var pixelCounts, order := CountOccurrences(artists);
      assert forall i :: 0 <= i < |order| ==> order[i] in artists by {
        DistinctElements(artists);
      }
      EntriesOfCountMap(artists, order);
      var topContributors := Top(EntriesOf(pixelCounts, order), TOP_CONTRIBUTORS);
      var colorUsage := CountColors(canvasState.pixels);
      if |canvasState.pixels| == 0 {
        return Err(NO_FIRST_ROW);
      }
      var totalPixels := |canvasState.pixels| * |canvasState.pixels[0]|;
      var changedPixels := ChangedPixels(canvasState.changes);
      r := Ok(SnapshotStats(|canvasState.changes|, |participants|, topContributors, colorUsage,
                            Coverage(changedPixels, totalPixels)));
    }
  }

  /** The colour loops of `generateSnapshotStats`: every cell of every row,
      rows of any length. */
  method CountColors(pixels: seq<seq<int>>) returns (colorUsage: map<int, nat>)
    ensures colorUsage == CountMap(Flatten(pixels))
  {
    colorUsage := map[];
    var y := 0;
    while y < |pixels|
      invariant 0 <= y <= |pixels|
      invariant colorUsage == CountMap(Flatten(pixels[..y]))
    {
      assert pixels[..y + 1][..y] == pixels[..y];
      colorUsage := CountRow(colorUsage, Flatten(pixels[..y]), pixels[y]);
      y := y + 1;
    }
    assert pixels[..y] == pixels;
  }

  method CountRow(usage: map<int, nat>, ghost before: seq<int>, row: seq<int>) returns (colorUsage: map<int, nat>)
    requires usage == CountMap(before)
    ensures colorUsage == CountMap(before + row)
  {
    colorUsage := usage;
    var x := 0;
    assert before + row[..x] == before;
    while x < |row|
      invariant 0 <= x <= |row|
      invariant colorUsage == CountMap(before + row[..x])
    {
      var color := row[x];
      assert (before + row[..x + 1])[..|before + row[..x + 1]| - 1] == before + row[..x];
      colorUsage := colorUsage[color := (if color in colorUsage then colorUsage[color] else 0) + 1];
      x := x + 1;
    }
    assert row[..x] == row;
  }

  // ---------------------------------------------------------------------
  // Properties of a run

  lemma TrailSnoc(s: Status, us: seq<StatusUpdate>, u: StatusUpdate)
    ensures Final(s, us + [u]) == Merge(Final(s, us), u)
    ensures Trail(s, us + [u]) == Trail(s, us) + [Merge(Final(s, us), u)]
  {
    assert (us + [u])[..|us|] == us;
  }

  /** Every change lands on the 16×16 canvas with a palette colour. */
  predicate Placeable(changes: seq<PixelChange>) {
    forall i :: 0 <= i < |changes| ==> InBounds(changes[i], CANVAS_SIZE) && ValidColor(changes[i].color)
  }

  /** The replayed state passes validation exactly when every change is
      placeable. */
  lemma ReplayValidIff(changes: seq<PixelChange>)
    ensures ValidationErrors(Reconstruct(changes, CANVAS_SIZE)) == [] <==> Placeable(changes)
  {
    var r := Reconstruct(changes, CANVAS_SIZE);
    ValidationErrorsEmptyIff(r);
    if Placeable(changes) {
      ReconstructIsValid(changes);
    } else {
      var i :| 0 <= i < |changes| && !(InBounds(changes[i], CANVAS_SIZE) && ValidColor(changes[i].color));
      ReconstructSortsLog(changes, CANVAS_SIZE);
      assert changes[i] in multiset(r.changes);
      var k :| 0 <= k < |r.changes| && r.changes[k] == changes[i];
    }
  }

  /** `generateSnapshot` succeeds exactly when every change is placeable,
      the browser can render and encode, and the blocks are at least one
      pixel wide (a 0×0 bitmap encodes to `null`); the snapshot then holds the replayed
      state, an image of its side length times the block size, and the
      metadata of that state. */
  lemma SnapshotSucceedsIff(id: int, changes: seq<PixelChange>, cfg: SnapshotConfig, env: ItemEnv)
    ensures Outcome(id, changes, cfg, env).Ok? <==>
      Placeable(changes) && env.render.hasContext && env.render.encodes && cfg.pixelSize > 0
    ensures var r := Outcome(id, changes, cfg, env);
      r.Ok? ==> r.value.canvasState == Reconstruct(changes, CANVAS_SIZE) &&
                r.value.imageBlob.surface.width == CANVAS_SIZE * cfg.pixelSize &&
                Metadata(id, r.value.canvasState, env.now, env.today) == Ok(r.value.metadata)
    ensures var r := Outcome(id, changes, cfg, env);
      r.Err? ==> if !Placeable(changes) then r.message == InvalidStateMessage(ValidationErrors(Reconstruct(changes, CANVAS_SIZE)))
                 else r.message == if env.render.hasContext then NO_IMAGE_DATA else NO_CONTEXT
  {
    ReplayValidIff(changes);
  }

  /** The updates of a run that succeeds. */
  function SuccessSteps(id: int): seq<StatusUpdate> {
    [CalculatingUpdate(id)] + [RENDERING_IMAGE] + [RENDERING_METADATA] + [SNAPSHOT_DONE]
  }

  lemma SucceedingRunSteps(id: int, changes: seq<PixelChange>, cfg: SnapshotConfig, env: ItemEnv)
    requires Outcome(id, changes, cfg, env).Ok?
    ensures Steps(id, changes, cfg, env) == SuccessSteps(id)
  {
  }

  /** The four statuses of a successful run: calculating at 10%, rendering
      at 40% and 70%, completed at 100%, all naming the snapshot and leaving
      the hash and error fields as they were. */
  lemma SuccessTrail(s: Status, id: int)
    ensures var t := Trail(s, SuccessSteps(id));
      |t| == 4 &&
      t[0].phase == Calculating && t[1].phase == Rendering && t[2].phase == Rendering && t[3].phase == Completed &&
      t[0].progress == 10 && t[1].progress == 40 && t[2].progress == 70 && t[3].progress == 100 &&
      forall k :: 0 <= k < 4 ==> t[k].snapshotId == Some(id) && t[k].ipfsHash == s.ipfsHash && t[k].error == s.error
    ensures Final(s, SuccessSteps(id)) == Trail(s, SuccessSteps(id))[3]
  {
    var a := [CalculatingUpdate(id)];
    var b := a + [RENDERING_IMAGE];
    var c := b + [RENDERING_METADATA];
    TrailSnoc(s, [], CalculatingUpdate(id));
    assert [] + [CalculatingUpdate(id)] == a;
    TrailSnoc(s, a, RENDERING_IMAGE);
    TrailSnoc(s, b, RENDERING_METADATA);
    TrailSnoc(s, c, SNAPSHOT_DONE);
  }

  /** A successful `generateSnapshot` publishes exactly those four
      statuses. */
  lemma SuccessfulRunPublishes(s: Status, id: int, changes: seq<PixelChange>, cfg: SnapshotConfig, env: ItemEnv)
    requires Outcome(id, changes, cfg, env).Ok?
    ensures |Steps(id, changes, cfg, env)| == 4
    ensures var t := Trail(s, Steps(id, changes, cfg, env));
      t[0].phase == Calculating && t[1].phase == Rendering && t[2].phase == Rendering && t[3].phase == Completed &&
      t[0].progress == 10 && t[1].progress == 40 && t[2].progress == 70 && t[3].progress == 100 &&
      forall k :: 0 <= k < 4 ==> t[k].snapshotId == Some(id) && t[k].ipfsHash == s.ipfsHash && t[k].error == s.error
  {
    SucceedingRunSteps(id, changes, cfg, env);
    SuccessTrail(s, id);
  }

  lemma FailingRunSteps(id: int, changes: seq<PixelChange>, cfg: SnapshotConfig, env: ItemEnv)
    requires Outcome(id, changes, cfg, env).Err?
    ensures Steps(id, changes, cfg, env) ==
      (if Placeable(changes) then [CalculatingUpdate(id)] + [RENDERING_IMAGE] else [CalculatingUpdate(id)]) +
      [FailureUpdate(Outcome(id, changes, cfg, env).message)]
  {
    ReplayValidIff(changes);
  }

  /** A failed run publishes the calculating status, the first rendering
      status if the state was valid, then the error status carrying the
      message the call re-throws; a state that fails validation is never
      rendered. */
  lemma FailedRunPublishes(s: Status, id: int, changes: seq<PixelChange>, cfg: SnapshotConfig, env: ItemEnv)
    requires Outcome(id, changes, cfg, env).Err?
    ensures var us := Steps(id, changes, cfg, env);
      |us| == (if Placeable(changes) then 3 else 2) && us[0] == CalculatingUpdate(id) &&
      us[|us| - 1] == FailureUpdate(Outcome(id, changes, cfg, env).message)
    ensures var f := Final(s, Steps(id, changes, cfg, env));
      f.phase == Failed && f.progress == 0 && f.message == "快照生成失败" &&
      f.error == Some(Outcome(id, changes, cfg, env).message) && f.snapshotId == Some(id)
  {
    FailingRunSteps(id, changes, cfg, env);
    var m := Outcome(id, changes, cfg, env).message;
    var p := if Placeable(changes) then [CalculatingUpdate(id)] + [RENDERING_IMAGE] else [CalculatingUpdate(id)];
    FailureTrail(s, id, p, m);
  }

  lemma FailureTrail(s: Status, id: int, p: seq<StatusUpdate>, m: string)
    requires p == [CalculatingUpdate(id)] || p == [CalculatingUpdate(id)] + [RENDERING_IMAGE]
    ensures var f := Final(s, p + [FailureUpdate(m)]);
      f.phase == Failed && f.progress == 0 && f.message == "快照生成失败" && f.error == Some(m) && f.snapshotId == Some(id)
  {
    TrailSnoc(s, p, FailureUpdate(m));
    FinalKeepsSnapshotId(s, p, id);
  }

  /** After a prefix that starts by naming the snapshot and never renames
      it, the status still names it. */
  lemma {:induction false} FinalKeepsSnapshotId(s: Status, us: seq<StatusUpdate>, id: int)
    requires |us| >= 1 && us[0] == CalculatingUpdate(id)
    requires forall k :: 1 <= k < |us| ==> us[k].snapshotId == Keep
    ensures Final(s, us).snapshotId == Some(id)
  {
    if |us| > 1 {
      var p := us[..|us| - 1];
      FinalKeepsSnapshotId(s, p, id);
    } else {
      assert us[..0] == [];
    }
  }

  /** The error field after a run: the message of its failure, or what it
      was before when the run succeeds. */
  lemma RunErrorField(s: Status, id: int, changes: seq<PixelChange>, cfg: SnapshotConfig, env: ItemEnv)
    ensures var r := Outcome(id, changes, cfg, env);
      Final(s, Steps(id, changes, cfg, env)).error == if r.Err? then Some(r.message) else s.error
  {
    if Outcome(id, changes, cfg, env).Err? {
      FailedRunPublishes(s, id, changes, cfg, env);
    } else {
      SucceedingRunSteps(id, changes, cfg, env);
      SuccessTrail(s, id);
    }
  }

  // ---------------------------------------------------------------------
  // Properties of a batch

  lemma MulCancel(x: int, y: int, n: nat)
    requires n > 0 && x * n < y * n
    ensures x < y
  {
  }

  lemma DivMonotone(a: nat, b: nat, n: nat)
    requires a <= b && n > 0
    ensures a / n <= b / n
  {
    var qa, qb := a / n, b / n;
    assert qa * n <= a;
    assert b < (qb + 1) * n;
    MulCancel(qa, qb + 1, n);
  }

  lemma DivBelow(a: nat, n: nat, m: nat)
    requires n > 0 && a < m * n
    ensures a / n < m
  {
    var q := a / n;
    assert q * n <= a;
    MulCancel(q, m, n);
  }

  /** The announced progress starts at 0, never decreases along the batch
      and stays below 100 until the closing status. */
  lemma BatchProgressBounds(i: nat, j: nat, n: nat)
    requires i <= j < n
    ensures BatchProgress(0, n) == 0
    ensures 0 <= BatchProgress(i, n) <= BatchProgress(j, n) <= 99
  {
    assert BatchProgress(i, n) <= BatchProgress(j, n) by {
      DivMonotone(i * 100, j * 100, n);
    }
    assert BatchProgress(j, n) < 100 by {
      DivBelow(j * 100, n, 100);
    }
  }

  /** The batch keeps the successes, each with its request's id, in request
      order; it keeps every request when none fails. */
  lemma {:induction false} CollectKeepsSuccesses(reqs: seq<SnapshotRequest>, runs: seq<ItemRun>, k: nat)
    requires k <= |runs| == |reqs|
    ensures |Collect(reqs, runs, k)| <= k
    ensures forall e :: e in Collect(reqs, runs, k) ==>
      exists j :: 0 <= j < k && runs[j].result.Ok? && e == BatchEntry(reqs[j].id, runs[j].result.value)
  {
    if k > 0 {
      CollectKeepsSuccesses(reqs, runs, k - 1);
      var r := runs[k - 1].result;
      var tail := if r.Ok? then [BatchEntry(reqs[k - 1].id, r.value)] else [];
      assert Collect(reqs, runs, k) == Collect(reqs, runs, k - 1) + tail;
      forall e | e in Collect(reqs, runs, k)
        ensures exists j :: 0 <= j < k && runs[j].result.Ok? && e == BatchEntry(reqs[j].id, runs[j].result.value)
      {
        if e !in Collect(reqs, runs, k - 1) {
          assert e in tail;
          assert runs[k - 1].result.Ok? && e == BatchEntry(reqs[k - 1].id, runs[k - 1].result.value);
        }
      }
    }
  }

  lemma {:induction false} CollectKeepsAll(reqs: seq<SnapshotRequest>, runs: seq<ItemRun>, k: nat)
    requires k <= |runs| == |reqs|
    requires forall j :: 0 <= j < k ==> runs[j].result.Ok?
    ensures |Collect(reqs, runs, k)| == k
    ensures forall j :: 0 <= j < k ==> Collect(reqs, runs, k)[j] == BatchEntry(reqs[j].id, runs[j].result.value)
  {
    if k > 0 {
      CollectKeepsAll(reqs, runs, k - 1);
    }
  }

  /** `batchGenerateSnapshots` returns at most one entry per request. */
  lemma BatchResultsBound(reqs: seq<SnapshotRequest>, cfg: SnapshotConfig, envs: seq<ItemEnv>)
    requires |reqs| <= |envs|
    ensures |BatchResults(reqs, cfg, envs)| <= |reqs|
  {
    CollectKeepsSuccesses(reqs, Runs(reqs, cfg, envs), |reqs|);
  }

  /** Each entry it returns is a successful `generateSnapshot` of one of
      the requests, under that request's id. */
  lemma BatchResultsAreSuccesses(reqs: seq<SnapshotRequest>, cfg: SnapshotConfig, envs: seq<ItemEnv>)
    requires |reqs| <= |envs|
    ensures forall e :: e in BatchResults(reqs, cfg, envs) ==>
      exists j :: 0 <= j < |reqs| && e.snapshotId == reqs[j].id &&
        Outcome(reqs[j].id, reqs[j].changes, cfg, envs[j]) == Ok(e.snapshot)
  {
    CollectKeepsSuccesses(reqs, Runs(reqs, cfg, envs), |reqs|);
  }

  /** When every request succeeds it returns all of them, in request
      order. */
  lemma BatchKeepsEverySuccess(reqs: seq<SnapshotRequest>, cfg: SnapshotConfig, envs: seq<ItemEnv>)
    requires |reqs| <= |envs|
    requires forall j :: 0 <= j < |reqs| ==> Outcome(reqs[j].id, reqs[j].changes, cfg, envs[j]).Ok?
    ensures |BatchResults(reqs, cfg, envs)| == |reqs|
    ensures forall j :: 0 <= j < |reqs| ==> BatchResults(reqs, cfg, envs)[j].snapshotId == reqs[j].id
  {
    var runs := Runs(reqs, cfg, envs);
    forall j | 0 <= j < |reqs|
      ensures runs[j].result.Ok?
    {
      assert runs[j].result == Outcome(reqs[j].id, reqs[j].changes, cfg, envs[j]);
    }
    CollectKeepsAll(reqs, runs, |reqs|);
  }

  /** The most recent failure among the first k runs, or `e` if none. */
  function LastFailure(e: Option<string>, runs: seq<ItemRun>, k: nat): Option<string>
    requires k <= |runs|
  {
    if k == 0 then e
    else if runs[k - 1].result.Err? then Some(runs[k - 1].result.message)
    else LastFailure(e, runs, k - 1)
  }

  lemma {:induction false} AnnouncedErrorField(s: Status, reqs: seq<SnapshotRequest>, cfg: SnapshotConfig,
                                               envs: seq<ItemEnv>, runs: seq<ItemRun>, k: nat)
    requires RunsOf(runs, reqs, cfg, envs) && k <= |reqs|
    ensures Final(s, Announced(reqs, runs, k)).error == LastFailure(s.error, runs, k)
  {
    if k > 0 {
      AnnouncedErrorField(s, reqs, cfg, envs, runs, k - 1);
      var pre := Announced(reqs, runs, k - 1) + [BatchItemUpdate(k - 1, |reqs|, reqs[k - 1].id)];
      RunAppend(s, pre, runs[k - 1].steps);
      TrailSnoc(s, Announced(reqs, runs, k - 1), BatchItemUpdate(k - 1, |reqs|, reqs[k - 1].id));
      RunsErrorField(Final(s, pre), reqs, cfg, envs, runs, k - 1);
    }
  }

  lemma RunsErrorField(t: Status, reqs: seq<SnapshotRequest>, cfg: SnapshotConfig, envs: seq<ItemEnv>,
                       runs: seq<ItemRun>, j: nat)
    requires RunsOf(runs, reqs, cfg, envs) && j < |runs|
    ensures Final(t, runs[j].steps).error == if runs[j].result.Err? then Some(runs[j].result.message) else t.error
  {
    assert runs[j] == RunOf(reqs[j], cfg, envs[j]);
    RunErrorField(t, reqs[j].id, reqs[j].changes, cfg, envs[j]);
  }

  /** The closing status of a batch: completed, at 100%, reporting the
      successes out of the requests; its error field still holds the
      message of the last failed request (or what it held before the batch
      when none failed), since no step of a successful run clears it. */
  lemma BatchEndsCompleted(s: Status, reqs: seq<SnapshotRequest>, cfg: SnapshotConfig, envs: seq<ItemEnv>)
    requires |reqs| <= |envs|
    ensures var f := Final(s, BatchRun(reqs, cfg, envs));
      f.phase == Completed && f.progress == 100 &&
      f.message == "批量处理完成，成功生成 " + NatToString(|BatchResults(reqs, cfg, envs)|) + "/" + NatToString(|reqs|) + " 个快照" &&
      f.error == LastFailure(s.error, Runs(reqs, cfg, envs), |reqs|)
  {
    var runs := Runs(reqs, cfg, envs);
    RunsAreRunsOf(reqs, cfg, envs);
    AnnouncedErrorField(s, reqs, cfg, envs, runs, |reqs|);
    TrailSnoc(s, Announced(reqs, runs, |reqs|), BatchDoneUpdate(|BatchResults(reqs, cfg, envs)|, |reqs|));
  }

  /** An empty batch still completes, reporting 0/0 and returning nothing. */
  lemma EmptyBatchCompletes(s: Status, cfg: SnapshotConfig)
    ensures BatchResults([], cfg, []) == []
    ensures BatchRun([], cfg, []) == [BatchDoneUpdate(0, 0)]
    ensures Final(s, BatchRun([], cfg, [])).message == "批量处理完成，成功生成 0/0 个快照"
  {
    TrailSnoc(s, [], BatchDoneUpdate(0, 0));
    assert [] + [BatchDoneUpdate(0, 0)] == [BatchDoneUpdate(0, 0)];
  }

  // ---------------------------------------------------------------------
  // Properties of the statistics

  /** The statistics of a non-empty grid: the per-artist counts add up to
      the number of changes; the top list keeps the five (or fewer) largest
      counts in non-increasing order; the colour table counts every cell;
      an empty grid is the TypeError. */
  lemma StatsDescribeState(state: CanvasState)
    ensures Stats(state).Err? <==> state.pixels == []
    ensures Stats(state).Ok? ==>
      var st := Stats(state).value;
      var contributions := Contributions(state.changes);
      Total(contributions) == st.totalChanges == |state.changes| &&
      st.participantCount == |contributions| &&
      (forall i :: 0 <= i < |contributions| ==>
         contributions[i] == Entry(Participants(state.changes)[i], Count(Artists(state.changes), Participants(state.changes)[i]))) &&
      |st.topContributors| == (if st.participantCount < TOP_CONTRIBUTORS then st.participantCount else TOP_CONTRIBUTORS) &&
      (forall i :: 0 <= i < |st.topContributors| ==> st.topContributors[i] in contributions) &&
      (forall i, j :: 0 <= i < j < |st.topContributors| ==> st.topContributors[i].count >= st.topContributors[j].count) &&
      (forall c :: c in st.colorUsage <==> c in Flatten(state.pixels)) &&
      (forall c :: c in st.colorUsage ==> st.colorUsage[c] == Count(Flatten(state.pixels), c))
  {
    if state.pixels != [] {
      var artists := Artists(state.changes);
      DistinctElements(artists);
      TallyAccountsForAll(artists, Participants(state.changes));
      TopIsRanking(Contributions(state.changes), TOP_CONTRIBUTORS);
      CountMapCounts(Flatten(state.pixels));
    }
  }

  /** Coverage of a replayed log of placeable changes: no more cells than
      the 16×16 canvas has. */
  lemma StatsCoverageOfReplay(changes: seq<PixelChange>)
    requires Placeable(changes)
    ensures var st := Stats(Reconstruct(changes, CANVAS_SIZE));
      st.Ok? && st.value.pixelCoverage.total == CANVAS_SIZE * CANVAS_SIZE &&
      st.value.pixelCoverage.changed <= st.value.pixelCoverage.total
  {
    var r := Reconstruct(changes, CANVAS_SIZE);
    ReconstructSortsLog(changes, CANVAS_SIZE);
    forall i | 0 <= i < |r.changes| ensures InBounds(r.changes[i], CANVAS_SIZE) {
      assert r.changes[i] in multiset(changes);
      var k :| 0 <= k < |changes| && changes[k] == r.changes[i];
    }
    CoverageAtMostFull(r.changes, CANVAS_SIZE);
  }

  // ---------------------------------------------------------------------
  // Subscribing and unsubscribing

  /** Registering a callback that was not registered and calling its handle
      restores the subscriber list. */
  lemma SubscribeUnsubscribeRoundTrip(s: seq<nat>, x: nat)
    requires x !in s
    ensures RemoveFirst(s + [x], x) == s
  {
    assert (s + [x])[..|s|] == s;
    assert (s + [x])[|s| + 1..] == [];
  }
}
