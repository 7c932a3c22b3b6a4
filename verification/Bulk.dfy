/**
 Bulk creates, upserts and updates: rows prepared, written in batches, finished, and counted,
 across the transaction modes and error modes.

 Each input row carries how it comes out at each stage (`Row`), so a statement over all rows
 is a statement over everything the resource's changes, hooks and data layer may do.
 */
module Bulk {
  import opened Wrappers

  datatype Error = Stale(message: string) | Failed(message: string)

  datatype WriteResult = Written | RowFails(error: Error) | BatchFails(error: Error)

  /** One input row: whether its changeset builds and prepares, what the data layer says to
      writing it, whether its after-action hooks finish, and whether what was stored reads back
      as a record. */
  datatype Row = Row(
    id: nat,
    built: Option<Error>,
    prepared: Option<Error>,
    write: WriteResult,
    finish: Option<Error>,
    unreadable: Option<Error>)

  /** Rows created together in one write, upserted one at a time, or updated together with a
      result each. */
  datatype Kind = Create | Upsert | Update

  datatype Mode = All | Batch | Off

  datatype Options = Options(
    kind: Kind,
    batchSize: Option<nat>,
    returnRecords: bool,
    stopOnError: bool,
    notify: bool,
    mode: Mode)

  type Outcome = Result<nat, Error>

  datatype Hook = Hook(row: nat, outcome: Outcome)

  /** Where the action stands with transactions. `buffered` is whether the context it was called
      in already holds notifications back. */
  datatype Scope = Scope(perBatch: bool, whole: bool, buffered: bool) {
    predicate Transactional() {
      perBatch || whole
    }
  }

  function ScopeFor(opts: Options, canTransact: bool, buffered: bool): Scope {
    Scope(canTransact && opts.mode == Batch, canTransact && opts.mode == All, buffered)
  }

  // ---------- how one batch comes out

  predicate WriteFails(kind: Kind, row: Row) {
    row.write.BatchFails? || (kind == Create && row.write.RowFails?)
  }

  /** The whole write fails with the first row it fails on. An upsert is never written with
      others, so it only ever fails its own row. */
  function WriteFailure(kind: Kind, batch: seq<Row>): Option<Error> {
    if kind == Upsert || batch == [] then None
    else if WriteFails(kind, batch[0]) then Some(batch[0].write.error)
    else WriteFailure(kind, batch[1..])
  }

  function RowOutcome(row: Row): Outcome {
    if row.write != Written then Err(row.write.error)
    else if row.finish.Some? then Err(row.finish.value)
    else Ok(row.id)
  }

  predicate Failing(outcome: Outcome) {
    outcome.Err? && outcome.error.Failed?
  }

  predicate IsStale(outcome: Outcome) {
    outcome.Err? && outcome.error.Stale?
  }

  /** Finishing rows in order: in a transaction, the first that fails fails the batch; one left
      out as stale does not. */
  function FinishOutcomes(batch: seq<Row>, transactional: bool): Result<seq<Outcome>, Error> {
    if batch == [] then Ok([])
    else if transactional && Failing(RowOutcome(batch[0])) then Err(RowOutcome(batch[0]).error)
    else match FinishOutcomes(batch[1..], transactional)
         case Err(e) => Err(e)
         case Ok(rest) => Ok([RowOutcome(batch[0])] + rest)
  }

  function BatchOutcome(kind: Kind, batch: seq<Row>, transactional: bool): Result<seq<Outcome>, Error> {
    match WriteFailure(kind, batch)
    case Some(e) => Err(e)
    case None => FinishOutcomes(batch, transactional)
  }

  /** The rows the data layer has written when its write returns. */
  function WrittenRows(kind: Kind, batch: seq<Row>): seq<nat> {
    if batch == [] then []
    else if kind != Upsert && WriteFails(kind, batch[0]) then []
    else (if batch[0].write == Written then [batch[0].id] else []) + WrittenRows(kind, batch[1..])
  }

  /** The notifications finishing dispatches, in order, up to a failure that ends the batch. */
  function FinishedRows(batch: seq<Row>, transactional: bool): seq<nat> {
    if batch == [] || (transactional && Failing(RowOutcome(batch[0]))) then []
    else (if RowOutcome(batch[0]).Ok? then [batch[0].id] else []) + FinishedRows(batch[1..], transactional)
  }

  // ---------- what an action adds up to

  /** What a stretch of the action counts, runs and leaves behind. `stale` counts the rows left out;
      `rows` are those stored, `sent` the notifications dispatched. */
  datatype Summary = Summary(
    count: nat, errorCount: nat, stale: nat,
    records: seq<nat>, errors: seq<Error>,
    hooks: seq<Hook>, rows: seq<nat>, sent: seq<nat>)
  {
    function Plus(next: Summary): Summary {
      Summary(count + next.count, errorCount + next.errorCount, stale + next.stale,
              records + next.records, errors + next.errors,
              hooks + next.hooks, rows + next.rows, sent + next.sent)
    }
  }

  const NOTHING := Summary(0, 0, 0, [], [], [], [], [])

  /** A stretch of the action, and the error that ended it early, if one did. */
  datatype Progress = Progress(summary: Summary, stopped: Option<Error>)

  /** An error counted, or returned where the action stops on the first. */
  function FailProgress(e: Error, stops: bool): Progress {
    if stops then Progress(NOTHING, Some(e)) else Progress(NOTHING.(errorCount := 1, errors := [e]), None)
  }

  function Continue(first: Progress, second: Progress): Progress {
    if first.stopped.Some? then first else Progress(first.summary.Plus(second.summary), second.stopped)
  }

  function PrepareRow(row: Row, scope: Scope, stopOnError: bool): Progress {
    if row.built.Some? then FailProgress(row.built.value, scope.whole || stopOnError)
    else if row.prepared.Some? then
      Continue(Progress(NOTHING.(hooks := [Hook(row.id, Err(row.prepared.value))]), None),
               FailProgress(row.prepared.value, scope.whole || stopOnError))
    else Progress(NOTHING, None)
  }

  function PrepareRows(inputs: seq<Row>, scope: Scope, stopOnError: bool): Progress {
    if inputs == [] then Progress(NOTHING, None)
    else Continue(PrepareRow(inputs[0], scope, stopOnError), PrepareRows(inputs[1..], scope, stopOnError))
  }

  predicate IsPrepared(row: Row) {
    row.built.None? && row.prepared.None?
  }

  function Prepared(inputs: seq<Row>): seq<Row> {
    if inputs == [] then []
    else (if IsPrepared(inputs[0]) then [inputs[0]] else []) + Prepared(inputs[1..])
  }

  /** Counting one outcome. */
  function SettleRow(row: Row, outcome: Outcome, opts: Options): Progress {
    match outcome
    case Ok(_) =>
      if opts.returnRecords && row.unreadable.Some? then Progress(NOTHING, row.unreadable)
      else Progress(NOTHING.(count := 1, records := if opts.returnRecords then [row.id] else []), None)
    case Err(Stale(_)) => Progress(NOTHING.(stale := 1), None)
    case Err(e) => FailProgress(e, opts.stopOnError)
  }

  function SettleRows(batch: seq<Row>, outcomes: seq<Outcome>, opts: Options): Progress
    requires |batch| == |outcomes|
  {
    if batch == [] then Progress(NOTHING, None)
    else Continue(SettleRow(batch[0], outcomes[0], opts), SettleRows(batch[1..], outcomes[1..], opts))
  }

  function HooksWith(batch: seq<Row>, outcomes: seq<Outcome>): seq<Hook>
    requires |batch| == |outcomes|
  {
    if batch == [] then [] else [Hook(batch[0].id, outcomes[0])] + HooksWith(batch[1..], outcomes[1..])
  }

  function AllFailed(batch: seq<Row>, e: Error): (outcomes: seq<Outcome>)
    ensures |outcomes| == |batch|
  {
    if batch == [] then [] else [Err(e)] + AllFailed(batch[1..], e)
  }

  /** What a batch leaves behind: its rows, rolled back if it failed in a transaction of its own;
      its notifications, discarded then too unless an outer buffer holds them. */
  function BatchEffect(batch: seq<Row>, scope: Scope, opts: Options): Summary {
    var outcome := BatchOutcome(opts.kind, batch, scope.Transactional());
    NOTHING.(
      rows := if outcome.Err? && scope.perBatch then [] else WrittenRows(opts.kind, batch),
      sent := if !opts.notify || WriteFailure(opts.kind, batch).Some?
        || (outcome.Err? && scope.perBatch && !scope.buffered) then []
              else FinishedRows(batch, scope.Transactional()))
  }

  /** Concluding and counting a batch. */
  function BatchSettlement(batch: seq<Row>, scope: Scope, opts: Options): Progress {
    match BatchOutcome(opts.kind, batch, scope.Transactional())
    case Err(e) =>
      var hooks := HooksWith(batch, AllFailed(batch, e));
      if scope.whole || opts.stopOnError then Progress(NOTHING.(hooks := hooks), Some(e))
      else Progress(NOTHING.(hooks := hooks, errors := [e], errorCount := |batch|), None)
    case Ok(outcomes) =>
      FinishOutcomesLength(batch, scope.Transactional());
      Continue(Progress(NOTHING.(hooks := HooksWith(batch, outcomes)), None), SettleRows(batch, outcomes, opts))
  }

  function BatchProgress(batch: seq<Row>, scope: Scope, opts: Options): Progress {
    Continue(Progress(BatchEffect(batch, scope, opts), None), BatchSettlement(batch, scope, opts))
  }

  lemma {:induction false} FinishOutcomesLength(batch: seq<Row>, transactional: bool)
    ensures FinishOutcomes(batch, transactional).Ok? ==> |FinishOutcomes(batch, transactional).value| == |batch|
  {
    if batch != [] {
      FinishOutcomesLength(batch[1..], transactional);
    }
  }

  function ChunkSize(opts: Options, prepared: nat): nat
  {
    var size := if opts.batchSize.Some? then opts.batchSize.value else prepared;
    if size == 0 then 1 else size
  }

  function Chunk(rows: seq<Row>, size: nat): nat
    requires size > 0
  {
    if size < |rows| then size else |rows|
  }

  function BatchesProgress(rows: seq<Row>, size: nat, scope: Scope, opts: Options): Progress
    requires size > 0
  {
    if rows == [] then Progress(NOTHING, None)
    else
      var k := Chunk(rows, size);
      Continue(BatchProgress(rows[..k], scope, opts), BatchesProgress(rows[k..], size, scope, opts))
  }

  function ActionProgress(inputs: seq<Row>, scope: Scope, opts: Options): Progress {
    var prepared := Prepared(inputs);
    Continue(PrepareRows(inputs, scope, opts.stopOnError),
             BatchesProgress(prepared, ChunkSize(opts, |prepared|), scope, opts))
  }

  datatype BulkResult = BulkResult(records: seq<nat>, errors: seq<Error>, errorCount: nat, count: nat)

  /** What the caller gets. An action rolled back as a whole fails every row, where it does not
      stop on errors. */
  function ActionResult(inputs: seq<Row>, scope: Scope, opts: Options): Result<BulkResult, Error> {
    var progress := ActionProgress(inputs, scope, opts);
    var s := progress.summary;
    match progress.stopped
    case None => Ok(BulkResult(s.records, s.errors, s.errorCount, s.count))
    case Some(e) =>
      if scope.whole && !opts.stopOnError then Ok(BulkResult([], [e], |inputs|, 0)) else Err(e)
  }

  predicate RolledBack(inputs: seq<Row>, scope: Scope, opts: Options) {
    scope.whole && ActionProgress(inputs, scope, opts).stopped.Some?
  }

  // ---------- no row is lost

  lemma {:induction false} PreparationCountsRejects(inputs: seq<Row>, scope: Scope, stopOnError: bool)
    ensures |Prepared(inputs)| <= |inputs|
    ensures var p := PrepareRows(inputs, scope, stopOnError);
            p.stopped.None? ==> p.summary.count == p.summary.stale == 0
                                && p.summary.errorCount == |inputs| - |Prepared(inputs)|
  {
    if inputs != [] {
      PreparationCountsRejects(inputs[1..], scope, stopOnError);
    }
  }

  lemma {:induction false} SettlingCountsRows(batch: seq<Row>, outcomes: seq<Outcome>, opts: Options)
    requires |batch| == |outcomes|
    ensures var p := SettleRows(batch, outcomes, opts);
            p.stopped.None? ==> p.summary.count + p.summary.errorCount + p.summary.stale == |batch|
  {
    if batch != [] {
      var first, rest := SettleRow(batch[0], outcomes[0], opts), SettleRows(batch[1..], outcomes[1..], opts);
      assert SettleRows(batch, outcomes, opts) == Continue(first, rest);
      SettlingCountsRows(batch[1..], outcomes[1..], opts);
      assert first.stopped.None? ==> first.summary.count + first.summary.errorCount + first.summary.stale == 1;
    }
  }

  lemma BatchCountsRows(batch: seq<Row>, scope: Scope, opts: Options)
    ensures var p := BatchProgress(batch, scope, opts);
            p.stopped.None? ==> p.summary.count + p.summary.errorCount + p.summary.stale == |batch|
  {
    var outcome := BatchOutcome(opts.kind, batch, scope.Transactional());
    if outcome.Ok? {
      FinishOutcomesLength(batch, scope.Transactional());
      SettlingCountsRows(batch, outcome.value, opts);
    }
  }

  lemma {:induction false} BatchesCountRows(rows: seq<Row>, size: nat, scope: Scope, opts: Options)
    requires size > 0
    ensures var p := BatchesProgress(rows, size, scope, opts);
            p.stopped.None? ==> p.summary.count + p.summary.errorCount + p.summary.stale == |rows|
  {
    if rows != [] {
      var k := Chunk(rows, size);
      BatchCountsRows(rows[..k], scope, opts);
      BatchesCountRows(rows[k..], size, scope, opts);
    }
  }

  /** Whenever a bulk action returns a result, its counted rows, its failed rows and the rows left
      out as stale are all the rows it was given, in every transaction mode, batch size and error
      mode. */
  lemma NoRowIsLost(inputs: seq<Row>, scope: Scope, opts: Options)
    requires ActionResult(inputs, scope, opts).Ok?
    ensures var result := ActionResult(inputs, scope, opts).value;
            var leftOut :=
              if RolledBack(inputs, scope, opts) then 0 else ActionProgress(inputs, scope, opts).summary.stale;
            result.count + result.errorCount + leftOut == |inputs|
  {
    var prepared := Prepared(inputs);
    PreparationCountsRejects(inputs, scope, opts.stopOnError);
    BatchesCountRows(prepared, ChunkSize(opts, |prepared|), scope, opts);
  }

  // ---------- every prepared row is concluded once, with its own outcome

  /** The outcomes a batch is concluded with: one that failed as a whole gives every row in it
      that error, any other gives each row its own. */
  function BatchOutcomes(batch: seq<Row>, kind: Kind, transactional: bool): (outcomes: seq<Outcome>)
    ensures |outcomes| == |batch|
  {
    FinishOutcomesLength(batch, transactional);
    match BatchOutcome(kind, batch, transactional)
    case Err(e) => AllFailed(batch, e)
    case Ok(outcomes) => outcomes
  }

  function OwnOutcomes(rows: seq<Row>, size: nat, kind: Kind, transactional: bool): (outcomes: seq<Outcome>)
    requires size > 0
    ensures |outcomes| == |rows|
  {
    if rows == [] then []
    else
      var k := Chunk(rows, size);
      BatchOutcomes(rows[..k], kind, transactional) + OwnOutcomes(rows[k..], size, kind, transactional)
  }

  /** The first batch and the rows after it. */
  lemma FirstBatch(rows: seq<Row>, size: nat, scope: Scope, opts: Options) returns (batch: seq<Row>, rest: seq<Row>)
    requires size > 0 && rows != []
    ensures batch != [] && rows == batch + rest && |batch| == Chunk(rows, size)
    ensures BatchesProgress(rows, size, scope, opts)
            == Continue(BatchProgress(batch, scope, opts), BatchesProgress(rest, size, scope, opts))
    ensures OwnOutcomes(rows, size, opts.kind, scope.Transactional())
            == BatchOutcomes(batch, opts.kind, scope.Transactional())
              + OwnOutcomes(rest, size, opts.kind, scope.Transactional())
  {
    var k := Chunk(rows, size);
    batch, rest := rows[..k], rows[k..];
  }

  lemma {:induction false} SettlingRunsNothing(batch: seq<Row>, outcomes: seq<Outcome>, opts: Options)
    requires |batch| == |outcomes|
    ensures var s := SettleRows(batch, outcomes, opts).summary; s.hooks == [] && s.rows == [] && s.sent == []
  {
    if batch != [] {
      SettlingRunsNothing(batch[1..], outcomes[1..], opts);
    }
  }

  lemma BatchRuns(batch: seq<Row>, scope: Scope, opts: Options)
    ensures var s := BatchProgress(batch, scope, opts).summary;
            && s.hooks == HooksWith(batch, BatchOutcomes(batch, opts.kind, scope.Transactional()))
            && s.rows == BatchEffect(batch, scope, opts).rows
            && s.sent == BatchEffect(batch, scope, opts).sent
  {
    hide HooksWith, SettleRows, WriteFailure, FinishOutcomes, WrittenRows, FinishedRows, AllFailed;
    var outcome := BatchOutcome(opts.kind, batch, scope.Transactional());
    if outcome.Ok? {
      OutcomeIsFinished(opts.kind, batch, scope.Transactional());
      FinishOutcomesLength(batch, scope.Transactional());
      SettlingRunsNothing(batch, outcome.value, opts);
    }
  }

  lemma {:induction false} HooksWithConcat(a: seq<Row>, b: seq<Row>, x: seq<Outcome>, y: seq<Outcome>)
    requires |a| == |x| && |b| == |y|
    ensures HooksWith(a + b, x + y) == HooksWith(a, x) + HooksWith(b, y)
  {
    if a == [] {
      assert a + b == b && x + y == y;
    } else {
      assert (a + b)[1..] == a[1..] + b && (x + y)[1..] == x[1..] + y;
      HooksWithConcat(a[1..], b, x[1..], y);
    }
  }

  /** One hook for each row, in order. */
  lemma {:induction false} HooksWithAt(batch: seq<Row>, outcomes: seq<Outcome>, i: nat)
    requires |batch| == |outcomes| && i < |batch|
    ensures |HooksWith(batch, outcomes)| == |batch| && HooksWith(batch, outcomes)[i] == Hook(batch[i].id, outcomes[i])
  {
    if i > 0 {
      HooksWithAt(batch[1..], outcomes[1..], i - 1);
    } else if |batch| > 1 {
      HooksWithAt(batch[1..], outcomes[1..], 0);
    }
  }

  lemma {:induction false} BatchesRunHooks(rows: seq<Row>, size: nat, scope: Scope, opts: Options)
    requires size > 0 && BatchesProgress(rows, size, scope, opts).stopped.None?
    ensures BatchesProgress(rows, size, scope, opts).summary.hooks
            == HooksWith(rows, OwnOutcomes(rows, size, opts.kind, scope.Transactional()))
  {
    if rows != [] {
      var batch, rest := FirstBatch(rows, size, scope, opts);
      BatchRuns(batch, scope, opts);
      BatchesRunHooks(rest, size, scope, opts);
      HooksWithConcat(batch, rest, BatchOutcomes(batch, opts.kind, scope.Transactional()),
                      OwnOutcomes(rest, size, opts.kind, scope.Transactional()));
    }
  }

  /** The hooks of rows whose preparation failed, run with that error. */
  function RejectHook(row: Row): seq<Hook> {
    if row.built.None? && row.prepared.Some? then [Hook(row.id, Err(row.prepared.value))] else []
  }

  function RejectHooks(inputs: seq<Row>): seq<Hook> {
    if inputs == [] then [] else RejectHook(inputs[0]) + RejectHooks(inputs[1..])
  }

  lemma PreparingRunsRejectHook(row: Row, scope: Scope, stopOnError: bool)
    ensures var p := PrepareRow(row, scope, stopOnError);
            && p.summary.rows == [] && p.summary.sent == [] && p.summary.records == []
            && (p.stopped.None? ==> p.summary.hooks == RejectHook(row))
  {}

  lemma {:induction false} PreparationRunsRejectHooks(inputs: seq<Row>, scope: Scope, stopOnError: bool)
    ensures var p := PrepareRows(inputs, scope, stopOnError);
            && p.summary.rows == [] && p.summary.sent == [] && p.summary.records == []
            && (p.stopped.None? ==> p.summary.hooks == RejectHooks(inputs))
  {
    hide PrepareRow, RejectHook;
    if inputs != [] {
      PreparingRunsRejectHook(inputs[0], scope, stopOnError);
      PreparationRunsRejectHooks(inputs[1..], scope, stopOnError);
    }
  }

  lemma ActionParts(inputs: seq<Row>, scope: Scope, opts: Options) returns (preparing: Summary, batches: Summary)
    ensures ActionProgress(inputs, scope, opts).stopped.None? ==>
              && PrepareRows(inputs, scope, opts.stopOnError) == Progress(preparing, None)
              && BatchesProgress(Prepared(inputs), ChunkSize(opts, |Prepared(inputs)|), scope, opts)
                == Progress(batches, None)
              && ActionProgress(inputs, scope, opts).summary == preparing.Plus(batches)
  {
    preparing := PrepareRows(inputs, scope, opts.stopOnError).summary;
    batches := BatchesProgress(Prepared(inputs), ChunkSize(opts, |Prepared(inputs)|), scope, opts).summary;
  }

  /** Unless the action stopped early, its hooks are those of the rows that could not be prepared,
      then those of every prepared row, once each, in order, with its own outcome. */
  lemma EveryPreparedRowIsConcludedOnce(inputs: seq<Row>, scope: Scope, opts: Options)
    requires ActionProgress(inputs, scope, opts).stopped.None?
    ensures var prepared := Prepared(inputs);
            ActionProgress(inputs, scope, opts).summary.hooks
            == RejectHooks(inputs)
               + HooksWith(prepared, OwnOutcomes(prepared, ChunkSize(opts, |prepared|), opts.kind,
                                                 scope.Transactional()))
  {
    hide BatchesProgress, OwnOutcomes, PrepareRows, Prepared, HooksWith, RejectHooks;
    var prepared := Prepared(inputs);
    var preparing, batches := ActionParts(inputs, scope, opts);
    PreparationRunsRejectHooks(inputs, scope, opts.stopOnError);
    BatchesRunHooks(prepared, ChunkSize(opts, |prepared|), scope, opts);
  }

  /** The batch a prepared row falls in. */
  function BatchOf(rows: seq<Row>, size: nat, i: nat): seq<Row>
    requires size > 0 && i < |rows|
    decreases |rows|
  {
    var k := Chunk(rows, size);
    if i < k then rows[..k] else BatchOf(rows[k..], size, i - k)
  }

  lemma {:induction false} AllFailedAt(batch: seq<Row>, e: Error, i: nat)
    requires i < |batch|
    ensures AllFailed(batch, e)[i] == Err(e)
  {
    if i > 0 {
      AllFailedAt(batch[1..], e, i - 1);
    }
  }

  lemma {:induction false} FinishOutcomesAt(batch: seq<Row>, transactional: bool, i: nat)
    requires i < |batch| && FinishOutcomes(batch, transactional).Ok?
    ensures |FinishOutcomes(batch, transactional).value| == |batch|
    ensures FinishOutcomes(batch, transactional).value[i] == RowOutcome(batch[i])
    ensures transactional ==> !Failing(RowOutcome(batch[i]))
  {
    FinishOutcomesLength(batch, transactional);
    if i > 0 {
      FinishOutcomesAt(batch[1..], transactional, i - 1);
    }
  }

  /** A row's own outcome: the error of its batch if that failed as a whole, and otherwise what
      writing and finishing that very row came to. */
  lemma {:induction false} OwnOutcomeAt(rows: seq<Row>, size: nat, scope: Scope, opts: Options, i: nat)
    requires size > 0 && i < |rows|
    ensures OwnOutcomes(rows, size, opts.kind, scope.Transactional())[i]
            == match BatchOutcome(opts.kind, BatchOf(rows, size, i), scope.Transactional())
               case Err(e) => Err(e)
               case Ok(_) => RowOutcome(rows[i])
    decreases |rows|
  {
    hide BatchesProgress, BatchProgress, OwnOutcomes;
    var batch, rest := FirstBatch(rows, size, scope, opts);
    if i >= |batch| {
      OwnOutcomeAt(rest, size, scope, opts, i - |batch|);
      assert rest == rows[|batch|..];
    } else {
      assert batch == rows[..|batch|];
      if BatchOutcome(opts.kind, batch, scope.Transactional()).Ok? {
        FinishOutcomesAt(batch, scope.Transactional(), i);
      } else {
        AllFailedAt(batch, BatchOutcome(opts.kind, batch, scope.Transactional()).error, i);
      }
    }
  }

  // ---------- batches are atomic

  /** The rows counted: those of batches that did not fail, that came out well. */
  function Counted(rows: seq<Row>, size: nat, kind: Kind, transactional: bool): seq<nat>
    requires size > 0
  {
    Succeeded(OwnOutcomes(rows, size, kind, transactional))
  }

  function Succeeded(outcomes: seq<Outcome>): seq<nat> {
    if outcomes == [] then []
    else (if outcomes[0].Ok? then [outcomes[0].value] else []) + Succeeded(outcomes[1..])
  }

  function StaleIn(outcomes: seq<Outcome>): nat {
    if outcomes == [] then 0 else (if IsStale(outcomes[0]) then 1 else 0) + StaleIn(outcomes[1..])
  }

  lemma {:induction false} SucceededConcat(a: seq<Outcome>, b: seq<Outcome>)
    ensures Succeeded(a + b) == Succeeded(a) + Succeeded(b)
  {
    if a == [] {
      assert a + b == b;
    } else {
      assert (a + b)[1..] == a[1..] + b;
      SucceededConcat(a[1..], b);
      assert Succeeded(a + b) == (if a[0].Ok? then [a[0].value] else []) + (Succeeded(a[1..]) + Succeeded(b));
    }
  }

  lemma {:induction false} AllFailedSucceedNowhere(batch: seq<Row>, e: Error)
    ensures Succeeded(AllFailed(batch, e)) == [] && StaleIn(AllFailed(batch, e)) == (if e.Stale? then |batch| else 0)
  {
    if batch != [] {
      AllFailedSucceedNowhere(batch[1..], e);
    }
  }

  /** In a transaction a batch commits only when every row in it is a success or stale, and a batch
      that fails leaves no row and sends nothing. */
  lemma BatchCommitsWholeOrNotAtAll(batch: seq<Row>, scope: Scope, opts: Options)
    requires scope.perBatch && !scope.buffered
    ensures var outcome := BatchOutcome(opts.kind, batch, true);
            var s := BatchProgress(batch, scope, opts).summary;
            && (outcome.Err? ==> s.rows == [] && s.sent == [])
            && (outcome.Ok? ==>
                  && |outcome.value| == |batch|
                  && forall i | 0 <= i < |batch| :: outcome.value[i].Ok? || IsStale(outcome.value[i]))
  {
    BatchRuns(batch, scope, opts);
    var outcome := BatchOutcome(opts.kind, batch, true);
    if outcome.Ok? {
      FinishOutcomesLength(batch, true);
      forall i | 0 <= i < |batch| ensures outcome.value[i].Ok? || IsStale(outcome.value[i]) {
        FinishOutcomesAt(batch, true, i);
      }
    }
  }

  /** The notifications of a finished batch are those of its successes, in order. */
  lemma {:induction false} FinishedRowsAreSuccesses(batch: seq<Row>, transactional: bool)
    requires FinishOutcomes(batch, transactional).Ok?
    ensures FinishedRows(batch, transactional) == Succeeded(FinishOutcomes(batch, transactional).value)
  {
    if batch != [] {
      FinishedRowsAreSuccesses(batch[1..], transactional);
    }
  }

  /** A created batch is stored whole: as many rows as succeeded or came out stale, and exactly the
      successes when none was stale. */
  lemma {:induction false} CreatedRowsStored(batch: seq<Row>)
    requires WriteFailure(Create, batch).None? && FinishOutcomes(batch, true).Ok?
    ensures var outcomes := FinishOutcomes(batch, true).value;
            && |WrittenRows(Create, batch)| == |Succeeded(outcomes)| + StaleIn(outcomes)
            && (StaleIn(outcomes) == 0 ==> WrittenRows(Create, batch) == Succeeded(outcomes))
  {
    if batch != [] {
      CreatedRowsStored(batch[1..]);
    }
  }

  lemma {:induction false} SettlingCountsStale(batch: seq<Row>, outcomes: seq<Outcome>, opts: Options)
    requires |batch| == |outcomes|
    ensures var p := SettleRows(batch, outcomes, opts);
            p.stopped.None? ==> p.summary.stale == StaleIn(outcomes) && p.summary.count == |Succeeded(outcomes)|
  {
    if batch != [] {
      SettlingCountsStale(batch[1..], outcomes[1..], opts);
    }
  }

  /** As many rows stored as counted or stale, exactly the counted ones where none is stale, and the
      counted ones announced. */
  ghost predicate StoresCounted(s: Summary, counted: seq<nat>, notify: bool) {
    && s.count == |counted| && |s.rows| == s.count + s.stale
    && (s.stale == 0 ==> s.rows == counted)
    && s.sent == (if notify then counted else [])
  }

  lemma StoresCountedPlus(a: Summary, b: Summary, x: seq<nat>, y: seq<nat>, notify: bool)
    requires StoresCounted(a, x, notify) && StoresCounted(b, y, notify)
    ensures StoresCounted(a.Plus(b), x + y, notify)
  {}

  lemma BatchIsAtomic(batch: seq<Row>, scope: Scope, opts: Options)
    requires scope.perBatch && !scope.whole && !scope.buffered && opts.kind == Create
    ensures var p := BatchProgress(batch, scope, opts);
            p.stopped.None? ==> StoresCounted(p.summary, Succeeded(BatchOutcomes(batch, Create, true)), opts.notify)
  {
    BatchRuns(batch, scope, opts);
    var outcome := BatchOutcome(Create, batch, true);
    if outcome.Ok? {
      FinishOutcomesLength(batch, true);
      SettlingCountsStale(batch, outcome.value, opts);
      CreatedRowsStored(batch);
      FinishedRowsAreSuccesses(batch, true);
    } else {
      AllFailedSucceedNowhere(batch, outcome.error);
    }
  }

  lemma {:induction false} BatchesAreAtomic(rows: seq<Row>, size: nat, scope: Scope, opts: Options)
    requires size > 0 && scope.perBatch && !scope.whole && !scope.buffered && opts.kind == Create
    requires BatchesProgress(rows, size, scope, opts).stopped.None?
    ensures StoresCounted(BatchesProgress(rows, size, scope, opts).summary, Counted(rows, size, Create, true),
                          opts.notify)
  {
    if rows != [] {
      var batch, rest := FirstBatch(rows, size, scope, opts);
      BatchIsAtomic(batch, scope, opts);
      BatchesAreAtomic(rest, size, scope, opts);
      StoresCountedPlus(BatchProgress(batch, scope, opts).summary, BatchesProgress(rest, size, scope, opts).summary,
                        Succeeded(BatchOutcomes(batch, Create, true)), Counted(rest, size, Create, true), opts.notify);
      SucceededConcat(BatchOutcomes(batch, Create, true), OwnOutcomes(rest, size, Create, true));
    }
  }

  /** A row that is created and that its after-action hooks then call stale. */
  predicate StaleOnceCreated(row: Row) {
    IsPrepared(row) && row.write == Written && row.finish.Some? && row.finish.value.Stale?
  }

  /** No row that its hooks call stale once it is created is in a batch that commits. */
  ghost predicate NoneStaleCommits(rows: seq<Row>, size: nat)
    requires size > 0
  {
    forall i | 0 <= i < |rows| && StaleOnceCreated(rows[i]) :: BatchOutcome(Create, BatchOf(rows, size, i), true).Err?
  }

  predicate AllPrepared(rows: seq<Row>) {
    forall i | 0 <= i < |rows| :: IsPrepared(rows[i])
  }

  lemma {:induction false} PreparedAreAll(inputs: seq<Row>)
    ensures AllPrepared(Prepared(inputs))
  {
    if inputs != [] {
      PreparedAreAll(inputs[1..]);
    }
  }

  lemma {:induction false} CreatedBatchStale(batch: seq<Row>)
    requires WriteFailure(Create, batch).None? && FinishOutcomes(batch, true).Ok? && AllPrepared(batch)
    ensures StaleIn(FinishOutcomes(batch, true).value) == 0
            <==> forall i | 0 <= i < |batch| :: !StaleOnceCreated(batch[i])
  {
    if batch != [] {
      var rest := batch[1..];
      assert forall i | 0 <= i < |rest| :: rest[i] == batch[i + 1];
      CreatedBatchStale(rest);
      assert (forall i | 0 <= i < |batch| :: !StaleOnceCreated(batch[i]))
        <==> !StaleOnceCreated(batch[0]) && forall i | 0 <= i < |rest| :: !StaleOnceCreated(rest[i]) by {
        if forall i | 0 <= i < |batch| :: !StaleOnceCreated(batch[i]) {
          forall i | 0 <= i < |rest| ensures !StaleOnceCreated(rest[i]) {
            assert rest[i] == batch[i + 1];
          }
        }
      }
    }
  }

  /** A batch leaves no row out of its count exactly where it does not commit or its hooks call none of
      its rows stale. */
  lemma BatchLeavesOut(batch: seq<Row>, scope: Scope, opts: Options)
    requires scope.perBatch && opts.kind == Create && AllPrepared(batch)
    ensures var p, outcome := BatchProgress(batch, scope, opts), BatchOutcome(Create, batch, true);
            p.stopped.None? ==>
              (p.summary.stale == 0 <==> outcome.Err? || forall i | 0 <= i < |batch| :: !StaleOnceCreated(batch[i]))
  {
    hide SettleRows, FinishOutcomes, HooksWith, WrittenRows, FinishedRows, WriteFailure, StaleIn;
    var outcome := BatchOutcome(Create, batch, true);
    if outcome.Ok? {
      OutcomeIsFinished(Create, batch, true);
      FinishOutcomesLength(batch, true);
      SettlingCountsStale(batch, outcome.value, opts);
      CreatedBatchStale(batch);
    }
  }

  lemma FirstBatchStale(rows: seq<Row>, size: nat, batch: seq<Row>, rest: seq<Row>)
    requires size > 0 && rows != [] && rows == batch + rest && |batch| == Chunk(rows, size)
    ensures NoneStaleCommits(rows, size)
            <==> (BatchOutcome(Create, batch, true).Err? || forall i | 0 <= i < |batch| :: !StaleOnceCreated(batch[i]))
                 && NoneStaleCommits(rest, size)
  {
    hide BatchOutcome, StaleOnceCreated;
    var k := |batch|;
    assert batch == rows[..k] && rest == rows[k..];
    assert forall i | 0 <= i < k :: BatchOf(rows, size, i) == batch && rows[i] == batch[i];
    assert forall i | 0 <= i < |rest| :: BatchOf(rows, size, k + i) == BatchOf(rest, size, i) && rows[k + i] == rest[i];
    if NoneStaleCommits(rows, size) {
      forall i | 0 <= i < |rest| && StaleOnceCreated(rest[i])
        ensures BatchOutcome(Create, BatchOf(rest, size, i), true).Err?
      {
        assert rows[k + i] == rest[i];
      }
      if i :| 0 <= i < |batch| && StaleOnceCreated(batch[i]) {
        assert rows[i] == batch[i];
      }
    }
    if (BatchOutcome(Create, batch, true).Err? || forall i | 0 <= i < |batch| :: !StaleOnceCreated(batch[i]))
       && NoneStaleCommits(rest, size) {
      forall i | 0 <= i < |rows| && StaleOnceCreated(rows[i])
        ensures BatchOutcome(Create, BatchOf(rows, size, i), true).Err?
      {
        if i >= k {
          assert rows[i] == rest[i - k] && BatchOf(rows, size, k + (i - k)) == BatchOf(rest, size, i - k);
        } else {
          assert rows[i] == batch[i];
        }
      }
    }
  }

  lemma {:induction false} BatchesLeaveOut(rows: seq<Row>, size: nat, scope: Scope, opts: Options)
    requires size > 0 && scope.perBatch && opts.kind == Create && AllPrepared(rows)
    ensures var p := BatchesProgress(rows, size, scope, opts);
            p.stopped.None? ==> (p.summary.stale == 0 <==> NoneStaleCommits(rows, size))
    decreases |rows|
  {
    if rows != [] {
      var batch, rest := FirstBatch(rows, size, scope, opts);
      hide BatchesProgress, BatchProgress, BatchOutcome, StaleOnceCreated, NoneStaleCommits;
      assert forall i | 0 <= i < |batch| :: batch[i] == rows[i];
      assert forall i | 0 <= i < |rest| :: rest[i] == rows[|batch| + i];
      BatchLeavesOut(batch, scope, opts);
      BatchesLeaveOut(rest, size, scope, opts);
      FirstBatchStale(rows, size, batch, rest);
    }
  }

  /** With a data layer that transacts, batch by batch and with no buffer around it, a bulk create
      that does not stop early has notified of exactly its counted rows, in order; and it has stored
      exactly these, in order, if and only if no row that its hooks call stale once it is created is in
      a batch that commits. */
  lemma BulkCreateIsAtomic(inputs: seq<Row>, scope: Scope, opts: Options, counted: seq<nat>)
    requires scope.perBatch && !scope.whole && !scope.buffered && opts.kind == Create
    requires ActionProgress(inputs, scope, opts).stopped.None?
    requires counted == Counted(Prepared(inputs), ChunkSize(opts, |Prepared(inputs)|), Create, true)
    ensures var s := ActionProgress(inputs, scope, opts).summary;
            && s.count == |counted|
            && (s.rows == counted <==> s.stale == 0)
            && (s.rows == counted <==> NoneStaleCommits(Prepared(inputs), ChunkSize(opts, |Prepared(inputs)|)))
            && s.sent == if opts.notify then counted else []
  {
    hide BatchesProgress, BatchProgress, Counted, PrepareRows, Prepared, NoneStaleCommits;
    PreparedAreAll(inputs);
    BatchesLeaveOut(Prepared(inputs), ChunkSize(opts, |Prepared(inputs)|), scope, opts);
    var preparing, batches := ActionParts(inputs, scope, opts);
    PreparationRunsRejectHooks(inputs, scope, opts.stopOnError);
    PreparationCountsRejects(inputs, scope, opts.stopOnError);
    BatchesAreAtomic(Prepared(inputs), ChunkSize(opts, |Prepared(inputs)|), scope, opts);
    PlusEmpty(preparing, batches);
  }

  lemma PlusEmpty(a: Summary, b: Summary)
    requires a.count == a.stale == 0 && a.rows == [] && a.sent == []
    ensures a.Plus(b).count == b.count && a.Plus(b).stale == b.stale && a.Plus(b).rows == b.rows
            && a.Plus(b).sent == b.sent
  {}

  // ---------- what the caller is told

  ghost predicate Reports(s: Summary, succeeded: seq<nat>, opts: Options) {
    s.count == |succeeded| && s.records == if opts.returnRecords then succeeded else []
  }

  lemma ReportsPlus(a: Summary, b: Summary, x: seq<nat>, y: seq<nat>, opts: Options)
    requires Reports(a, x, opts) && Reports(b, y, opts)
    ensures Reports(a.Plus(b), x + y, opts)
  {
    assert a.Plus(b).records == a.records + b.records;
  }

  lemma RowReports(row: Row, opts: Options)
    ensures var outcome := RowOutcome(row);
            var p := SettleRow(row, outcome, opts);
            p.stopped.None? ==> Reports(p.summary, if outcome.Ok? then [outcome.value] else [], opts)
  {}

  lemma {:induction false} SettlingReports(batch: seq<Row>, transactional: bool, opts: Options)
    requires FinishOutcomes(batch, transactional).Ok?
    ensures var outcomes := FinishOutcomes(batch, transactional).value;
            |outcomes| == |batch|
            && var p := SettleRows(batch, outcomes, opts);
               p.stopped.None? ==> Reports(p.summary, Succeeded(outcomes), opts)
  {
    if batch != [] {
      hide RowOutcome, SettleRow, Reports;
      var row, rest := batch[0], FinishOutcomes(batch[1..], transactional);
      SettlingReports(batch[1..], transactional, opts);
      RowReports(row, opts);
      var outcomes := FinishOutcomes(batch, transactional).value;
      assert outcomes[1..] == rest.value;
      var first, others := SettleRow(row, outcomes[0], opts), SettleRows(batch[1..], rest.value, opts);
      if first.stopped.None? && others.stopped.None? {
        ReportsPlus(first.summary, others.summary, if outcomes[0].Ok? then [outcomes[0].value] else [],
                    Succeeded(rest.value), opts);
      }
    }
  }

  lemma BatchReports(batch: seq<Row>, scope: Scope, opts: Options)
    ensures var p := BatchProgress(batch, scope, opts);
            p.stopped.None? ==> Reports(p.summary, Succeeded(BatchOutcomes(batch, opts.kind, scope.Transactional())),
                                        opts)
  {
    hide SettleRows, FinishOutcomes, HooksWith, WrittenRows, FinishedRows, WriteFailure;
    var outcome := BatchOutcome(opts.kind, batch, scope.Transactional());
    if outcome.Ok? {
      OutcomeIsFinished(opts.kind, batch, scope.Transactional());
      SettlingReports(batch, scope.Transactional(), opts);
    } else {
      AllFailedSucceedNowhere(batch, outcome.error);
    }
  }

  lemma OutcomeIsFinished(kind: Kind, batch: seq<Row>, transactional: bool)
    requires BatchOutcome(kind, batch, transactional).Ok?
    ensures WriteFailure(kind, batch).None? && FinishOutcomes(batch, transactional)
            == BatchOutcome(kind, batch, transactional)
  {}

  lemma {:induction false} BatchesReport(rows: seq<Row>, size: nat, scope: Scope, opts: Options)
    requires size > 0
    ensures var p := BatchesProgress(rows, size, scope, opts);
            p.stopped.None? ==> Reports(p.summary,
                                        Succeeded(OwnOutcomes(rows, size, opts.kind, scope.Transactional())), opts)
    decreases |rows|
  {
    if rows != [] {
      var batch, rest := FirstBatch(rows, size, scope, opts);
      hide BatchesProgress, BatchProgress, OwnOutcomes, BatchOutcomes;
      BatchReports(batch, scope, opts);
      BatchesReport(rest, size, scope, opts);
      var own, others := BatchOutcomes(batch, opts.kind, scope.Transactional()),
                         OwnOutcomes(rest, size, opts.kind, scope.Transactional());
      SucceededConcat(own, others);
      var first, more := BatchProgress(batch, scope, opts), BatchesProgress(rest, size, scope, opts);
      if first.stopped.None? && more.stopped.None? {
        ReportsPlus(first.summary, more.summary, Succeeded(own), Succeeded(others), opts);
      }
    }
  }

  /** A result counts exactly the rows whose after-transaction hooks were run with success, and holds
      their records in order if they were asked for; unless the action was rolled back as a whole, and
      then it counts none and fails every input. */
  lemma ResultReportsTheCounts(inputs: seq<Row>, scope: Scope, opts: Options)
    requires ActionResult(inputs, scope, opts).Ok?
    ensures var result, prepared := ActionResult(inputs, scope, opts).value, Prepared(inputs);
            var outcomes := OwnOutcomes(prepared, ChunkSize(opts, |prepared|), opts.kind, scope.Transactional());
            if RolledBack(inputs, scope, opts)
            then result.count == 0 && result.records == [] && result.errorCount == |inputs| && |result.errors| == 1
            else result.count == |Succeeded(outcomes)|
                 && result.records == if opts.returnRecords then Succeeded(outcomes) else []
  {
    hide BatchesProgress, OwnOutcomes, PrepareRows, Prepared;
    var preparing, batches := ActionParts(inputs, scope, opts);
    PreparationRunsRejectHooks(inputs, scope, opts.stopOnError);
    PreparationCountsRejects(inputs, scope, opts.stopOnError);
    BatchesReport(Prepared(inputs), ChunkSize(opts, |Prepared(inputs)|), scope, opts);
    assert [] + batches.records == batches.records;
  }

  lemma StaleBatchOutcome(batch: seq<Row>)
    requires |batch| == 1 && StaleOnceCreated(batch[0])
    ensures BatchOutcome(Create, batch, true).Ok? && |BatchOutcome(Create, batch, true).value| == 1
    ensures IsStale(BatchOutcome(Create, batch, true).value[0])
  {
    var tail := batch[1..];
    assert WriteFailure(Create, tail) == None && FinishOutcomes(tail, true).Ok?;
    assert FinishOutcomes(batch, true).Ok?;
    FinishOutcomesAt(batch, true, 0);
  }

  lemma StaleBatch(batch: seq<Row>, scope: Scope, opts: Options)
    requires opts.kind == Create && scope.perBatch && |batch| == 1 && StaleOnceCreated(batch[0])
    ensures var progress := BatchProgress(batch, scope, opts);
            progress.stopped.None? && progress.summary.stale == 1 && progress.summary.count == 0
              && progress.summary.errorCount == 0
  {
    hide BatchOutcome, WrittenRows, FinishedRows, WriteFailure, HooksWith;
    StaleBatchOutcome(batch);
    var outcomes := BatchOutcome(Create, batch, true).value;
    var first, rest := SettleRow(batch[0], outcomes[0], opts), SettleRows(batch[1..], outcomes[1..], opts);
    assert SettleRows(batch, outcomes, opts) == Continue(first, rest);
    assert rest == Progress(NOTHING, None);
  }

  /** Such a row, prepared alone, is stored uncounted: the condition above is needed. */
  lemma StaleAfterCreateIsStoredUncounted(batch: seq<Row>, size: nat, scope: Scope, opts: Options)
    requires size > 0 && opts.kind == Create && scope.perBatch && !scope.whole && !scope.buffered
    requires |batch| == 1 && StaleOnceCreated(batch[0])
    ensures var all := BatchesProgress(batch, size, scope, opts);
            all.stopped.None? && all.summary.count == all.summary.errorCount == 0 && |all.summary.rows| == 1
  {
    StaleBatch(batch, scope, opts);
    BatchIsAtomic(batch, scope, opts);
    var only, rest := FirstBatch(batch, size, scope, opts);
    assert only == batch && rest == [];
  }
}
