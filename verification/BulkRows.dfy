/**
 What bulk actions come to for each row, stated of the rows as they are given: how a row comes out,
 which rows are stored, and that what is counted or announced is stored.
 */
module BulkRows {
  import opened Sequences
  import opened Wrappers
  import opened Bulk

  // ---------- of one row, and of a batch

  /** Writing the row fails the write of its whole batch. */
  predicate FailsTheWrite(kind: Kind, row: Row) {
    kind != Upsert && (row.write.BatchFails? || (kind == Create && row.write.RowFails?))
  }

  /** What is wrong with a row: that it was not written, or what finishing it raised. */
  function Trouble(row: Row): Option<Error> {
    match row.write
    case RowFails(e) => Some(e)
    case BatchFails(e) => Some(e)
    case Written => row.finish
  }

  /** Trouble that fails a transaction: any but being stale. */
  predicate Undoes(row: Row) {
    Trouble(row).Some? && Trouble(row).value.Failed?
  }

  predicate BatchFails(kind: Kind, batch: seq<Row>, transactional: bool) {
    || (exists i | 0 <= i < |batch| :: FailsTheWrite(kind, batch[i]))
    || (transactional && exists i | 0 <= i < |batch| :: Undoes(batch[i]))
  }

  /** Row `k` is the first that fails the write. */
  predicate FirstToFailTheWrite(kind: Kind, batch: seq<Row>, k: nat) {
    && k < |batch|
    && FailsTheWrite(kind, batch[k])
    && forall j | 0 <= j < k :: !FailsTheWrite(kind, batch[j])
  }

  predicate FirstToUndo(batch: seq<Row>, k: nat) {
    k < |batch| && Undoes(batch[k]) && forall j | 0 <= j < k :: !Undoes(batch[j])
  }

  lemma {:induction false} WriteFailureIsTheFirst(kind: Kind, batch: seq<Row>) returns (k: nat)
    ensures WriteFailure(kind, batch).None? ==> forall i | 0 <= i < |batch| :: !FailsTheWrite(kind, batch[i])
    ensures WriteFailure(kind, batch).Some? ==>
              FirstToFailTheWrite(kind, batch, k) && WriteFailure(kind, batch) == Trouble(batch[k])
  {
    k := 0;
    if kind != Upsert && batch != [] && !FailsTheWrite(kind, batch[0]) {
      var rest := WriteFailureIsTheFirst(kind, batch[1..]);
      k := rest + 1;
      assert forall i | 0 < i < |batch| :: batch[i] == batch[1..][i - 1];
    }
  }

  lemma {:induction false} FinishingFailsAtTheFirst(batch: seq<Row>, transactional: bool) returns (k: nat)
    ensures FinishOutcomes(batch, transactional).Ok? ==>
              transactional ==> forall i | 0 <= i < |batch| :: !Undoes(batch[i])
    ensures FinishOutcomes(batch, transactional).Err? ==>
              transactional && FirstToUndo(batch, k)
              && Trouble(batch[k]) == Some(FinishOutcomes(batch, transactional).error)
  {
    k := 0;
    if batch != [] && !(transactional && Undoes(batch[0])) {
      var rest := FinishingFailsAtTheFirst(batch[1..], transactional);
      k := rest + 1;
      assert forall i | 0 < i < |batch| :: batch[i] == batch[1..][i - 1];
    }
  }

  /** A batch fails exactly if a row fails the write of the whole, or in a transaction is in trouble other
      than being stale; with the error of the first row that fails the write, or else of the first in such
      trouble. */
  lemma BatchFailsExactly(kind: Kind, batch: seq<Row>, transactional: bool)
    ensures BatchOutcome(kind, batch, transactional).Err? <==> BatchFails(kind, batch, transactional)
    ensures BatchFails(kind, batch, transactional) ==>
              exists k: nat ::
                && (FirstToFailTheWrite(kind, batch, k)
                    || (FirstToUndo(batch, k) && forall i | 0 <= i < |batch| :: !FailsTheWrite(kind, batch[i])))
                && Trouble(batch[k]) == Some(BatchOutcome(kind, batch, transactional).error)
  {
    hide FinishOutcomes, WriteFailure, Trouble, Undoes, FailsTheWrite;
    var w := WriteFailureIsTheFirst(kind, batch);
    var f := FinishingFailsAtTheFirst(batch, transactional);
  }

  // ---------- how a row comes out

  /** In every mode and for every kind of action: a prepared row comes out well exactly if it was written,
      finishing it raised nothing, and its batch did not fail. In a batch that failed it carries the batch's
      error, and otherwise that of its write, or else of its finishing. */
  lemma RowComesOut(rows: seq<Row>, size: nat, scope: Scope, opts: Options, i: nat)
    requires size > 0 && i < |rows|
    ensures var outcome := OwnOutcomes(rows, size, opts.kind, scope.Transactional())[i];
            var batch, row := BatchOf(rows, size, i), rows[i];
            var failed := BatchFails(opts.kind, batch, scope.Transactional());
            && (outcome.Ok? <==> !failed && row.write == Written && row.finish == None)
            && (outcome.Ok? ==> outcome.value == row.id)
            && (failed ==> outcome.Err? && BatchOutcome(opts.kind, batch, scope.Transactional()) == Err(outcome.error))
            && (!failed && row.write.RowFails? ==> outcome == Err(row.write.error))
            && (!failed && row.write.BatchFails? ==> outcome == Err(row.write.error))
            && (!failed && row.write == Written && row.finish.Some? ==> outcome == Err(row.finish.value))
  {
    hide OwnOutcomes, BatchOutcome, BatchFails;
    OwnOutcomeAt(rows, size, scope, opts, i);
    BatchFailsExactly(opts.kind, BatchOf(rows, size, i), scope.Transactional());
  }

  /** At most `size` rows from `start` on. */
  function Slice(rows: seq<Row>, start: nat, size: nat): seq<Row>
    requires start <= |rows|
  {
    if start + size < |rows| then rows[start..start + size] else rows[start..]
  }

  lemma BatchOfLater(rows: seq<Row>, size: nat, i: nat)
    requires 0 < size <= i < |rows|
    ensures BatchOf(rows, size, i) == BatchOf(rows[size..], size, i - size)
  {}

  function Start(b: nat, size: nat): nat {
    b * size
  }

  lemma StartNext(b: nat, size: nat)
    ensures Start(b + 1, size) == Start(b, size) + size && Start(0, size) == 0
  {}

  /** Batch `b`: the rows from `b` batch sizes on, as many as the size or what is left. */
  lemma {:induction false} BatchesAreSlices(rows: seq<Row>, size: nat, b: nat, r: nat)
    requires r < size && Start(b, size) + r < |rows|
    ensures BatchOf(rows, size, Start(b, size) + r) == Slice(rows, Start(b, size), size)
    decreases b
  {
    hide Start;
    if b == 0 {
      StartNext(0, size);
    } else {
      hide Slice, BatchOf;
      var start := Start(b - 1, size);
      StartNext(b - 1, size);
      BatchesAreSlices(rows[size..], size, b - 1, r);
      BatchOfLater(rows, size, start + size + r);
      LaterSlice(rows, start, size);
    }
  }

  lemma LaterSlice(rows: seq<Row>, start: nat, size: nat)
    requires start + size <= |rows|
    ensures Slice(rows[size..], start, size) == Slice(rows, start + size, size)
  {}

  /** Without a batch size there is one batch, and a batch size of zero is one. */
  lemma BatchSizes(opts: Options, prepared: nat)
    ensures opts.batchSize == None && prepared > 0 ==> ChunkSize(opts, prepared) == prepared
    ensures opts.batchSize == Some(0) ==> ChunkSize(opts, prepared) == 1
    ensures opts.batchSize.Some? && opts.batchSize.value > 0 ==> ChunkSize(opts, prepared) == opts.batchSize.value
  {}

  // ---------- which rows are stored

  /** The rows that were written, in order. */
  function IdsWritten(rows: seq<Row>): seq<nat> {
    if rows == [] then [] else (if rows[0].write == Written then [rows[0].id] else []) + IdsWritten(rows[1..])
  }

  /** Those of them that nothing was wrong with. */
  function IdsDone(rows: seq<Row>): seq<nat> {
    if rows == [] then [] else (if Trouble(rows[0]) == None then [rows[0].id] else []) + IdsDone(rows[1..])
  }

  lemma {:induction false} DoneAreWritten(rows: seq<Row>)
    ensures multiset(IdsDone(rows)) <= multiset(IdsWritten(rows))
  {
    if rows != [] {
      DoneAreWritten(rows[1..]);
    }
  }

  lemma {:induction false} WrittenOfBoth(a: seq<Row>, b: seq<Row>)
    ensures IdsWritten(a + b) == IdsWritten(a) + IdsWritten(b)
  {
    if a == [] {
      assert a + b == b;
    } else {
      var one := if a[0].write == Written then [a[0].id] else [];
      assert (a + b)[0] == a[0] && (a + b)[1..] == a[1..] + b;
      WrittenOfBoth(a[1..], b);
      Regroup(one, IdsWritten(a[1..]), IdsWritten(b));
    }
  }

  lemma {:induction false} DoneOfBoth(a: seq<Row>, b: seq<Row>)
    ensures IdsDone(a + b) == IdsDone(a) + IdsDone(b)
  {
    if a == [] {
      assert a + b == b;
    } else {
      var one := if Trouble(a[0]) == None then [a[0].id] else [];
      assert (a + b)[0] == a[0] && (a + b)[1..] == a[1..] + b;
      DoneOfBoth(a[1..], b);
      Regroup(one, IdsDone(a[1..]), IdsDone(b));
    }
  }

  /** The data layer has written every row that was, up to the first that fails the write. */
  lemma {:induction false} AllRowsWritten(kind: Kind, batch: seq<Row>)
    requires forall i | 0 <= i < |batch| :: !FailsTheWrite(kind, batch[i])
    ensures WrittenRows(kind, batch) == IdsWritten(batch)
  {
    if batch != [] {
      assert forall i | 0 <= i < |batch[1..]| :: batch[1..][i] == batch[i + 1];
      AllRowsWritten(kind, batch[1..]);
    }
  }

  lemma {:induction false} RowsWrittenUpTo(kind: Kind, batch: seq<Row>, k: nat)
    requires FirstToFailTheWrite(kind, batch, k)
    ensures WrittenRows(kind, batch) == IdsWritten(batch[..k])
  {
    if k > 0 {
      assert forall i | 0 <= i < |batch[1..]| :: batch[1..][i] == batch[i + 1];
      RowsWrittenUpTo(kind, batch[1..], k - 1);
      assert batch[..k][1..] == batch[1..][..k - 1];
    }
  }

  /** Finishing announces every row nothing is wrong with, in a transaction up to the first in trouble other
      than being stale. */
  lemma {:induction false} AllRowsAnnounced(batch: seq<Row>, transactional: bool)
    requires transactional ==> forall i | 0 <= i < |batch| :: !Undoes(batch[i])
    ensures FinishedRows(batch, transactional) == IdsDone(batch)
  {
    if batch != [] {
      assert forall i | 0 <= i < |batch[1..]| :: batch[1..][i] == batch[i + 1];
      AllRowsAnnounced(batch[1..], transactional);
    }
  }

  lemma {:induction false} RowsAnnouncedUpTo(batch: seq<Row>, k: nat)
    requires FirstToUndo(batch, k)
    ensures FinishedRows(batch, true) == IdsDone(batch[..k])
  {
    if k > 0 {
      assert forall i | 0 <= i < |batch[1..]| :: batch[1..][i] == batch[i + 1];
      RowsAnnouncedUpTo(batch[1..], k - 1);
      assert batch[..k][1..] == batch[1..][..k - 1];
    }
  }

  lemma PrefixDone(batch: seq<Row>, k: nat)
    requires k <= |batch|
    ensures multiset(IdsDone(batch[..k])) <= multiset(IdsWritten(batch))
    ensures multiset(IdsWritten(batch[..k])) <= multiset(IdsWritten(batch))
  {
    assert batch == batch[..k] + batch[k..];
    WrittenOfBoth(batch[..k], batch[k..]);
    DoneOfBoth(batch[..k], batch[k..]);
    DoneAreWritten(batch);
  }

  /** A batch leaves stored only rows that were written, all of them unless it fails, and none if it fails
      and is rolled back. Unless it is rolled back, what it announces is stored. */
  lemma BatchStores(batch: seq<Row>, scope: Scope, opts: Options)
    ensures var effect, failed := BatchEffect(batch, scope, opts), BatchFails(opts.kind, batch, scope.Transactional());
            && multiset(effect.rows) <= multiset(IdsWritten(batch))
            && (!failed ==> effect.rows == IdsWritten(batch))
            && (failed && scope.perBatch ==> effect.rows == [])
            && (!failed ==> effect.sent == if opts.notify then IdsDone(batch) else [])
            && (!(failed && scope.perBatch) ==> multiset(effect.sent) <= multiset(effect.rows))
            && (failed && scope.perBatch && !scope.buffered ==> effect.sent == [])
  {
    hide WrittenRows, FinishedRows, FinishOutcomes, WriteFailure, Trouble, Undoes, FailsTheWrite, IdsWritten, IdsDone;
    var transactional := scope.Transactional();
    BatchFailsExactly(opts.kind, batch, transactional);
    var w := WriteFailureIsTheFirst(opts.kind, batch);
    var f := FinishingFailsAtTheFirst(batch, transactional);
    DoneAreWritten(batch);
    if WriteFailure(opts.kind, batch).Some? {
      RowsWrittenUpTo(opts.kind, batch, w);
      PrefixDone(batch, w);
    } else {
      AllRowsWritten(opts.kind, batch);
      if FinishOutcomes(batch, transactional).Err? {
        RowsAnnouncedUpTo(batch, f);
        PrefixDone(batch, f);
      } else {
        AllRowsAnnounced(batch, transactional);
      }
    }
  }

  lemma {:induction false} DoneOfFinished(batch: seq<Row>, transactional: bool)
    requires FinishOutcomes(batch, transactional).Ok?
    ensures Succeeded(FinishOutcomes(batch, transactional).value) == IdsDone(batch)
  {
    if batch != [] {
      DoneOfFinished(batch[1..], transactional);
    }
  }

  /** The rows of a batch that come out well: those nothing is wrong with, and none if it fails. */
  lemma BatchCounts(batch: seq<Row>, kind: Kind, transactional: bool)
    ensures Succeeded(BatchOutcomes(batch, kind, transactional))
            == if BatchFails(kind, batch, transactional) then [] else IdsDone(batch)
  {
    hide FinishOutcomes, WriteFailure, BatchFails, IdsDone;
    BatchFailsExactly(kind, batch, transactional);
    var outcome := BatchOutcome(kind, batch, transactional);
    if outcome.Ok? {
      OutcomeIsFinished(kind, batch, transactional);
      DoneOfFinished(batch, transactional);
    } else {
      AllFailedSucceedNowhere(batch, outcome.error);
    }
  }

  // ---------- counted and announced rows are stored

  /** No prepared row is in a batch that fails. */
  ghost predicate NoBatchFails(rows: seq<Row>, size: nat, scope: Scope, opts: Options)
    requires size > 0
  {
    forall i | 0 <= i < |rows| :: !BatchFails(opts.kind, BatchOf(rows, size, i), scope.Transactional())
  }

  lemma NoBatchFailsOfMore(rows: seq<Row>, size: nat, scope: Scope, opts: Options, batch: seq<Row>, rest: seq<Row>)
    requires size > 0 && rows != [] && rows == batch + rest && |batch| == Chunk(rows, size)
    requires NoBatchFails(rows, size, scope, opts)
    ensures !BatchFails(opts.kind, batch, scope.Transactional()) && NoBatchFails(rest, size, scope, opts)
  {
    hide BatchFails;
    assert batch == rows[..|batch|] && rest == rows[|batch|..];
    assert BatchOf(rows, size, 0) == batch;
    assert forall i | 0 <= i < |rest| :: BatchOf(rows, size, |batch| + i) == BatchOf(rest, size, i);
  }

  lemma {:induction false} BatchesStoreWritten(rows: seq<Row>, size: nat, scope: Scope, opts: Options)
    requires size > 0
    ensures var p := BatchesProgress(rows, size, scope, opts);
            && multiset(p.summary.rows) <= multiset(IdsWritten(rows))
            && (p.stopped.None? && NoBatchFails(rows, size, scope, opts) ==> p.summary.rows == IdsWritten(rows))
    decreases |rows|
  {
    if rows != [] {
      var batch, rest := FirstBatch(rows, size, scope, opts);
      hide BatchesProgress, BatchProgress, BatchEffect, BatchFails, NoBatchFails, IdsWritten, IdsDone;
      BatchRuns(batch, scope, opts);
      BatchStores(batch, scope, opts);
      BatchesStoreWritten(rest, size, scope, opts);
      WrittenOfBoth(batch, rest);
      if NoBatchFails(rows, size, scope, opts) {
        NoBatchFailsOfMore(rows, size, scope, opts, batch, rest);
      }
    }
  }

  lemma {:induction false} BatchesStoreCounted(rows: seq<Row>, size: nat, scope: Scope, opts: Options)
    requires size > 0 && BatchesProgress(rows, size, scope, opts).stopped.None?
    ensures multiset(Counted(rows, size, opts.kind, scope.Transactional()))
            <= multiset(BatchesProgress(rows, size, scope, opts).summary.rows)
    decreases |rows|
  {
    if rows != [] {
      var batch, rest := FirstBatch(rows, size, scope, opts);
      hide BatchesProgress, BatchProgress, OwnOutcomes, BatchOutcomes, BatchEffect, BatchFails, IdsWritten, IdsDone;
      BatchRuns(batch, scope, opts);
      BatchStores(batch, scope, opts);
      BatchCounts(batch, opts.kind, scope.Transactional());
      DoneAreWritten(batch);
      BatchesStoreCounted(rest, size, scope, opts);
      SucceededConcat(BatchOutcomes(batch, opts.kind, scope.Transactional()),
                      OwnOutcomes(rest, size, opts.kind, scope.Transactional()));
    }
  }

  lemma {:induction false} BatchesStoreAnnounced(rows: seq<Row>, size: nat, scope: Scope, opts: Options)
    requires size > 0 && (!(scope.perBatch && scope.buffered) || NoBatchFails(rows, size, scope, opts))
    ensures var s := BatchesProgress(rows, size, scope, opts).summary; multiset(s.sent) <= multiset(s.rows)
    decreases |rows|
  {
    if rows != [] {
      var batch, rest := FirstBatch(rows, size, scope, opts);
      hide BatchesProgress, BatchProgress, BatchEffect, BatchFails, NoBatchFails, IdsWritten, IdsDone;
      BatchRuns(batch, scope, opts);
      BatchStores(batch, scope, opts);
      if NoBatchFails(rows, size, scope, opts) {
        NoBatchFailsOfMore(rows, size, scope, opts, batch, rest);
      }
      BatchesStoreAnnounced(rest, size, scope, opts);
    }
  }

  /** For every kind, mode and scope, of what an action has stored when it is not rolled back as a whole:
      nothing is stored that was not written, and everything that was if no batch fails. Every counted row
      is stored; and every announced one, unless a batch with a transaction of its own fails within an
      outer buffer, where what it announced waits on. */
  lemma CountedAndAnnouncedAreStored(inputs: seq<Row>, scope: Scope, opts: Options)
    ensures var p, prepared := ActionProgress(inputs, scope, opts), Prepared(inputs);
            var size := ChunkSize(opts, |prepared|);
            var noneFails := NoBatchFails(prepared, size, scope, opts);
            && multiset(p.summary.rows) <= multiset(IdsWritten(prepared))
            && (p.stopped.None? && noneFails ==> p.summary.rows == IdsWritten(prepared))
            && (p.stopped.None? ==>
                  multiset(Counted(prepared, size, opts.kind, scope.Transactional())) <= multiset(p.summary.rows))
            && (!(scope.perBatch && scope.buffered) || noneFails ==>
                  multiset(p.summary.sent) <= multiset(p.summary.rows))
  {
    hide BatchesProgress, PrepareRows, Prepared, Counted, NoBatchFails, IdsWritten;
    var prepared := Prepared(inputs);
    var size := ChunkSize(opts, |prepared|);
    PreparationRunsRejectHooks(inputs, scope, opts.stopOnError);
    BatchesStoreWritten(prepared, size, scope, opts);
    if BatchesProgress(prepared, size, scope, opts).stopped.None? {
      BatchesStoreCounted(prepared, size, scope, opts);
    }
    if !(scope.perBatch && scope.buffered) || NoBatchFails(prepared, size, scope, opts) {
      BatchesStoreAnnounced(prepared, size, scope, opts);
    }
    var batches := BatchesProgress(prepared, size, scope, opts).summary;
    assert [] + batches.rows == batches.rows && [] + batches.sent == batches.sent;
  }

  /** Such a batch: its first row is announced and its second fails it. */
  lemma FailedBatchAnnouncesWithinABuffer(scope: Scope, opts: Options, message: string)
    requires scope.perBatch && scope.buffered && opts.notify
    ensures var rows := [Row(1, None, None, Written, None, None),
                         Row(2, None, None, Written, Some(Failed(message)), None)];
            BatchEffect(rows, scope, opts).rows == [] && BatchEffect(rows, scope, opts).sent == [1]
  {
    var fine, failing := Row(1, None, None, Written, None, None),
                         Row(2, None, None, Written, Some(Failed(message)), None);
    var rows := [fine, failing];
    assert Undoes(rows[1]);
    BatchStores(rows, scope, opts);
    assert FirstToUndo(rows, 1);
    RowsAnnouncedUpTo(rows, 1);
    assert rows[..1] == [fine] && [fine][1..] == [];
    assert IdsDone([fine]) == [1];
    var w := WriteFailureIsTheFirst(opts.kind, rows);
  }

  // ---------- counted records can be read back

  lemma {:induction false} SettledAreReadable(batch: seq<Row>, outcomes: seq<Outcome>, opts: Options, i: nat)
    requires |batch| == |outcomes| && i < |batch| && opts.returnRecords && outcomes[i].Ok?
    requires SettleRows(batch, outcomes, opts).stopped.None?
    ensures batch[i].unreadable == None
  {
    if i > 0 {
      SettledAreReadable(batch[1..], outcomes[1..], opts, i - 1);
    }
  }

  lemma {:induction false} CountedAreReadable(rows: seq<Row>, size: nat, scope: Scope, opts: Options, i: nat)
    requires size > 0 && i < |rows| && opts.returnRecords
    requires BatchesProgress(rows, size, scope, opts).stopped.None?
    requires OwnOutcomes(rows, size, opts.kind, scope.Transactional())[i].Ok?
    ensures rows[i].unreadable == None
    decreases |rows|
  {
    var batch, rest := FirstBatch(rows, size, scope, opts);
    hide BatchesProgress, OwnOutcomes, BatchEffect, WriteFailure, FinishOutcomes, SettleRows, HooksWith;
    if i >= |batch| {
      CountedAreReadable(rest, size, scope, opts, i - |batch|);
    } else {
      var transactional := scope.Transactional();
      if BatchOutcome(opts.kind, batch, transactional).Ok? {
        FinishOutcomesLength(batch, transactional);
        OutcomeIsFinished(opts.kind, batch, transactional);
        SettledAreReadable(batch, BatchOutcome(opts.kind, batch, transactional).value, opts, i);
      } else {
        AllFailedAt(batch, BatchOutcome(opts.kind, batch, transactional).error, i);
      }
    }
  }

  /** An action that is to return records and does not stop has read back every row that came out well. */
  lemma ReturnedRecordsAreReadable(inputs: seq<Row>, scope: Scope, opts: Options, i: nat)
    requires opts.returnRecords && ActionProgress(inputs, scope, opts).stopped.None?
    requires i < |Prepared(inputs)|
    requires OwnOutcomes(Prepared(inputs), ChunkSize(opts, |Prepared(inputs)|), opts.kind, scope.Transactional())[i].Ok?
    ensures Prepared(inputs)[i].unreadable == None
  {
    hide BatchesProgress, OwnOutcomes, PrepareRows, Prepared;
    var preparing, batches := ActionParts(inputs, scope, opts);
    CountedAreReadable(Prepared(inputs), ChunkSize(opts, |Prepared(inputs)|), scope, opts, i);
  }

  // ---------- what the modes mean

  /** A data layer that transacts, and the mode asked for, decide what is rolled back: in one transaction,
      everything as soon as the action fails; batch by batch, each batch that fails; and otherwise nothing,
      and finishing a row fails that row alone. */
  lemma ModesDecideWhatIsRolledBack(inputs: seq<Row>, batch: seq<Row>, opts: Options, canTransact: bool, buffered: bool)
    ensures var scope := ScopeFor(opts, canTransact, buffered);
            var rolledBack, effect := RolledBack(inputs, scope, opts), BatchEffect(batch, scope, opts);
            var failed := BatchOutcome(opts.kind, batch, scope.Transactional()).Err?;
            var failsWrite := exists i | 0 <= i < |batch| :: FailsTheWrite(opts.kind, batch[i]);
            var undone := exists i | 0 <= i < |batch| :: Undoes(batch[i]);
            && scope.buffered == buffered
            && (canTransact && opts.mode == All ==>
                  && (rolledBack <==> ActionProgress(inputs, scope, opts).stopped != None)
                  && effect.rows == WrittenRows(opts.kind, batch)
                  && (failed <==> failsWrite || undone))
            && (canTransact && opts.mode == Batch ==>
                  && !rolledBack
                  && effect.rows == (if failed then [] else IdsWritten(batch))
                  && (failed <==> failsWrite || undone))
            && (!canTransact || opts.mode == Off ==>
                  && !rolledBack
                  && effect.rows == WrittenRows(opts.kind, batch)
                  && (failed <==> failsWrite))
  {
    hide ActionProgress, WrittenRows, FinishedRows, WriteFailure, FinishOutcomes, IdsWritten;
    var scope := ScopeFor(opts, canTransact, buffered);
    BatchFailsExactly(opts.kind, batch, scope.Transactional());
    BatchStores(batch, scope, opts);
  }
}
