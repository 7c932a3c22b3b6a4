/**
 The bulk actions themselves: loops over rows and batches that write, hold notifications back
 and count in place, each proved to do what `Bulk` says it comes to.
 */
module BulkActions {
  import opened Sequences
  import opened Wrappers
  import opened Bulk

  /** What an action changes: rows stored, notifications given out or held back, hooks run, and
      its counters. */
  datatype State = State(
    rows: seq<nat>, delivered: seq<nat>, waiting: seq<nat>, hooks: seq<Hook>,
    records: seq<nat>, errors: seq<Error>, errorCount: nat, count: nat)

  /** A summary added to a state; `held` is whether notifications are held back. */
  function After(s: State, added: Summary, held: bool): State {
    State(s.rows + added.rows,
          if held then s.delivered else s.delivered + added.sent,
          if held then s.waiting + added.sent else s.waiting,
          s.hooks + added.hooks,
          s.records + added.records,
          s.errors + added.errors,
          s.errorCount + added.errorCount,
          s.count + added.count)
  }

  lemma AfterPlus(s: State, a: Summary, b: Summary, held: bool)
    ensures After(After(s, a, held), b, held) == After(s, a.Plus(b), held)
  {
    Regroup(s.rows, a.rows, b.rows);
    Regroup(s.delivered, a.sent, b.sent);
    Regroup(s.waiting, a.sent, b.sent);
    Regroup(s.hooks, a.hooks, b.hooks);
    Regroup(s.records, a.records, b.records);
    Regroup(s.errors, a.errors, b.errors);
  }

  lemma AfterNothing(s: State, held: bool)
    ensures After(s, NOTHING, held) == s
  {
    var t := After(s, NOTHING, held);
    assert t.rows == s.rows && t.delivered == s.delivered && t.waiting == s.waiting;
    assert t.hooks == s.hooks && t.records == s.records && t.errors == s.errors;
  }

  /** One stretch and then another, unless the first stopped. */
  lemma AfterContinue(s: State, first: Progress, second: Progress, held: bool)
    ensures After(s, Continue(first, second).summary, held)
            == if first.stopped.Some? then After(s, first.summary, held)
               else After(After(s, first.summary, held), second.summary, held)
  {
    AfterPlus(s, first.summary, second.summary, held);
  }

  /** The outcomes so far, then those to come, unless they fail the batch. */
  function Behind(outcomes: seq<Outcome>, rest: Result<seq<Outcome>, Error>): Result<seq<Outcome>, Error> {
    match rest
    case Err(e) => Err(e)
    case Ok(more) => Ok(outcomes + more)
  }

  lemma BehindNothing(rest: Result<seq<Outcome>, Error>)
    ensures Behind([], rest) == rest
  {
    if rest.Ok? {
      assert [] + rest.value == rest.value;
    }
  }

  /** A batch's outcome and effect, by whether its write failed and whether it fails as a whole. */
  lemma BatchParts(batch: seq<Row>, scope: Scope, opts: Options)
    ensures var failure := WriteFailure(opts.kind, batch);
            BatchOutcome(opts.kind, batch, scope.Transactional())
            == if failure.Some? then Err(failure.value) else FinishOutcomes(batch, scope.Transactional())
    ensures var outcome := BatchOutcome(opts.kind, batch, scope.Transactional());
            && BatchEffect(batch, scope, opts).rows
               == (if outcome.Err? && scope.perBatch then [] else WrittenRows(opts.kind, batch))
            && BatchEffect(batch, scope, opts).sent
               == (if !opts.notify || WriteFailure(opts.kind, batch).Some?
                   || (outcome.Err? && scope.perBatch && !scope.buffered)
                   then [] else FinishedRows(batch, scope.Transactional()))
  {}

  /** Enough to know of a state to be what a batch's effect leaves. */
  lemma BatchEffectLeaves(before: State, after: State, batch: seq<Row>, scope: Scope, opts: Options)
    requires after == before.(rows := after.rows, delivered := after.delivered, waiting := after.waiting)
    requires var e := BatchEffect(batch, scope, opts);
             && after.rows == before.rows + e.rows
             && (if scope.buffered || scope.whole
                 then after.delivered == before.delivered && after.waiting == before.waiting + e.sent
                 else after.delivered == before.delivered + e.sent && after.waiting == before.waiting)
    ensures after == After(before, BatchEffect(batch, scope, opts), scope.buffered || scope.whole)
  {
    AfterNothing(before, scope.buffered || scope.whole);
  }

  lemma NothingToSettle(batch: seq<Row>, outcomes: seq<Outcome>, opts: Options)
    requires |batch| == |outcomes| == 0
    ensures SettleRows(batch, outcomes, opts) == Progress(NOTHING, None)
  {}

  /** The first row still to be settled, and those after it. */
  lemma SettleNext(batch: seq<Row>, outcomes: seq<Outcome>, opts: Options, i: nat)
    requires i < |batch| == |outcomes|
    ensures SettleRows(batch[i..], outcomes[i..], opts)
            == Continue(SettleRow(batch[i], outcomes[i], opts), SettleRows(batch[i + 1..], outcomes[i + 1..], opts))
  {
    assert batch[i..][0] == batch[i] && batch[i..][1..] == batch[i + 1..];
    assert outcomes[i..][0] == outcomes[i] && outcomes[i..][1..] == outcomes[i + 1..];
  }

  /** Finishing the next row: it ends the batch, or adds its outcome and its notification. */
  lemma FinishNext(batch: seq<Row>, transactional: bool, i: nat, outcomes: seq<Outcome>, sent: seq<nat>)
    requires i < |batch|
    ensures var outcome, rest := RowOutcome(batch[i]), batch[i..];
            if transactional && Failing(outcome) then
              Behind(outcomes, FinishOutcomes(rest, true)) == Err(outcome.error)
                && sent + FinishedRows(rest, true) == sent
            else
              && Behind(outcomes, FinishOutcomes(rest, transactional))
                 == Behind(outcomes + [outcome], FinishOutcomes(batch[i + 1..], transactional))
              && sent + FinishedRows(rest, transactional)
                 == (if outcome.Ok? then sent + [batch[i].id] else sent) + FinishedRows(batch[i + 1..], transactional)
  {
    assert batch[i..][0] == batch[i] && batch[i..][1..] == batch[i + 1..];
    var rest := FinishOutcomes(batch[i + 1..], transactional);
    if rest.Ok? {
      Regroup(outcomes, [RowOutcome(batch[i])], rest.value);
    }
    Regroup(sent, [batch[i].id], FinishedRows(batch[i + 1..], transactional));
  }

  lemma NothingToFinish(batch: seq<Row>, transactional: bool, outcomes: seq<Outcome>, sent: seq<nat>)
    requires batch == []
    ensures Behind(outcomes, FinishOutcomes(batch, transactional)) == Ok(outcomes)
    ensures sent + FinishedRows(batch, transactional) == sent
  {
    assert outcomes + [] == outcomes;
  }

  lemma PrepareNext(inputs: seq<Row>, scope: Scope, stopOnError: bool, i: nat)
    requires i < |inputs|
    ensures PrepareRows(inputs[i..], scope, stopOnError)
            == Continue(PrepareRow(inputs[i], scope, stopOnError), PrepareRows(inputs[i + 1..], scope, stopOnError))
    ensures PrepareRow(inputs[i], scope, stopOnError).stopped.Some? ==> !IsPrepared(inputs[i])
  {
    hide Continue, Prepared;
    assert inputs[i..][0] == inputs[i] && inputs[i..][1..] == inputs[i + 1..];
  }

  lemma PreparedNext(inputs: seq<Row>, i: nat, prepared: seq<Row>)
    requires i < |inputs|
    ensures prepared + Prepared(inputs[i..])
            == (if IsPrepared(inputs[i]) then prepared + [inputs[i]] else prepared) + Prepared(inputs[i + 1..])
  {
    assert inputs[i..][0] == inputs[i] && inputs[i..][1..] == inputs[i + 1..];
    Regroup(prepared, [inputs[i]], Prepared(inputs[i + 1..]));
  }

  lemma NothingToPrepare(inputs: seq<Row>, scope: Scope, stopOnError: bool, prepared: seq<Row>)
    requires inputs == []
    ensures PrepareRows(inputs, scope, stopOnError) == Progress(NOTHING, None)
    ensures prepared + Prepared(inputs) == prepared
  {}

  lemma NextBatch(rows: seq<Row>, size: nat, scope: Scope, opts: Options)
    requires size > 0 && rows != []
    ensures 0 < Chunk(rows, size) <= |rows|
    ensures BatchesProgress(rows, size, scope, opts)
            == Continue(BatchProgress(rows[..Chunk(rows, size)], scope, opts),
                        BatchesProgress(rows[Chunk(rows, size)..], size, scope, opts))
  {}

  lemma NoBatches(rows: seq<Row>, size: nat, scope: Scope, opts: Options)
    requires size > 0 && rows == []
    ensures BatchesProgress(rows, size, scope, opts) == Progress(NOTHING, None)
  {}

  /** A batch's effect and then its settlement; nothing is left waiting that was not held back. */
  lemma AfterBatch(s: State, batch: seq<Row>, scope: Scope, opts: Options, held: bool)
    ensures BatchProgress(batch, scope, opts).stopped == BatchSettlement(batch, scope, opts).stopped
    ensures After(s, BatchProgress(batch, scope, opts).summary, held)
            == After(After(s, BatchEffect(batch, scope, opts), held), BatchSettlement(batch, scope, opts).summary, held)
    ensures !held ==> After(s, BatchProgress(batch, scope, opts).summary, held).waiting == s.waiting
  {
    AfterContinue(s, Progress(BatchEffect(batch, scope, opts), None), BatchSettlement(batch, scope, opts), held);
  }

  class Action {
    var rows: seq<nat>
    var delivered: seq<nat>
    var waiting: seq<nat>
    var hooks: seq<Hook>
    var records: seq<nat>
    var errors: seq<Error>
    var errorCount: nat
    var count: nat

    function View(): State
      reads this
    {
      State(rows, delivered, waiting, hooks, records, errors, errorCount, count)
    }

    /** `BulkResult::fail`: counts a failed row, or returns its error. */
    method Fail(error: Error, stops: bool) returns (stopped: Option<Error>)
      modifies this`errors, this`errorCount
      ensures stopped == FailProgress(error, stops).stopped
      ensures forall held :: View() == After(old(View()), FailProgress(error, stops).summary, held)
    {
      ghost var before := View();
      if stops {
        stopped := Some(error);
        forall held ensures View() == After(before, NOTHING, held) {
          AfterNothing(before, held);
        }
      } else {
        errors := errors + [error];
        errorCount := errorCount + 1;
        stopped := None;
        forall held ensures View() == After(before, FailProgress(error, stops).summary, held) {
          AfterNothing(before, held);
        }
      }
    }

    // ---------- writing and finishing a batch

    /** The data layer writes rows in order. Written together, the first that fails the write ends
        it; upserted one at a time, each has its own result. */
    method WriteRows(kind: Kind, batch: seq<Row>) returns (failure: Option<Error>)
      modifies this`rows
      ensures failure == WriteFailure(kind, batch)
      ensures rows == old(rows) + WrittenRows(kind, batch)
    {
      assert batch[0..] == batch;
      for i := 0 to |batch|
        invariant WriteFailure(kind, batch[i..]) == WriteFailure(kind, batch)
        invariant rows + WrittenRows(kind, batch[i..]) == old(rows) + WrittenRows(kind, batch)
      {
        var row := batch[i];
        assert batch[i..][0] == row && batch[i..][1..] == batch[i + 1..];
        if kind != Upsert && WriteFails(kind, row) {
          return Some(row.write.error);
        }
        if row.write == Written {
          Regroup(rows, [row.id], WrittenRows(kind, batch[i + 1..]));
          rows := rows + [row.id];
        }
      }
      return None;
    }

    method Dispatch(id: nat, queued: bool)
      modifies this`waiting, this`delivered
      ensures waiting == if queued then old(waiting) + [id] else old(waiting)
      ensures delivered == if queued then old(delivered) else old(delivered) + [id]
    {
      if queued {
        waiting := waiting + [id];
      } else {
        delivered := delivered + [id];
      }
    }

    /** Finishes each row of a written batch, in order. */
    method FinishRows(batch: seq<Row>, notify: bool, transactional: bool, queued: bool)
      returns (r: Result<seq<Outcome>, Error>)
      modifies this`waiting, this`delivered
      ensures r == FinishOutcomes(batch, transactional)
      ensures var sent := if notify then FinishedRows(batch, transactional) else [];
              && waiting == (if queued then old(waiting) + sent else old(waiting))
              && delivered == (if queued then old(delivered) else old(delivered) + sent)
    {
      hide RowOutcome, FinishOutcomes, FinishedRows, Behind;
      var outcomes: seq<Outcome> := [];
      ghost var sent: seq<nat> := [];
      assert batch[0..] == batch;
      BehindNothing(FinishOutcomes(batch, transactional));
      for i := 0 to |batch|
        invariant FinishOutcomes(batch, transactional) == Behind(outcomes, FinishOutcomes(batch[i..], transactional))
        invariant sent + FinishedRows(batch[i..], transactional) == FinishedRows(batch, transactional)
        invariant waiting == if queued && notify then old(waiting) + sent else old(waiting)
        invariant delivered == if !queued && notify then old(delivered) + sent else old(delivered)
      {
        var outcome := RowOutcome(batch[i]);
        FinishNext(batch, transactional, i, outcomes, sent);
        if transactional && Failing(outcome) {
          return Err(outcome.error);
        }
        if outcome.Ok? {
          if notify {
            Dispatch(batch[i].id, queued);
          }
          Regroup(if queued then old(waiting) else old(delivered), sent, [batch[i].id]);
          sent := sent + [batch[i].id];
        }
        outcomes := outcomes + [outcome];
      }
      NothingToFinish(batch[|batch|..], transactional, outcomes, sent);
      return Ok(outcomes);
    }

    /** Writes and finishes a batch, in a transaction of its own when the scope says so. */
    method InBatch(batch: seq<Row>, scope: Scope, opts: Options) returns (r: Result<seq<Outcome>, Error>)
      requires !(scope.perBatch && scope.whole)
      requires !scope.buffered && !scope.whole ==> waiting == []
      modifies this`rows, this`waiting, this`delivered
      ensures r == BatchOutcome(opts.kind, batch, scope.Transactional())
      ensures View() == After(old(View()), BatchEffect(batch, scope, opts), scope.buffered || scope.whole)
    {
      hide WrittenRows, FinishedRows, WriteFailure, FinishOutcomes, After, BatchEffect, BatchOutcome;
      BatchParts(batch, scope, opts);
      ghost var before := View();
      var snapshot := rows;
      var opensQueue := scope.perBatch && !scope.buffered && !scope.whole;
      var failure := WriteRows(opts.kind, batch);
      if failure.Some? {
        r := Err(failure.value);
      } else {
        r := FinishRows(batch, opts.notify, scope.Transactional(), scope.buffered || scope.whole || opensQueue);
      }
      if scope.perBatch && r.Err? {
        rows := snapshot;
      }
      if opensQueue {
        if r.Ok? {
          delivered := delivered + waiting;
        }
        waiting := [];
      }
      assert before.waiting + [] == before.waiting && before.delivered + [] == before.delivered
             && before.rows + [] == before.rows;
      assert opensQueue ==> before.waiting == [];
      BatchEffectLeaves(before, View(), batch, scope, opts);
    }

    // ---------- concluding and counting a batch

    /** Runs each row's hooks with its outcome. */
    method Conclude(batch: seq<Row>, outcomes: seq<Outcome>)
      requires |batch| == |outcomes|
      modifies this`hooks
      ensures hooks == old(hooks) + HooksWith(batch, outcomes)
    {
      assert batch[0..] == batch && outcomes[0..] == outcomes;
      for i := 0 to |batch|
        invariant hooks + HooksWith(batch[i..], outcomes[i..]) == old(hooks) + HooksWith(batch, outcomes)
      {
        assert batch[i..][0] == batch[i] && batch[i..][1..] == batch[i + 1..];
        assert outcomes[i..][0] == outcomes[i] && outcomes[i..][1..] == outcomes[i + 1..];
        Regroup(hooks, [Hook(batch[i].id, outcomes[i])], HooksWith(batch[i + 1..], outcomes[i + 1..]));
        hooks := hooks + [Hook(batch[i].id, outcomes[i])];
      }
    }

    method SettleOne(row: Row, outcome: Outcome, opts: Options, ghost held: bool) returns (stopped: Option<Error>)
      modifies this`records, this`errors, this`errorCount, this`count
      ensures stopped == SettleRow(row, outcome, opts).stopped
      ensures View() == After(old(View()), SettleRow(row, outcome, opts).summary, held)
    {
      AfterNothing(View(), held);
      match outcome
      case Ok(_) =>
        if opts.returnRecords {
          if row.unreadable.Some? {
            return row.unreadable;
          }
          records := records + [row.id];
        }
        count := count + 1;
        stopped := None;
      case Err(Stale(_)) =>
        stopped := None;
      case Err(e) =>
        stopped := Fail(e, opts.stopOnError);
    }

    method SettleEach(batch: seq<Row>, outcomes: seq<Outcome>, opts: Options, ghost held: bool)
      returns (stopped: Option<Error>)
      requires |batch| == |outcomes|
      modifies this`records, this`errors, this`errorCount, this`count
      ensures stopped == SettleRows(batch, outcomes, opts).stopped
      ensures View() == After(old(View()), SettleRows(batch, outcomes, opts).summary, held)
    {
      hide SettleRow, SettleRows, After;
      ghost var total := SettleRows(batch, outcomes, opts);
      ghost var final := After(View(), total.summary, held);
      assert batch[0..] == batch && outcomes[0..] == outcomes;
      for i := 0 to |batch|
        invariant SettleRows(batch[i..], outcomes[i..], opts).stopped == total.stopped
        invariant After(View(), SettleRows(batch[i..], outcomes[i..], opts).summary, held) == final
      {
        SettleNext(batch, outcomes, opts, i);
        AfterContinue(View(), SettleRow(batch[i], outcomes[i], opts),
                      SettleRows(batch[i + 1..], outcomes[i + 1..], opts), held);
        stopped := SettleOne(batch[i], outcomes[i], opts, held);
        if stopped.Some? {
          return;
        }
      }
      AfterNothing(View(), held);
      NothingToSettle(batch[|batch|..], outcomes[|batch|..], opts);
      stopped := None;
    }

    /** Concludes a batch's rows with their outcomes, then counts them. */
    method Settle(batch: seq<Row>, outcome: Result<seq<Outcome>, Error>, scope: Scope, opts: Options)
      returns (stopped: Option<Error>)
      requires outcome == BatchOutcome(opts.kind, batch, scope.Transactional())
      modifies this`hooks, this`records, this`errors, this`errorCount, this`count
      ensures stopped == BatchSettlement(batch, scope, opts).stopped
      ensures View() == After(old(View()), BatchSettlement(batch, scope, opts).summary, scope.buffered || scope.whole)
    {
      ghost var held := scope.buffered || scope.whole;
      AfterNothing(View(), held);
      FinishOutcomesLength(batch, scope.Transactional());
      match outcome
      case Err(e) =>
        Conclude(batch, AllFailed(batch, e));
        if scope.whole || opts.stopOnError {
          return Some(e);
        }
        errors := errors + [e];
        errorCount := errorCount + |batch|;
        stopped := None;
      case Ok(outcomes) =>
        var concluded := Progress(NOTHING.(hooks := HooksWith(batch, outcomes)), None);
        AfterContinue(View(), concluded, SettleRows(batch, outcomes, opts), held);
        Conclude(batch, outcomes);
        stopped := SettleEach(batch, outcomes, opts, held);
    }

    // ---------- the whole action

    /** Prepares each row, in order. */
    method PrepareAll(inputs: seq<Row>, scope: Scope, opts: Options)
      returns (prepared: seq<Row>, stopped: Option<Error>)
      modifies this`hooks, this`errors, this`errorCount
      ensures stopped == PrepareRows(inputs, scope, opts.stopOnError).stopped
      ensures stopped.None? ==> prepared == Prepared(inputs)
      ensures View() == After(old(View()), PrepareRows(inputs, scope, opts.stopOnError).summary, scope.buffered
                              || scope.whole)
    {
      hide PrepareRow, PrepareRows, After, Prepared;
      ghost var held := scope.buffered || scope.whole;
      ghost var total := PrepareRows(inputs, scope, opts.stopOnError);
      ghost var final := After(View(), total.summary, held);
      prepared := [];
      assert inputs[0..] == inputs && prepared + Prepared(inputs) == Prepared(inputs);
      for i := 0 to |inputs|
        invariant PrepareRows(inputs[i..], scope, opts.stopOnError).stopped == total.stopped
        invariant After(View(), PrepareRows(inputs[i..], scope, opts.stopOnError).summary, held) == final
        invariant prepared + Prepared(inputs[i..]) == Prepared(inputs)
      {
        PrepareNext(inputs, scope, opts.stopOnError, i);
        PreparedNext(inputs, i, prepared);
        AfterContinue(View(), PrepareRow(inputs[i], scope, opts.stopOnError),
                      PrepareRows(inputs[i + 1..], scope, opts.stopOnError), held);
        stopped := PrepareOne(inputs[i], scope, opts, held);
        if stopped.Some? {
          return;
        }
        if IsPrepared(inputs[i]) {
          prepared := prepared + [inputs[i]];
        }
      }
      AfterNothing(View(), held);
      NothingToPrepare(inputs[|inputs|..], scope, opts.stopOnError, prepared);
      stopped := None;
    }

    /** Prepares one row. One that fails is concluded if it got as far as having hooks, and rejected:
        that fails the action if it is one transaction. */
    method PrepareOne(row: Row, scope: Scope, opts: Options, ghost held: bool) returns (stopped: Option<Error>)
      modifies this`hooks, this`errors, this`errorCount
      ensures stopped == PrepareRow(row, scope, opts.stopOnError).stopped
      ensures View() == After(old(View()), PrepareRow(row, scope, opts.stopOnError).summary, held)
    {
      ghost var before := View();
      AfterNothing(before, held);
      if row.built.Some? {
        stopped := Fail(row.built.value, scope.whole || opts.stopOnError);
        return;
      }
      if row.prepared.Some? {
        AfterContinue(View(), Progress(NOTHING.(hooks := [Hook(row.id, Err(row.prepared.value))]), None),
                      FailProgress(row.prepared.value, scope.whole || opts.stopOnError), held);
        hooks := hooks + [Hook(row.id, Err(row.prepared.value))];
        assert View() == After(before, NOTHING.(hooks := [Hook(row.id, Err(row.prepared.value))]), held);
        stopped := Fail(row.prepared.value, scope.whole || opts.stopOnError);
        return;
      }
      stopped := None;
    }

    /** Writes, finishes and counts the prepared rows, batch by batch. */
    method RunBatches(prepared: seq<Row>, size: nat, scope: Scope, opts: Options) returns (stopped: Option<Error>)
      requires size > 0 && !(scope.perBatch && scope.whole)
      requires !scope.buffered && !scope.whole ==> waiting == []
      modifies this
      ensures stopped == BatchesProgress(prepared, size, scope, opts).stopped
      ensures View() == After(old(View()), BatchesProgress(prepared, size, scope, opts).summary, scope.buffered
                              || scope.whole)
    {
      hide BatchesProgress, BatchProgress, BatchEffect, BatchSettlement, BatchOutcome, After;
      ghost var held := scope.buffered || scope.whole;
      ghost var total := BatchesProgress(prepared, size, scope, opts);
      ghost var final := After(View(), total.summary, held);
      var remaining := prepared;
      while remaining != []
        invariant BatchesProgress(remaining, size, scope, opts).stopped == total.stopped
        invariant After(View(), BatchesProgress(remaining, size, scope, opts).summary, held) == final
        invariant !held ==> waiting == []
        decreases |remaining|
      {
        var k := Chunk(remaining, size);
        var batch := remaining[..k];
        ghost var first, rest := BatchProgress(batch, scope, opts), BatchesProgress(remaining[k..], size, scope, opts);
        NextBatch(remaining, size, scope, opts);
        AfterContinue(View(), first, rest, held);
        AfterBatch(View(), batch, scope, opts, held);
        var outcome := InBatch(batch, scope, opts);
        stopped := Settle(batch, outcome, scope, opts);
        if stopped.Some? {
          return;
        }
        remaining := remaining[k..];
      }
      AfterNothing(View(), held);
      NoBatches(remaining, size, scope, opts);
      stopped := None;
    }

    /** A bulk create, upsert or update. A whole-action transaction that fails puts the rows back and
        discards what it held back, unless an outer buffer holds it. */
    method Run(inputs: seq<Row>, opts: Options, canTransact: bool, buffered: bool)
      returns (r: Result<BulkResult, Error>)
      requires records == [] && errors == [] && errorCount == 0 && count == 0
      requires !buffered ==> waiting == []
      modifies this
      ensures var scope := ScopeFor(opts, canTransact, buffered);
              var s, rolledBack := ActionProgress(inputs, scope, opts).summary, RolledBack(inputs, scope, opts);
              && r == ActionResult(inputs, scope, opts)
              && hooks == old(hooks) + s.hooks
              && rows == (if rolledBack then old(rows) else old(rows) + s.rows)
              && waiting == (if buffered then old(waiting) + s.sent else [])
              && delivered == (if buffered || rolledBack then old(delivered) else old(delivered) + s.sent)
    {
      hide ActionProgress;
      var scope := ScopeFor(opts, canTransact, buffered);
      var snapshot := rows;
      var stopped := RunAction(inputs, scope, opts);
      if scope.whole {
        if stopped.Some? {
          rows := snapshot;
          if !buffered {
            waiting := [];
          }
          return if opts.stopOnError then Err(stopped.value) else Ok(BulkResult([], [stopped.value], |inputs|, 0));
        }
        if !buffered {
          delivered := delivered + waiting;
          waiting := [];
        }
      }
      return if stopped.Some? then Err(stopped.value) else Ok(BulkResult(records, errors, errorCount, count));
    }

    method RunAction(inputs: seq<Row>, scope: Scope, opts: Options) returns (stopped: Option<Error>)
      requires !(scope.perBatch && scope.whole)
      requires records == [] && errors == [] && errorCount == 0 && count == 0
      requires !scope.buffered ==> waiting == []
      modifies this
      ensures var p := ActionProgress(inputs, scope, opts);
              var s, held := p.summary, scope.buffered || scope.whole;
              && stopped == p.stopped
              && rows == old(rows) + s.rows && hooks == old(hooks) + s.hooks
              && waiting == (if held then old(waiting) + s.sent else old(waiting))
              && delivered == (if held then old(delivered) else old(delivered) + s.sent)
              && records == s.records && errors == s.errors && errorCount == s.errorCount && count == s.count
    {
      hide PrepareRows, BatchesProgress, Prepared;
      ghost var before := View();
      ghost var held := scope.buffered || scope.whole;
      var prepared;
      prepared, stopped := PrepareAll(inputs, scope, opts);
      ghost var first := PrepareRows(inputs, scope, opts.stopOnError);
      ghost var rest := BatchesProgress(Prepared(inputs), ChunkSize(opts, |Prepared(inputs)|), scope, opts);
      AfterContinue(before, first, rest, held);
      if stopped.None? {
        stopped := RunBatches(prepared, ChunkSize(opts, |prepared|), scope, opts);
      }
      assert View() == After(before, ActionProgress(inputs, scope, opts).summary, held);
    }
  }
}
