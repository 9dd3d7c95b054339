/**
 The worker of `axbi/sql_lab.py` step by step: the session's copy of the query row, the commits and refreshes between it
 and the database row, and the block loop.
 */
module SqlWorker {
  import opened Optional
  import opened SqlLab
  import opened SqlRuns

  /** The row a commit leaves: dirty columns come from the session's copy, the others stay. */
  function Overlay(row: QueryRow, copy: QueryRow, dirty: set<Column>): QueryRow {
    QueryRow(
      if StatusCol in dirty then copy.status else row.status,
      if LimitCol in dirty then copy.limit else row.limit,
      if FactorCol in dirty then copy.limitingFactor else row.limitingFactor,
      if KeyCol in dirty then copy.resultsKey else row.resultsKey,
      if SqlCol in dirty then copy.executedSql else row.executedSql,
      if ErrorCol in dirty then copy.errorMessage else row.errorMessage)
  }

  /** The columns the block loop never writes: its assignments to the limiting factor stay in the session. */
  predicate KeepsResult(before: QueryRow, after: QueryRow) {
    && after.limit == before.limit
    && after.limitingFactor == before.limitingFactor
    && after.resultsKey == before.resultsKey
  }

  datatype Execution = Rows(data: seq<Record>) | StoppedByUser | Failure(message: string)

  /** How the block loop ends: with an early payload, with an error from outside `execute_query`, or after its last block
      (no data: no block). */
  datatype LoopEnd = Early(payload: Payload) | BrokenOff | Finished(data: Option<seq<Record>>)

  class Worker {
    const w: World
    var row: QueryRow
    var copy: QueryRow
    var dirty: set<Column>
    var sent: seq<Text>
    var backend: map<string, Blob>
    // The number of texts sent while the row was already STOPPED.
    ghost var lateSends: nat
    // The changes of status this worker wrote to the row.
    ghost var rewrites: set<(Status, Status)>

    /** The copy's status is the row's unless it was assigned or the row was stopped from outside; the one status
        assignment that outlives its method is the soft timeout's. FAILED was never rewritten to SUCCESS. */
    ghost predicate Valid()
      reads this
    {
      && (StatusCol in dirty ==> copy.status == TimedOut)
      && (StatusCol !in dirty ==> copy.status == row.status || (row.status == Stopped && !copy.status.Complete()))
      && (Failed, Success) !in rewrites
    }

    /** TIMED_OUT was rewritten to FAILED. */
    ghost predicate Slipped()
      reads this
    {
      (TimedOut, Failed) in rewrites
    }

    constructor (w: World, row: QueryRow, backend: map<string, Blob>)
      ensures this.w == w && this.row == row && copy == row && dirty == {} && this.backend == backend
      ensures sent == [] && lateSends == 0 && rewrites == {} && Valid()
    {
      this.w, this.row, this.copy, this.dirty := w, row, row, {};
      this.sent, this.backend, this.lateSends, this.rewrites := [], backend, 0, {};
    }

    /** Another process may stop the query at `p`. */
    method OutsideStop(p: Point)
      modifies this`row
      ensures row == old(row).(status := old(row).status.After(w.Stop(p)))
    {
      if w.Stop(p) && !row.status.Complete() {
        row := row.(status := Stopped);
      }
    }

    method Refresh()
      modifies this`copy, this`dirty
      ensures copy == row && dirty == {}
    {
      copy, dirty := row, {};
    }

    /** `commit_session`: a failed commit rolls back, which discards the assignments. */
    method CommitSession(c: Commit) returns (ok: bool)
      requires (Failed, Success) !in rewrites
      requires row.status == Failed ==> Overlay(row, copy, dirty).status != Success
      modifies this`row, this`copy, this`dirty, this`rewrites
      ensures ok == w.CommitOk(c)
      ensures row == if ok then old(Overlay(row, copy, dirty)) else old(row)
      ensures copy == row && dirty == {} && Valid()
      ensures rewrites == if row.status == old(row.status) then old(rewrites)
                          else old(rewrites) + {(old(row.status), row.status)}
    {
      ok := w.CommitOk(c);
      if ok {
        ghost var before := row.status;
        row := Overlay(row, copy, dirty);
        if row.status != before {
          rewrites := rewrites + {(before, row.status)};
        }
      }
      copy, dirty := row, {};
    }

    /** Assigning the value the attribute already has is no change, so it is not written. */
    method SetStatus(s: Status)
      modifies this`copy, this`dirty
      ensures copy == old(copy).(status := s)
      ensures dirty == if old(copy.status) == s then old(dirty) else old(dirty) + {StatusCol}
    {
      if copy.status != s {
        copy, dirty := copy.(status := s), dirty + {StatusCol};
      }
    }

    /** `handle_query_error`: FAILED, unless the soft timeout already set TIMED_OUT. */
    method HandleQueryError(message: string, p: Point, c: Commit) returns (r: Payload)
      requires Valid()
      modifies this`row, this`copy, this`dirty, this`rewrites
      ensures Valid() && dirty == {} && copy == row
      ensures r == StatusOnly(row.status) && Slipped() == old(Slipped())
      ensures var stopped := old(row).(status := old(row.status).After(w.Stop(p)));
              var failing := old(copy).(status := if old(copy.status) == TimedOut then TimedOut else Failed,
                                        errorMessage := Some(message));
              var touched := old(dirty) + {ErrorCol} +
                              (if old(copy.status) in {TimedOut, Failed} then {} else {StatusCol});
              row == if w.CommitOk(c) then Overlay(stopped, failing, touched) else stopped
    {
      copy, dirty := copy.(errorMessage := Some(message)), dirty + {ErrorCol};
      if copy.status != TimedOut {
        SetStatus(Failed);
      }
      OutsideStop(p);
      var _ := CommitSession(c);
      r := StatusOnly(copy.status);
    }

    /** `apply_limit` on one statement; the clamp stays on the session's copy until a commit. */
    method ApplyLimit(s: Statement) returns (r: Statement)
      modifies this`copy, this`dirty
      ensures copy == old(copy).(limit := if Limitable(w, s) then Clamped(w, old(copy.limit)) else old(copy.limit))
      ensures dirty == if copy == old(copy) then old(dirty) else old(dirty) + {LimitCol}
      ensures r == WithLimit(w, s, old(copy.limit))
    {
      r := s;
      if s.mutating || (w.ctasUsed && w.ctasNoLimit) {
        return;
      }
      if w.sqlMaxRow.Some? && w.sqlMaxRow.value != 0 &&
         (!Truthy(copy.limit) || copy.limit.value > w.sqlMaxRow.value) {
        copy, dirty := copy.(limit := Some(w.sqlMaxRow.value)), dirty + {LimitCol};
      }
      if Truthy(copy.limit) {
        r := SetLimit(r, copy.limit.value + 1, w.limitMethod);
      }
    }

    /** The loop over the statements. */
    method ApplyLimits() returns (ss: seq<Statement>)
      modifies this`copy, this`dirty
      ensures ss == Limited(w, w.statements, old(copy.limit))
      ensures copy == old(copy).(limit := copy.limit)
      ensures copy.limit == if exists s :: s in w.statements && Limitable(w, s)
                            then Clamped(w, old(copy.limit)) else old(copy.limit)
      ensures dirty == if copy == old(copy) then old(dirty) else old(dirty) + {LimitCol}
    {
      ss := [];
      var i := 0;
      while i < |w.statements|
        invariant 0 <= i <= |w.statements| && |ss| == i
        invariant forall k :: 0 <= k < i ==> ss[k] == WithLimit(w, w.statements[k], old(copy.limit))
        invariant copy == old(copy).(limit := copy.limit)
        invariant copy.limit == if exists k :: 0 <= k < i && Limitable(w, w.statements[k])
                                then Clamped(w, old(copy.limit)) else old(copy.limit)
        invariant dirty == if copy == old(copy) then old(dirty) else old(dirty) + {LimitCol}
      {
        var s := ApplyLimit(w.statements[i]);
        ss := ss + [s];
        i := i + 1;
      }
    }

    /** The row as `execute_query` finds it when it sends block `i`, its new text persisted or not. */
    ghost function RowAtSend(i: nat, row: QueryRow, text: Text): QueryRow {
      row.(executedSql := if w.CommitOk(PreExecute(i)) then text else row.executedSql,
           status := row.status.After(w.Stop(BeforeReload(i)) || w.Stop(BeforeSend(i))))
    }

    /** The first half of `execute_query`: persist, refresh, send. The refresh does not look at the status, so a
        stop that lands between the head check and the send does not keep the block back. */
    method SendBlock(i: nat)
      requires Valid() && dirty == {SqlCol}
      modifies this`row, this`copy, this`dirty, this`sent, this`lateSends, this`rewrites
      ensures Valid() && dirty == {} && rewrites == old(rewrites)
      ensures row == RowAtSend(i, old(row), old(copy.executedSql))
      ensures copy == row.(status := copy.status)
      ensures sent == old(sent) + [row.executedSql]
      ensures lateSends == old(lateSends) + (if row.status == Stopped then 1 else 0)
    {
      var _ := CommitSession(PreExecute(i));
      OutsideStop(BeforeReload(i));
      Refresh();
      var _ := CommitSession(EagerReload(i));
      OutsideStop(BeforeSend(i));
      if row.status == Stopped {
        lateSends := lateSends + 1;
      }
      sent := sent + [copy.executedSql];
    }

    /** `execute_query` for block `i`. */
    method ExecuteQuery(i: nat, b: Block) returns (r: Execution)
      requires Valid() && dirty == {SqlCol}
      modifies this`row, this`copy, this`dirty, this`sent, this`lateSends, this`rewrites
      ensures Valid() && rewrites == old(rewrites)
      ensures var atSend := RowAtSend(i, old(row), old(copy.executedSql));
              && sent == old(sent) + [atSend.executedSql]
              && lateSends == old(lateSends) + (if atSend.status == Stopped then 1 else 0)
              && row == atSend.(status := atSend.status.After(w.Stop(Executing(i))))
      ensures match w.DriverOf(i)
              case Fetches =>
                var data := Fetched(w, b, row.limit);
                && r == Rows(Kept(data, row.limit))
                && dirty == (if Fits(data, row.limit) then {FactorCol} else {})
                && copy == row.(status := copy.status,
                                limitingFactor := if Fits(data, row.limit) then NotLimited else row.limitingFactor)
              case SoftTimeout => r.Failure? && copy == row.(status := TimedOut) && dirty <= {StatusCol}
              case OAuthRedirect => r.Failure? && copy == row.(status := copy.status) && dirty == {}
              case Raises => dirty == {} && copy == row && r == if row.status == Stopped then StoppedByUser
                                                               else Failure("driver error")
    {
      SendBlock(i);
      OutsideStop(Executing(i));
      match w.DriverOf(i)
      case SoftTimeout =>
        SetStatus(TimedOut);
        r := Failure("The query was killed");
      case OAuthRedirect =>
        r := Failure("OAuth2 redirect");
      case Raises =>
        Refresh();  // rollback, then refresh
        r := if copy.status == Stopped then StoppedByUser else Failure("driver error");
      case Fetches =>
        var data := FetchData(w, b, Increased(copy.limit));
        if copy.limit.None? || |data| <= copy.limit.value {
          copy, dirty := copy.(limitingFactor := NotLimited), dirty + {FactorCol};
        } else {
          data := Take(data, |data| - 1);
        }
        r := Rows(data);
    }

    ghost predicate EndedEarly(end: LoopEnd)
      reads this
    {
      end == Early(StatusOnly(row.status)) && dirty == {} && copy == row
    }

    /** After a block fetched its rows the only pending assignment is NOT_LIMITED, and only if they fitted. */
    ghost predicate LeavesFactor(fits: bool)
      reads this
    {
      && dirty == (if fits then {FactorCol} else {})
      && copy == row.(status := copy.status, limitingFactor := if fits then NotLimited else row.limitingFactor)
    }

    /** Block `i` ran and fetched: the rows it keeps are the end result so far, a stop inside it is on the row, and
        the only pending assignment is NOT_LIMITED, present iff the rows fitted. */
    ghost predicate FetchedBlock(i: nat, b: Block, end: LoopEnd, before: QueryRow)
      reads this
    {
      var data := Fetched(w, b, row.limit);
      && end == Finished(Some(Kept(data, row.limit)))
      && row.status == before.status.After(w.StopIn(i, before.status))
      && row.errorMessage == before.errorMessage
      && LeavesFactor(Fits(data, row.limit))
    }

    /** The part of one turn of the block loop that follows its head check. */
    method SendAndFetch(i: nat, b: Block) returns (end: LoopEnd)
      requires Valid() && dirty == {} && row.status != Stopped
      requires row.status.Complete() || !w.Stop(Head(i))
      modifies this`row, this`copy, this`dirty, this`sent, this`lateSends, this`rewrites
      ensures Valid() && KeepsResult(old(row), row)
      ensures sent == old(sent) + [row.executedSql]
      ensures row.executedSql == if w.CommitOk(PreExecute(i)) then Mutated(b) else old(row.executedSql)
      ensures lateSends == old(lateSends) + (if w.StopsTooLate(i, old(row.status)) then 1 else 0)
      ensures Slipped() == old(Slipped())
      ensures if w.DriverOf(i).Fetches? then FetchedBlock(i, b, end, old(row))
              else EndedEarly(end) && row.status == w.EarlyStatus(i, old(row.status))
    {
      var _ := CommitSession(Progress(i));
      copy, dirty := copy.(executedSql := Mutated(b)), dirty + {SqlCol};
      var result := ExecuteQuery(i, b);
      match result
      case StoppedByUser =>
        end := Early(StatusOnly(Stopped));
      case Failure(message) =>
        var p := HandleQueryError(message, BeforeErrorCommit(i), ErrorPersist(i));
        end := Early(p);
      case Rows(data) =>
        end := Finished(Some(data));
    }

    /** One turn of the loop over the blocks. */
    method RunBlock(i: nat, b: Block) returns (end: LoopEnd)
      requires Valid()
      modifies this`row, this`copy, this`dirty, this`sent, this`lateSends, this`rewrites
      ensures Valid() && KeepsResult(old(row), row) && Slipped() == old(Slipped())
      ensures if old(row.status).After(w.Stop(Head(i))) == Stopped then
                && EndedEarly(end) && row == old(row).(status := Stopped)
                && sent == old(sent) && lateSends == old(lateSends)
              else
                && sent == old(sent) + [row.executedSql]
                && row.executedSql == (if w.CommitOk(PreExecute(i)) then Mutated(b) else old(row.executedSql))
                && lateSends == old(lateSends) + (if w.StopsTooLate(i, old(row.status)) then 1 else 0)
                && if w.DriverOf(i).Fetches? then FetchedBlock(i, b, end, old(row))
                   else EndedEarly(end) && row.status == w.EarlyStatus(i, old(row.status))
    {
      OutsideStop(Head(i));
      Refresh();
      if copy.status == Stopped {
        return Early(StatusOnly(copy.status));
      }
      end := SendAndFetch(i, b);
    }

    /** The block loop, started on the row `start`, has sent some blocks; `end` holds the last one's rows. */
    ghost predicate InLoop(blocks: seq<Block>, start: QueryRow, end: LoopEnd)
      reads this
    {
      var m := |sent|;
      && Sends(w, blocks, start, sent, lateSends) && w.Completes(m, start.status)
      && row.executedSql == OnRow(sent, start.executedSql) && KeepsResult(start, row)
      && if m == 0 then end == Finished(None) && row == start else FetchedBlock(m - 1, blocks[m - 1], end, start)
    }

    /** It ended early: at the last block sent, or at a head check that saw STOPPED. */
    ghost predicate LeftLoop(blocks: seq<Block>, start: QueryRow, end: LoopEnd)
      reads this
    {
      var n, m := |blocks|, |sent|;
      && Sends(w, blocks, start, sent, lateSends) && KeepsResult(start, row) && EndedEarly(end)
      && n > 0 && !w.Through(n, m) && !w.Breaks(m)
      && (m < n ==> (m > 0 && !w.DriverOf(m - 1).Fetches?) || start.status == Stopped || w.HeadSeesStop(m, start.status))
      && row.status == w.EndStatus(n, m, start.status)
    }

    /** It was broken off by an error, with every block sent so far fetched. */
    ghost predicate BrokeLoop(blocks: seq<Block>, start: QueryRow)
      reads this
    {
      var m := |sent|;
      && Sends(w, blocks, start, sent, lateSends) && KeepsResult(start, row) && w.Breaks(m)
      && row.status == w.EndStatus(|blocks|, m, start.status)
      && StatusCol !in dirty && KeyCol !in dirty
    }

    /** One turn of the loop. */
    method RunNextBlock(blocks: seq<Block>, ghost start: QueryRow, ghost before: LoopEnd) returns (end: LoopEnd)
      requires Valid() && InLoop(blocks, start, before) && |sent| < |blocks| && !w.Breaks(|sent|)
      modifies this`row, this`copy, this`dirty, this`sent, this`lateSends, this`rewrites
      ensures Valid() && Slipped() == old(Slipped()) && !end.BrokenOff?
      ensures if end.Early? then LeftLoop(blocks, start, end)
              else InLoop(blocks, start, end) && |sent| == old(|sent|) + 1
    {
      ghost var atHead, sentBefore, lateBefore := row, sent, lateSends;
      end := RunBlock(|sent|, blocks[|sent|]);
      if atHead.status.After(w.Stop(Head(|sentBefore|))) != Stopped {
        SendsOneMore(w, blocks, start, atHead, sentBefore, lateBefore, row.executedSql);
      }
    }

    /** The loop over the blocks, on a new connection and cursor: `|sent|` blocks are sent. */
    method RunBlocks(blocks: seq<Block>) returns (end: LoopEnd)
      requires Valid() && dirty <= {LimitCol}
      modifies this`row, this`copy, this`dirty, this`sent, this`lateSends, this`rewrites
      ensures Valid() && Slipped() == old(Slipped())
      ensures match end
              case Finished(_) => |sent| == |blocks| && !w.Breaks(|sent|) && InLoop(blocks, old(row), end)
              case Early(_) => LeftLoop(blocks, old(row), end)
              case BrokenOff => BrokeLoop(blocks, old(row))
    {
      sent, lateSends := [], 0;
      end := Finished(None);
      if w.Breaks(0) {
        return BrokenOff;
      }
      while |sent| < |blocks|
        invariant Valid() && Slipped() == old(Slipped()) && InLoop(blocks, old(row), end) && !w.Breaks(|sent|)
        decreases |blocks| - |sent|
      {
        end := RunNextBlock(blocks, old(row), end);
        if end.Early? {
          return;
        }
        if w.Breaks(|sent|) {
          return BrokenOff;
        }
      }
    }

    /** The results-backend write of a finished run. The status of a lost result is assigned without looking at it. */
    method StorePayload(payload: Payload) returns (error: Option<string>)
      requires Valid() && dirty <= {FactorCol} && copy == row.(status := copy.status, limitingFactor := copy.limitingFactor)
      modifies this`row, this`copy, this`dirty, this`backend, this`rewrites
      ensures Valid() && StatusCol !in dirty && (error.Some? <==> w.StorePlan() in {TooLarge, Lost})
      ensures Slipped() <==> old(Slipped()) || (w.StorePlan().Lost? && w.CommitOk(StoreFailed) && old(row.status) == TimedOut)
      ensures backend == if w.StorePlan().Stored? then old(backend)[w.newKey := Compressed(Serialized(payload))]
                         else old(backend)
      ensures !w.StorePlan().Lost? ==>
                && row == old(row) && copy == old(copy).(resultsKey := w.KeyAfter(old(row.resultsKey)))
                && dirty == old(dirty) + (if w.StorePlan() in {Stored, Unsaved} then {KeyCol} else {})
      ensures w.StorePlan().Lost? ==>
                && dirty == {}
                && (if w.CommitOk(StoreFailed) then row.status == Failed && row.resultsKey == None else row == old(row))
    {
      if !(w.storeResults && w.hasBackend) {
        return None;
      }
      if w.storedTooLarge {
        return Some("result too large");
      }
      if w.storeOk {
        backend := backend[w.newKey := Compressed(Serialized(payload))];
        copy, dirty := copy.(resultsKey := Some(w.newKey)), dirty + {KeyCol};
        return None;
      }
      copy, dirty := copy.(resultsKey := None), dirty + {KeyCol};
      if w.returnResults {
        return None;
      }
      SetStatus(Failed);
      copy, dirty := copy.(errorMessage := Some("Failed to store query results")), dirty + {ErrorCol};
      var _ := CommitSession(StoreFailed);
      error := Some("Failed to store query results");
    }

    /** What follows the last block: build the payload, store it, and set the final status unless it is FAILED. */
    method FinishRun(rows: seq<Record>) returns (r: RunResult)
      requires Valid() && dirty <= {FactorCol}
      requires copy == row.(status := copy.status, limitingFactor := copy.limitingFactor)
      requires FactorCol !in dirty ==> copy.limitingFactor == row.limitingFactor
      modifies this`row, this`copy, this`dirty, this`backend, this`rewrites
      ensures Valid() && (r.Raised? ==> StatusCol !in dirty && KeyCol !in dirty)
      ensures Slipped() <==> old(Slipped()) || (w.StorePlan().Lost? && w.CommitOk(StoreFailed) && old(row.status) == TimedOut)
      ensures var payload := w.SuccessPayload(rows, old(copy.limitingFactor));
              var stopped := old(row).(status := old(row.status).After(w.Stop(BeforeFinal)));
              && backend == (if w.StorePlan().Stored? then old(backend)[w.newKey := Compressed(Serialized(payload))]
                             else old(backend))
              && match w.StorePlan()
                 case TooLarge => r.Raised? && row == stopped
                 case Lost =>
                   && r.Raised?
                   && (if w.CommitOk(StoreFailed) then row.status == Failed && row.resultsKey == None
                       else row == stopped)
                 case _ =>
                   && (if w.CommitOk(FinalStatus)
                       then row == old(row).(status := if old(row.status) == Failed then Failed else Success,
                                             limitingFactor := old(copy.limitingFactor),
                                             resultsKey := w.KeyAfter(old(row.resultsKey)))
                       else row == stopped)
                   && r == if !w.CommitOk(FinalStatus) then Raised("commit failed")
                           else if !w.returnResults then Returned(None)
                           else if w.returnedTooLarge then Raised("result too large")
                           else Returned(Some(payload))
    {
      OutsideStop(BeforeFinal);
      var payload := w.SuccessPayload(rows, copy.limitingFactor);
      var error := StorePayload(payload);
      if error.Some? {
        return Raised(error.value);
      }
      if copy.status != Failed {
        SetStatus(Success);
      }
      var ok := CommitSession(FinalStatus);
      if !ok {
        return Raised("commit failed");
      }
      if !w.returnResults {
        return Returned(None);
      }
      r := if w.returnedTooLarge then Raised("result too large") else Returned(Some(payload));
    }

    /** Limit the statements, form the blocks, and commit the cursor's cancel key if it has one. */
    method PrepareBlocks() returns (blocks: seq<Block>)
      requires Valid() && dirty == {} && copy == row
      modifies this`row, this`copy, this`dirty, this`rewrites
      ensures Valid() && dirty <= {LimitCol} && rewrites == old(rewrites)
      ensures blocks == RunOf(w, old(row.limit)) && row == old(row).(limit := LimitAtFetch(w, old(row.limit)))
    {
      var ss := ApplyLimits();
      blocks := Blocks(w, ss);
      if w.hasCancelId {
        var _ := CommitSession(CancelKey);
      }
    }

    /** The part of `execute_sql_statements` that precedes its block loop. */
    method StartRun() returns (error: Option<string>, blocks: seq<Block>)
      requires Valid() && dirty == {}
      modifies this`row, this`copy, this`dirty, this`rewrites
      ensures Valid() && (error.Some? <==> !w.Starts()) && Slipped() == old(Slipped())
      ensures error.Some? ==>
                && dirty == {} && copy == row
                && row == old(row).(status := if w.BackendMissing() then old(row.status)
                                              else w.EntryStatus(old(row.status)))
      ensures error.None? ==>
                && blocks == RunOf(w, old(row.limit)) && dirty <= {LimitCol}
                && row == old(row).(status := w.EntryStatus(old(row.status)), limit := LimitAtFetch(w, old(row.limit)))
    {
      copy := row;  // get_query
      blocks := [];
      if w.allowAsync && !w.hasBackend {
        return Some("results backend not configured"), blocks;
      }
      SetStatus(Running);
      OutsideStop(Start);
      var _ := CommitSession(SetRunning);
      if w.scriptError.Some? {
        return w.scriptError, blocks;
      }
      blocks := PrepareBlocks();
      error := None;
    }

    /** The run since it took over from `before`. */
    ghost function RunSince(before: QueryRow, backendBefore: map<string, Blob>): Run
      reads this
    {
      Run(before, row, sent, lateSends, rewrites, backendBefore, backend)
    }

    /** The block loop and what follows it. */
    method RunToEnd(blocks: seq<Block>) returns (r: RunResult)
      requires Valid() && (dirty <= {LimitCol}) && !Slipped()
      modifies this`row, this`copy, this`dirty, this`sent, this`lateSends, this`rewrites, this`backend
      ensures Valid() && (r.Raised? ==> StatusCol !in dirty && KeyCol !in dirty)
      ensures RunsBlocks(w, RunSince(old(row), old(backend)), blocks, r)
    {
      var end := RunBlocks(blocks);
      match end
      case Early(payload) =>
        r := Returned(Some(payload));
      case BrokenOff =>
        r := Raised("broken off");
      case Finished(None) =>
        r := Returned(Some(StatusOnly(Success)));
      case Finished(Some(rows)) =>
        assert w.Through(|blocks|, |sent|) && copy.limitingFactor == FactorAfter(w, blocks[|blocks| - 1], old(row));
        r := FinishRun(rows);
    }

    /** `execute_sql_statements` on a session that has just loaded its query. */
    method ExecuteSqlStatements() returns (r: RunResult)
      requires Valid() && dirty == {} && sent == [] && lateSends == 0 && rewrites == {}
      modifies this`row, this`copy, this`dirty, this`sent, this`lateSends, this`rewrites, this`backend
      ensures Valid() && (r.Raised? ==> StatusCol !in dirty && KeyCol !in dirty)
      ensures Executes(w, RunSince(old(row), old(backend)), r)
    {
      var error, blocks := StartRun();
      if error.Some? {
        return Raised(error.value);
      }
      r := RunToEnd(blocks);
    }

    /** The catch-all handler of `get_sql_results`: load the query again and record the error. */
    method HandleRaised(message: string) returns (p: Payload)
      requires Valid() && StatusCol !in dirty && KeyCol !in dirty
      modifies this`row, this`copy, this`dirty, this`rewrites
      ensures Valid() && p == StatusOnly(row.status) && row.resultsKey == old(row.resultsKey)
      ensures row.status == w.Handled(old(row.status)) && Slipped() == old(Slipped())
    {
      copy := Overlay(row, copy, dirty);  // get_query
      p := HandleQueryError(message, Handler, HandlerPersist);
    }

    /** `get_sql_results`: the run with its catch-all handler. */
    method GetSqlResults() returns (payload: Option<Payload>)
      requires Valid() && dirty == {} && sent == [] && lateSends == 0 && rewrites == {}
      modifies this`row, this`copy, this`dirty, this`sent, this`lateSends, this`rewrites, this`backend
      ensures Valid() && Outcome(w, RunSince(old(row), old(backend)), payload)
    {
      var result := ExecuteSqlStatements();
      match result
      case Returned(p) =>
        payload := p;
      case Raised(message) =>
        var p := HandleRaised(message);
        payload := Some(p);
    }
  }
}
