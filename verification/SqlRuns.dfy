/**
 What a run of `get_sql_results` (axbi/sql_lab.py) does, as a relation between the row before and after it, and what
 follows for every run, whatever commits fail and whenever the query is stopped from outside.

 `SqlWorker.Worker` is the code that keeps to the relation.
 */
module SqlRuns {
  import opened Optional
  import opened SqlLab

  datatype RunResult = Returned(payload: Option<Payload>) | Raised(message: string)

  // ---------------------------------------------------------------- what a run does

  /** A run as seen from outside: the row, the backend, the texts sent, how many of them after a stop, and the changes
      of status the worker wrote. */
  datatype Run = Run(
    before: QueryRow, after: QueryRow,
    sent: seq<Text>, lateSends: nat, rewrites: set<(Status, Status)>,
    backendBefore: map<string, Blob>, backend: map<string, Blob>)

  /** The limiting factor a run commits that fetched its last block `b`; `start` is the row its block loop started on. */
  function FactorAfter(w: World, b: Block, start: QueryRow): LimitingFactor {
    if Fits(Fetched(w, b, start.limit), start.limit) then NotLimited else start.limitingFactor
  }

  /** The payload such a run returns and stores. */
  function PayloadAfter(w: World, b: Block, start: QueryRow): Payload {
    w.SuccessPayload(Kept(Fetched(w, b, start.limit), start.limit), FactorAfter(w, b, start))
  }

  /** What the block loop has sent from the row `before` on: the texts in order, each after a block that fetched, and
      at most the last one after a stop. */
  ghost predicate Sends(w: World, blocks: seq<Block>, before: QueryRow, sent: seq<Text>, lateSends: nat) {
    var entry, m := before.status, |sent|;
    && m <= |blocks| && sent == Texts(w, blocks, m, before.executedSql)
    && lateSends == (if m > 0 && w.StopsTooLate(m - 1, entry) then 1 else 0)
    && (m > 0 ==> entry != Stopped && w.Reaches(m, entry))
  }

  /** One more block is sent: the row at its head, `row`, was not stopped and every block before fetched. */
  lemma SendsOneMore(w: World, blocks: seq<Block>, before: QueryRow, row: QueryRow, sent: seq<Text>, lateSends: nat,
                     text: Text)
    requires Sends(w, blocks, before, sent, lateSends) && w.Completes(|sent|, before.status) && |sent| < |blocks|
    requires row.status == if sent == [] then before.status else before.status.After(w.StopIn(|sent| - 1, before.status))
    requires row.status.After(w.Stop(Head(|sent|))) != Stopped && !w.Breaks(|sent|)
    requires text == if w.CommitOk(PreExecute(|sent|)) then Mutated(blocks[|sent|]) else OnRow(sent, before.executedSql)
    ensures Sends(w, blocks, before, sent + [text], lateSends + if w.StopsTooLate(|sent|, row.status) then 1 else 0)
    ensures w.DriverOf(|sent|).Fetches? ==> w.Completes(|sent| + 1, before.status)
    ensures row.status == before.status
  {
  }

  /** What a run over `blocks` has sent and stored by its end, and what it never did; `run.before` is the row at the
      start of the block loop. */
  ghost predicate Effects(w: World, run: Run, blocks: seq<Block>) {
    var n, m, entry := |blocks|, |run.sent|, run.before.status;
    && Sends(w, blocks, run.before, run.sent, run.lateSends)
    && (m < n ==> || (m > 0 && !w.DriverOf(m - 1).Fetches?) || w.Breaks(m)
                  || entry == Stopped || w.HeadSeesStop(m, entry))
    && run.backend == (if w.Through(n, m) && w.StorePlan().Stored?
                       then run.backendBefore[w.newKey := Compressed(Serialized(PayloadAfter(w, blocks[n - 1], run.before)))]
                       else run.backendBefore)
    && run.after.resultsKey == (if w.Through(n, m) then w.EndKey(run.before.resultsKey) else run.before.resultsKey)
    && (Failed, Success) !in run.rewrites
    && ((TimedOut, Failed) in run.rewrites <==>
          w.Through(n, m) && w.StorePlan().Lost? && w.CommitOk(StoreFailed) && entry == TimedOut)
  }

  /** The status, limiting factor and payload of a run that raised nothing. */
  ghost predicate Returns(w: World, run: Run, blocks: seq<Block>, payload: Option<Payload>) {
    var n, m := |blocks|, |run.sent|;
    && run.after.status == w.EndStatus(n, m, run.before.status)
    && if n == 0 then payload == Some(StatusOnly(Success))
       else if w.Through(n, m) then
         && run.after.limitingFactor == FactorAfter(w, blocks[n - 1], run.before)
         && payload == if w.returnResults then Some(PayloadAfter(w, blocks[n - 1], run.before)) else None
       else
         run.after.limitingFactor == run.before.limitingFactor && payload == Some(StatusOnly(run.after.status))
  }

  /** The block loop and what follows it, whatever commits fail. */
  ghost predicate RunsBlocks(w: World, run: Run, blocks: seq<Block>, r: RunResult) {
    && Effects(w, run, blocks)
    && match r
       case Returned(payload) => !w.RaisesAfter(|blocks|, |run.sent|) && Returns(w, run, blocks, payload)
       case Raised(_) =>
         && w.RaisesAfter(|blocks|, |run.sent|)
         && run.after.status == w.EndStatus(|blocks|, |run.sent|, run.before.status)
  }

  /** The row at the start of the block loop. */
  function AtLoop(w: World, before: QueryRow): QueryRow {
    before.(status := w.EntryStatus(before.status), limit := LimitAtFetch(w, before.limit))
  }

  /** A run refused before its block loop changes at most the status. */
  ghost predicate Refuses(w: World, run: Run) {
    && run.sent == [] && run.lateSends == 0 && run.backend == run.backendBefore
    && (TimedOut, Failed) !in run.rewrites && (Failed, Success) !in run.rewrites
    && run.after.resultsKey == run.before.resultsKey
  }

  /** The status `execute_sql_statements` leaves when it refuses the run. */
  function RefusedStatus(w: World, before: Status): Status {
    if w.BackendMissing() then before else w.EntryStatus(before)
  }

  /** `execute_sql_statements`, whatever commits fail. */
  ghost predicate Executes(w: World, run: Run, r: RunResult) {
    if w.Starts() then RunsBlocks(w, run.(before := AtLoop(w, run.before)), RunOf(w, run.before.limit), r)
    else r.Raised? && Refuses(w, run) && run.after.status == RefusedStatus(w, run.before.status)
  }

  /** `get_sql_results` over `blocks`, whatever commits fail: an error raised goes through the catch-all handler. */
  ghost predicate Completed(w: World, run: Run, blocks: seq<Block>, payload: Option<Payload>) {
    && Effects(w, run, blocks)
    && if w.RaisesAfter(|blocks|, |run.sent|) then
         && run.after.status == w.Handled(w.EndStatus(|blocks|, |run.sent|, run.before.status))
         && payload == Some(StatusOnly(run.after.status))
       else Returns(w, run, blocks, payload)
  }

  /** `get_sql_results`, whatever commits fail: what the run did and the payload it returned. */
  ghost predicate Outcome(w: World, run: Run, payload: Option<Payload>) {
    if w.Starts() then Completed(w, run.(before := AtLoop(w, run.before)), RunOf(w, run.before.limit), payload)
    else
      && Refuses(w, run) && payload == Some(StatusOnly(run.after.status))
      && run.after.status == w.Handled(RefusedStatus(w, run.before.status))
  }

  // ---------------------------------------------------------------- what every run keeps

  /** A run goes through all its blocks exactly if it was not stopped in time, every block fetched and nothing else
      raised on the way. */
  lemma GoesThroughIff(w: World, run: Run, blocks: seq<Block>)
    requires Effects(w, run, blocks) && blocks != []
    ensures w.Through(|blocks|, |run.sent|)
            <==> && run.before.status != Stopped && w.Completes(|blocks|, run.before.status)
                 && !w.Breaks(|blocks|)
  {
  }

  lemma TimedOutCompletesIff(w: World, n: nat)
    requires n > 0
    ensures w.Completes(n, TimedOut) && !w.Breaks(n)
            <==> && (forall i :: 0 <= i < n ==> w.DriverOf(i).Fetches?)
                 && forall i :: 0 <= i <= n ==> !w.Breaks(i)
  {
  }

  /** FAILED is never rewritten to SUCCESS. TIMED_OUT is rewritten to FAILED exactly when the row came as TIMED_OUT, the
      commit of RUNNING failed, every block fetched, nothing else raised on the way, and the failed store of an asynchronous run was committed. */
  lemma RewritesIff(w: World, run: Run, payload: Option<Payload>)
    requires Outcome(w, run, payload)
    ensures (Failed, Success) !in run.rewrites
    ensures var n := |RunOf(w, run.before.limit)|;
            (TimedOut, Failed) in run.rewrites
            <==> && run.before.status == TimedOut && !w.CommitOk(SetRunning) && w.Starts() && n > 0
                 && (forall i :: 0 <= i < n ==> w.DriverOf(i).Fetches?) && (forall i :: 0 <= i <= n ==> !w.Breaks(i))
                 && w.StorePlan().Lost? && w.CommitOk(StoreFailed)
  {
    var blocks := RunOf(w, run.before.limit);
    if w.Starts() && blocks != [] {
      GoesThroughIff(w, run.(before := AtLoop(w, run.before)), blocks);
      if w.EntryStatus(run.before.status) == TimedOut { TimedOutCompletesIff(w, |blocks|); }
    }
  }

  /** The texts sent are a prefix of the mutated blocks exactly when the commits before them hold, but for those that
      change nothing; at most one goes out after a stop, and only if that landed between its head check and its send. */
  lemma SendsPrefixIff(w: World, run: Run, payload: Option<Payload>)
    requires Outcome(w, run, payload) && w.Starts()
    ensures var blocks, m := RunOf(w, run.before.limit), |run.sent|;
            && m <= |blocks|
            && (PrefixOfBlocks(run.sent, blocks) <==> TextsCommitted(w, blocks, m, run.before.executedSql))
            && run.lateSends == if m > 0 && w.StopsTooLate(m - 1, w.EntryStatus(run.before.status)) then 1 else 0
  {
    TextsAreBlocksIff(w, RunOf(w, run.before.limit), |run.sent|, run.before.executedSql);
  }

  /** A key that appears on a keyless row has the finished payload stored under it, compressed. */
  lemma FreshKeyHasPayload(w: World, run: Run, payload: Option<Payload>)
    requires Outcome(w, run, payload)
    requires run.before.resultsKey.None? && run.after.resultsKey.Some?
    ensures var blocks := RunOf(w, run.before.limit);
            && blocks != [] && run.after.resultsKey == Some(w.newKey) && w.newKey in run.backend
            && run.backend[w.newKey] ==
               Compressed(Serialized(PayloadAfter(w, blocks[|blocks| - 1], AtLoop(w, run.before))))
  {
  }

  /** A key in the payload returned names an entry of the backend exactly if the store succeeded: a caller who gets the
      rows although they could not be stored is given a key under which nothing is found. */
  lemma ReturnedKeyIsStoredIff(w: World, run: Run, payload: Option<Payload>)
    requires Outcome(w, run, payload) && payload.Some? && payload.value.resultsKey.Some?
    requires w.newKey !in run.backendBefore
    ensures payload.value.resultsKey == Some(w.newKey)
    ensures w.newKey in run.backend <==> w.storeOk
    ensures w.storeOk ==> run.backend[w.newKey] == Compressed(Serialized(payload.value))
    ensures !w.storeOk ==> run.after.resultsKey == None || !w.CommitOk(FinalStatus)
  {
  }

  lemma CommittedStatus(w: World, n: nat, m: nat, entry: Status)
    requires w.failedCommits == {} && !entry.Complete() && n > 0
    ensures var s := w.EndStatus(n, m, entry);
            var final := if w.RaisesAfter(n, m) then w.Handled(s) else s;
            && final.Terminal()
            && (final == Success <==> w.Through(n, m) && !w.RaisesAtEnd())
            && (final == TimedOut <==> m > 0 && w.DriverOf(m - 1).SoftTimeout?)
  {
  }

  /** With commits succeeding, a run of at least one block ends in a terminal status: SUCCESS exactly if the run was
      not stopped in time, every block fetched, nothing else raised, and the result could be stored and returned;
      TIMED_OUT exactly if the last block sent ran out of time in `execute_query`. */
  lemma CommittedRunEnds(w: World, run: Run, payload: Option<Payload>)
    requires Outcome(w, run, payload) && w.failedCommits == {} && w.Starts() && RunOf(w, run.before.limit) != []
    ensures run.after.status in {Success, Failed, TimedOut, Stopped}
    ensures run.after.status == Success <==> w.Succeeds(|RunOf(w, run.before.limit)|, w.EntryStatus(run.before.status))
    ensures run.after.status == TimedOut <==> run.sent != [] && w.DriverOf(|run.sent| - 1).SoftTimeout?
  {
    var n, m, entry := |RunOf(w, run.before.limit)|, |run.sent|, w.EntryStatus(run.before.status);
    GoesThroughIff(w, run.(before := AtLoop(w, run.before)), RunOf(w, run.before.limit));
    CommittedStatus(w, n, m, entry);
  }

  /** With commits succeeding, a run of at least one block that nothing broke off is left STOPPED exactly if it was
      stopped before its next block, or while its last block raised; it is left FAILED exactly if its last block raised
      without a stop or asked for OAuth2, or its result could not be stored or returned. */
  lemma CommittedRunStopsIff(w: World, run: Run, payload: Option<Payload>)
    requires Outcome(w, run, payload) && w.failedCommits == {} && w.Starts() && RunOf(w, run.before.limit) != []
    requires !w.Breaks(|run.sent|)
    ensures var n, m, entry := |RunOf(w, run.before.limit)|, |run.sent|, w.EntryStatus(run.before.status);
            var driver := if m > 0 then w.DriverOf(m - 1) else Fetches;
            && (run.after.status == Stopped <==>
                  if driver.Fetches? then m < n && (entry == Stopped || w.HeadSeesStop(m, entry))
                  else driver.Raises? && w.StopIn(m - 1, entry))
            && (run.after.status == Failed <==>
                  if driver.Fetches? then m == n && w.RaisesAtEnd()
                  else driver.OAuthRedirect? || (driver.Raises? && !w.StopIn(m - 1, entry)))
  {
  }

  /** What a run that ends in SUCCESS leaves: its key, and NOT_LIMITED exactly if the last block fitted or the row said
      so before. With commits succeeding, one whose result is lost ends FAILED without a key. */
  lemma CommittedRunLeaves(w: World, run: Run, payload: Option<Payload>)
    requires Outcome(w, run, payload) && w.failedCommits == {} && w.Starts() && RunOf(w, run.before.limit) != []
    ensures var blocks, start := RunOf(w, run.before.limit), AtLoop(w, run.before);
            run.after.status == Success ==>
              && |run.sent| == |blocks|
              && run.after.resultsKey == (if !w.storeResults || !w.hasBackend then run.before.resultsKey
                                          else if w.storeOk then Some(w.newKey) else None)
              && run.after.limitingFactor == FactorAfter(w, blocks[|blocks| - 1], start)
    ensures && w.Through(|RunOf(w, run.before.limit)|, |run.sent|)
            && w.storeResults && w.hasBackend && !w.storedTooLarge && !w.storeOk && !w.returnResults ==>
              run.after.status == Failed && run.after.resultsKey == None
  {
    CommittedStatus(w, |RunOf(w, run.before.limit)|, |run.sent|, w.EntryStatus(run.before.status));
  }

  /** With commits succeeding, the texts sent are a prefix of the mutated blocks, in order and each once, and a success
      payload means that every block was sent. A run of no block that nothing breaks off claims success and leaves the row
      as it was taken. */
  lemma CommittedRunSends(w: World, run: Run, payload: Option<Payload>)
    requires Outcome(w, run, payload) && w.failedCommits == {} && w.Starts()
    ensures var blocks := RunOf(w, run.before.limit);
            && PrefixOfBlocks(run.sent, blocks)
            && (payload.Some? && payload.value.status == Success ==> |run.sent| == |blocks|)
            && (blocks == [] && !w.Breaks(0) ==>
                  payload == Some(StatusOnly(Success)) && run.after.status == w.EntryStatus(run.before.status))
  {
    SendsPrefixIff(w, run, payload);
    if RunOf(w, run.before.limit) != [] {
      CommittedStatus(w, |RunOf(w, run.before.limit)|, |run.sent|, w.EntryStatus(run.before.status));
    }
  }

  /** A run broken off by an error outside `execute_query`, a soft timeout among them, ends FAILED once that is persisted,
      unless its row came as TIMED_OUT and stayed so. */
  lemma BrokenRunFails(w: World, run: Run, payload: Option<Payload>)
    requires Outcome(w, run, payload) && w.Starts() && w.Breaks(|run.sent|) && w.CommitOk(HandlerPersist)
    ensures run.after.status == if w.EntryStatus(run.before.status) == TimedOut then TimedOut else Failed
    ensures payload == Some(StatusOnly(run.after.status)) && run.after.resultsKey == run.before.resultsKey
  {
  }

  /** With commits succeeding, a run refused before its block loop ends FAILED, unless the missing backend refused it
      before RUNNING was written over TIMED_OUT. */
  lemma RefusedRunEnds(w: World, run: Run, payload: Option<Payload>)
    requires Outcome(w, run, payload) && w.failedCommits == {} && !w.Starts()
    ensures run.sent == [] && payload == Some(StatusOnly(run.after.status))
    ensures run.after.status == if w.BackendMissing() && run.before.status == TimedOut then TimedOut else Failed
  {
  }

  // ---------------------------------------------------------------- the statements of a run

  /** Where statements run one by one, a run that goes through sends one text for each; text `j` holds statement `j`
      alone, with its own words, and where the engine limits in the text at most one row more than the clamped limit
      comes back for a limitable one. Others go out as they are. */
  lemma TextsAreStatements(w: World, run: Run, payload: Option<Payload>, j: nat)
    requires Outcome(w, run, payload) && w.Starts() && !w.runAsOne && w.failedCommits == {} && j < |run.sent|
    ensures j < |w.statements| && run.sent[j].Mutated? && |run.sent[j].block| == 1
    ensures var s, sent, clamp := w.statements[j], run.sent[j].block[0], Clamped(w, run.before.limit);
            && sent.text == s.text && sent.mutating == s.mutating && sent.result == s.result
            && (!Limitable(w, s) || !Truthy(clamp) || w.limitMethod.FetchMany? ==> sent == s)
            && (Limitable(w, s) && Truthy(clamp) && clamp.value > 0 && !w.limitMethod.FetchMany? ==>
                  |CursorRows([sent])| <= clamp.value + 1)
  {
    CommittedRunSends(w, run, payload);
    var blocks := RunOf(w, run.before.limit);
    assert blocks[j] == [WithLimit(w, w.statements[j], run.before.limit)];
  }

  /** Where the engine keeps no state between calls, the whole script is one text: every statement in its place. */
  lemma ScriptIsOneText(w: World, run: Run, payload: Option<Payload>, k: nat)
    requires Outcome(w, run, payload) && w.Starts() && w.runAsOne && w.failedCommits == {} && run.sent != []
    requires k < |w.statements|
    ensures |run.sent| == 1 && run.sent[0].Mutated? && |run.sent[0].block| == |w.statements|
    ensures run.sent[0].block[k].text == w.statements[k].text && run.sent[0].block[k].result == w.statements[k].result
    ensures var clamp := Clamped(w, run.before.limit);
            Limitable(w, w.statements[k]) && Truthy(clamp) && clamp.value > 0 && !w.limitMethod.FetchMany? ==>
              |CursorRows([run.sent[0].block[k]])| <= clamp.value + 1
  {
    CommittedRunSends(w, run, payload);
    assert RunOf(w, run.before.limit)[0] == Limited(w, w.statements, run.before.limit);
  }

  /** A payload that says SUCCESS means that every statement went out. */
  lemma SuccessSendsEveryStatement(w: World, run: Run, payload: Option<Payload>)
    requires Outcome(w, run, payload) && w.Starts() && w.failedCommits == {}
    requires payload.Some? && payload.value.status == Success
    ensures |run.sent| == if w.runAsOne then 1 else |w.statements|
  {
    CommittedRunSends(w, run, payload);
  }

  /** Rows are returned exactly by a run that goes through, stores its result if it has to, and is asked for them. */
  lemma RowsAreReturnedIff(w: World, run: Run, payload: Option<Payload>)
    requires Outcome(w, run, payload) && w.Starts()
    ensures payload.Some? && payload.value.data.Some?
            <==> w.returnResults && w.Through(|RunOf(w, run.before.limit)|, |run.sent|) && !w.RaisesAtEnd()
    ensures payload.Some? && payload.value.data.Some? ==>
              && payload.value.status == Success && payload.value.limitingFactor == Some(run.after.limitingFactor)
              && (payload.value.resultsKey.Some? <==> w.storeResults && w.hasBackend)
  {
  }

  /** However the script is cut into blocks, the last block yields the rows of the last statement, limited. */
  lemma LastBlockIsLastStatement(w: World, incoming: Option<int>, used: Option<int>)
    requires w.statements != []
    ensures var blocks, s := RunOf(w, incoming), w.statements[|w.statements| - 1];
            && blocks != []
            && Fetched(w, blocks[|blocks| - 1], used) == Fetched(w, [WithLimit(w, s, incoming)], used)
  {
    var blocks, s := RunOf(w, incoming), w.statements[|w.statements| - 1];
    var b := blocks[|blocks| - 1];
    assert b[|b| - 1] == WithLimit(w, s, incoming);
  }

  /** The rows a run returns are those of its last statement, and of a limitable one the first ones up to the clamped
      limit, while that is on the row; the row says NOT_LIMITED exactly if none was cut or it said so before. */
  lemma ReturnedRowsAreTheLast(w: World, run: Run, payload: Option<Payload>)
    requires Outcome(w, run, payload) && w.Starts() && payload.Some? && payload.value.data.Some?
    requires run.before.limit.Some? ==> run.before.limit.value >= 0
    requires w.statements != [] && Limitable(w, w.statements[|w.statements| - 1])
    requires w.statements[|w.statements| - 1].wrapped.None?
    requires Truthy(Clamped(w, run.before.limit)) && ClampHolds(w, run.before.limit)
    ensures var s, clamp := w.statements[|w.statements| - 1], Clamped(w, run.before.limit).value;
            && payload.value.data == Some(Take(Unlimited(w, s), clamp))
            && (w.CommitOk(FinalStatus) ==>
                  (run.after.limitingFactor == NotLimited <==>
                     |Unlimited(w, s)| <= clamp || run.before.limitingFactor == NotLimited))
  {
    var s, used := w.statements[|w.statements| - 1], LimitAtFetch(w, run.before.limit);
    assert used == Clamped(w, run.before.limit) by { assert s in w.statements; }
    LastBlockIsLastStatement(w, run.before.limit, used);
    ClampedBlockKeepsPrefix(w, s, run.before.limit);
  }

  // ---------------------------------------------------------------- runs worth knowing

  function Plain(text: string, result: seq<Record>): Statement { Statement(text, false, result, None, None) }

  /** A run of plain statements on a driver that always fetches. */
  function PlainRun(statements: seq<Statement>, stops: set<Point>, failedCommits: set<Commit>): World {
    World(statements, false, false, false, None, ForceLimit, false, false, false, None, true, false, "", true, false, false,
          [], {}, stops, failedCommits)
  }

  function RowWith(status: Status, limit: Option<int>): QueryRow {
    QueryRow(status, limit, Unknown, None, Earlier(""), None)
  }

  /** Nothing stops the run, no driver fails and nothing else raises. */
  lemma QuietRunGoesThrough(w: World, run: Run, blocks: seq<Block>)
    requires w.drivers == [] && w.breaks == {} && w.stops == {} && blocks != []
    requires Effects(w, run.(before := AtLoop(w, run.before)), blocks) && w.EntryStatus(run.before.status) != Stopped
    ensures w.Through(|blocks|, |run.sent|)
  {
    GoesThroughIff(w, run.(before := AtLoop(w, run.before)), blocks);
  }

  /** A stop that lands in the last block, after its head check, neither keeps the block back nor survives the run. */
  lemma LateStopIsOverwritten(w: World, run: Run, payload: Option<Payload>)
    requires w == PlainRun([Plain("select 1", [])], {BeforeSend(0)}, {})
    requires Outcome(w, run, payload) && run.before == RowWith(Pending, None)
    ensures |run.sent| == 1 && run.lateSends == 1 && run.after.status == Success
  {
    CommittedRunEnds(w, run, payload);
    CommittedRunLeaves(w, run, payload);
    SendsPrefixIff(w, run, payload);
    assert w.Succeeds(1, Running);
  }

  /** A first block that fitted its limit does not make the run NOT_LIMITED: the refresh at the head of the second
      block discards the assignment. */
  lemma EarlierFitIsForgotten(w: World, run: Run, payload: Option<Payload>)
    requires w == PlainRun([Plain("select 1 where false", []), Plain("select 1 union select 2", [["1"], ["2"]])], {}, {})
    requires Outcome(w, run, payload) && run.before == RowWith(Pending, Some(1))
    ensures var blocks := RunOf(w, Some(1));
            |run.sent| == |blocks| == 2 && Fits(Fetched(w, blocks[0], Some(1)), Some(1))
    ensures run.after.status == Success && run.after.limitingFactor == Unknown
  {
    var blocks := RunOf(w, Some(1));
    assert blocks[0] == [w.statements[0].(limit := Some(2))] && blocks[1] == [w.statements[1].(limit := Some(2))];
    QuietRunGoesThrough(w, run, blocks);
  }

  /** A TIMED_OUT row that is run again, whose commit of RUNNING fails and whose asynchronous store fails, becomes
      FAILED: the status is assigned without looking at it. */
  lemma TimedOutCanBecomeFailed(w: World, run: Run, payload: Option<Payload>)
    requires w == PlainRun([Plain("select 1", [])], {}, {SetRunning}).(
                    storeResults := true, hasBackend := true, storeOk := false, returnResults := false)
    requires Outcome(w, run, payload) && run.before == RowWith(TimedOut, None)
    ensures (TimedOut, Failed) in run.rewrites && run.after.status == Failed
  {
    RewritesIff(w, run, payload);
  }

  /** A FAILED row that is run again and whose commit of RUNNING fails stays FAILED, while the payload says SUCCESS. */
  lemma FailedRowMayReturnSuccess(w: World, run: Run, payload: Option<Payload>)
    requires w == PlainRun([Plain("select 1", [])], {}, {SetRunning})
    requires Outcome(w, run, payload) && run.before == RowWith(Failed, None)
    ensures run.after.status == Failed && payload.Some? && payload.value.status == Success
  {
    QuietRunGoesThrough(w, run, RunOf(w, None));
  }

  lemma SecondTextIsFirst(w: World, blocks: seq<Block>, initial: Text)
    requires |blocks| == 2 && w.CommitOk(PreExecute(0)) && !w.CommitOk(PreExecute(1))
    ensures Texts(w, blocks, 2, initial) == [Mutated(blocks[0]), Mutated(blocks[0])]
  {
    assert Texts(w, blocks, 1, initial) == [Mutated(blocks[0])];
  }

  /** Without the commit of its own text the second block sends the first block's text again. */
  lemma FailedCommitSendsTextAgain(w: World, run: Run, payload: Option<Payload>)
    requires w == PlainRun([Plain("a", []), Plain("b", [])], {}, {PreExecute(1)})
    requires Outcome(w, run, payload) && run.before == RowWith(Pending, None)
    ensures var a := Mutated([Plain("a", [])]); run.sent == [a, a] && run.after.status == Success
  {
    var blocks := RunOf(w, None);
    assert blocks == [[Plain("a", [])], [Plain("b", [])]];
    QuietRunGoesThrough(w, run, blocks);
    SecondTextIsFirst(w, blocks, Earlier(""));
  }

  /** `SQL_MAX_ROW` is 100, the row sets no limit and the statement yields 200 rows: the run keeps 101, says that it was
      not limited, and succeeds. */
  lemma ForgottenClampFeignsNotLimited(w: World, run: Run, payload: Option<Payload>, result: seq<Record>)
    requires |result| == 200
    requires w == PlainRun([Plain("select i from t", result)], {}, {}).(sqlMaxRow := Some(100))
    requires Outcome(w, run, payload) && run.before == RowWith(Pending, None)
    ensures run.after.status == Success && run.after.limitingFactor == NotLimited
    ensures payload.Some? && payload.value.data == Some(result[..101])
  {
    var blocks := RunOf(w, None);
    assert blocks[0] == [w.statements[0].(limit := Some(101))];
    QuietRunGoesThrough(w, run, blocks);
    assert Fetched(w, blocks[0], None) == result[..101];
  }

  /** `SQL_MAX_ROW` is 100, the row's limit is 0 and the statement yields one row: the run keeps none. */
  lemma ZeroLimitLosesTheRow(w: World, run: Run, payload: Option<Payload>, record: Record)
    requires w == PlainRun([Plain("select 1", [record])], {}, {}).(sqlMaxRow := Some(100))
    requires Outcome(w, run, payload) && run.before == RowWith(Pending, Some(0))
    ensures run.after.status == Success && payload.Some? && payload.value.data == Some([])
  {
    var blocks := RunOf(w, Some(0));
    assert blocks[0] == [w.statements[0].(limit := Some(101))];
    QuietRunGoesThrough(w, run, blocks);
    assert Fetched(w, blocks[0], Some(0)) == [record];
  }
}
