/**
 The SQL Lab execution protocol of `axbi/sql_lab.py`.

 A worker drives one persisted query row from RUNNING to a terminal status while it
 sends a list of blocks to one cursor; another process may set the row to STOPPED at
 any moment. The database row and the session's copy of it are separate: an assignment
 changes the copy and marks a column dirty, a commit writes the dirty columns, and a
 refresh or a rollback discards them (axbi/sql_lab.py:295-297 relies on that).
 */
module SqlLab {
  import opened Optional

  datatype Status = Pending | Running | Success | Failed | TimedOut | Stopped
  {
    /** The statuses after which an outside stop request is ignored (axbi/daos/query.py:97-105). */
    predicate Complete() { Success? || Failed? || TimedOut? }

    predicate Terminal() { Complete() || Stopped? }

    /** The status after a moment in which a stop may land. */
    function After(stop: bool): Status { if stop && !Complete() then Stopped else this }
  }

  /** An outside stop turns a status into STOPPED but for the three complete ones. */
  lemma StopIsIgnoredIff(s: Status)
    ensures s.After(true) == (if s in {Success, Failed, TimedOut} then s else Stopped) && s.After(false) == s
  {
  }

  datatype LimitingFactor = Query | Dropdown | QueryAndDropdown | NotLimited | Unknown

  datatype Column = StatusCol | LimitCol | FactorCol | KeyCol | SqlCol | ErrorCol

  type Record = seq<string>

  /** A parsed statement: `result` is what it yields with no limit, `limit` the LIMIT in its text, and `wrapped` the
      LIMIT of a select around it. */
  datatype Statement = Statement(
    text: string, mutating: bool, result: seq<Record>, limit: Option<int>, wrapped: Option<int>)

  type Block = seq<Statement>

  /** A text for the cursor: one from before the run, or a block formatted and mutated for this deployment. */
  datatype Text = Earlier(sql: string) | Mutated(block: Block)

  datatype QueryRow = QueryRow(
    status: Status,
    limit: Option<int>,
    limitingFactor: LimitingFactor,
    resultsKey: Option<string>,
    executedSql: Text,
    errorMessage: Option<string>)

  datatype LimitMethod = ForceLimit | WrapSql | FetchMany

  /** What the driver does with a block: rows, or one of the three ways `execute_query` tells apart. */
  datatype Driver = Fetches | SoftTimeout | OAuthRedirect | Raises

  datatype Payload = Payload(
    status: Status,
    data: Option<seq<Record>>,
    limitingFactor: Option<LimitingFactor>,
    resultsKey: Option<string>)

  function StatusOnly(s: Status): Payload { Payload(s, None, None, None) }

  /** What the results backend stores: the compressed serialisation of a payload. */
  datatype Serialization = Serialized(payload: Payload)
  datatype Blob = Compressed(serialized: Serialization)

  /** The moments at which an outside stop may land. */
  datatype Point =
    | Start | Head(i: nat) | BeforeReload(i: nat) | BeforeSend(i: nat) | Executing(i: nat)
    | BeforeErrorCommit(i: nat) | BeforeFinal | Handler

  /** The commits of one run. All are soft except `FinalStatus`. */
  datatype Commit =
    | SetRunning | CancelKey | Progress(i: nat) | PreExecute(i: nat) | EagerReload(i: nat)
    | ErrorPersist(i: nat) | StoreFailed | FinalStatus | HandlerPersist

  /** `Unsaved`: the write failed but the caller gets the rows; `Lost`: the write failed and nobody does. */
  datatype StorePlan = NotStored | TooLarge | Stored | Unsaved | Lost

  /** Everything a run does not decide itself: its input, its configuration and its environment. */
  datatype World = World(
    statements: seq<Statement>,
    runAsOne: bool,
    ctasUsed: bool,
    ctasNoLimit: bool,
    sqlMaxRow: Option<nat>,
    limitMethod: LimitMethod,
    hasCancelId: bool,
    allowAsync: bool,
    hasBackend: bool,
    scriptError: Option<string>,
    returnResults: bool,
    storeResults: bool,
    newKey: string,
    storeOk: bool,
    storedTooLarge: bool,
    returnedTooLarge: bool,
    drivers: seq<Driver>,
    breaks: set<nat>,
    stops: set<Point>,
    failedCommits: set<Commit>)
  {
    predicate Stop(p: Point) { p in stops }

    predicate CommitOk(c: Commit) { c !in failedCommits }

    function DriverOf(i: nat): Driver { if i < |drivers| then drivers[i] else Fetches }

    /** Something outside `execute_query` raises once `m` blocks have fetched and before the next one is checked: the
        connection and its commit, the refresh at the head of the next block, the payload, a soft timeout. */
    predicate Breaks(m: nat) { m in breaks && (m > 0 ==> DriverOf(m - 1).Fetches?) }

    /** A stop that counts lands somewhere in block `j`, before its outcome is handled: a complete row (`entry` is
        the status the block loop starts with) ignores every stop. */
    predicate StopIn(j: nat, entry: Status) {
      !entry.Complete() && (Stop(Head(j)) || Stop(BeforeReload(j)) || Stop(BeforeSend(j)) || Stop(Executing(j)))
    }

    /** A stop lands between the head check of block `j - 1` and that of block `j`. */
    predicate HeadSeesStop(j: nat, entry: Status) {
      (!entry.Complete() && Stop(Head(j))) || (j > 0 && StopIn(j - 1, entry))
    }

    /** Blocks `..m` get past their head check and all but the last of them fetch rows. */
    ghost predicate Reaches(m: nat, entry: Status) {
      && (forall j :: 0 <= j < m ==> !HeadSeesStop(j, entry) && !Breaks(j))
      && (forall j :: 0 <= j < m - 1 ==> DriverOf(j).Fetches?)
    }

    /** Every one of `n` blocks runs and fetches. */
    ghost predicate Completes(n: nat, entry: Status) { Reaches(n, entry) && (n > 0 ==> DriverOf(n - 1).Fetches?) }

    /** A stop lands in block `j` after its head check and before its text is sent. */
    predicate StopsTooLate(j: nat, entry: Status) { !entry.Complete() && (Stop(BeforeReload(j)) || Stop(BeforeSend(j))) }

    /** The status block `i` leaves when, having been sent, it ends the run early. */
    function EarlyStatus(i: nat, entry: Status): Status {
      if DriverOf(i).Raises? && StopIn(i, entry) then Stopped
      else if !CommitOk(ErrorPersist(i)) then entry.After(StopIn(i, entry) || Stop(BeforeErrorCommit(i)))
      else if DriverOf(i).SoftTimeout? || entry == TimedOut then TimedOut
      else Failed
    }

    /** The status of a run that went through its `n` blocks, before its last commit. */
    function LateStatus(n: nat, entry: Status): Status
      requires n > 0
    {
      entry.After(StopIn(n - 1, entry) || Stop(BeforeFinal))
    }

    /** The status after the catch-all handler. */
    function Handled(s: Status): Status {
      if !CommitOk(HandlerPersist) then s.After(Stop(Handler)) else if s == TimedOut then TimedOut else Failed
    }

    /** What happens to a finished run's payload in the results backend. */
    function StorePlan(): StorePlan {
      if !(storeResults && hasBackend) then NotStored
      else if storedTooLarge then TooLarge
      else if storeOk then Stored
      else if returnResults then Unsaved
      else Lost
    }

    /** The run sent all its `n` blocks, `m` being the number sent, the last one fetched, and nothing broke it off. */
    predicate Through(n: nat, m: nat) { m == n > 0 && DriverOf(n - 1).Fetches? && !Breaks(n) }

    /** The results key a finished run leaves on its row. */
    function KeyAfter(before: Option<string>): Option<string> {
      match StorePlan()
      case Stored => Some(newKey)
      case Unsaved => None
      case _ => before
    }

    /** A run that went through its blocks raises an error nevertheless. */
    predicate RaisesAtEnd() {
      StorePlan() in {TooLarge, Lost} || !CommitOk(FinalStatus) || (returnResults && returnedTooLarge)
    }

    /** A run that sent `m` of `n` blocks raises an error, which the catch-all handler gets. */
    predicate RaisesAfter(n: nat, m: nat) { Breaks(m) || (Through(n, m) && RaisesAtEnd()) }

    /** The status `execute_sql_statements` leaves after sending `m` of `n` blocks. */
    function EndStatus(n: nat, m: nat, entry: Status): Status {
      if Breaks(m) then entry.After(m > 0 && StopIn(m - 1, entry))
      else if n == 0 then entry
      else if Through(n, m) then
        match StorePlan()
        case TooLarge => LateStatus(n, entry)
        case Lost => if CommitOk(StoreFailed) then Failed else LateStatus(n, entry)
        case _ => if !CommitOk(FinalStatus) then LateStatus(n, entry) else if entry == Failed then Failed else Success
      else if m > 0 && !DriverOf(m - 1).Fetches? then EarlyStatus(m - 1, entry)
      else Stopped
    }

    /** The results key a run that went through its blocks leaves on its row. */
    function EndKey(before: Option<string>): Option<string> {
      match StorePlan()
      case Lost => if CommitOk(StoreFailed) then None else before
      case _ => if CommitOk(FinalStatus) then KeyAfter(before) else before
    }

    function SuccessPayload(rows: seq<Record>, factor: LimitingFactor): Payload {
      Payload(Success, Some(rows), Some(factor), if storeResults && hasBackend then Some(newKey) else None)
    }

    /** Refused before RUNNING is set: an asynchronous database needs a results backend. */
    predicate BackendMissing() { allowAsync && !hasBackend }

    /** The run gets as far as its block loop. */
    predicate Starts() { !BackendMissing() && scriptError.None? }

    /** The row's status once RUNNING has been committed over `before`, if that was a change and the commit held. */
    function EntryStatus(before: Status): Status {
      if before != Running && CommitOk(SetRunning) then Running else before.After(Stop(Start))
    }

    /** What it takes for a run of `n` blocks to end in SUCCESS. */
    ghost predicate Succeeds(n: nat, entry: Status) {
      && entry != Stopped && Completes(n, entry) && !Breaks(n)
      && StorePlan() !in {TooLarge, Lost} && !(returnResults && returnedTooLarge)
    }
  }

  // ---------------------------------------------------------------- limits

  function Take<T>(s: seq<T>, k: int): seq<T> {
    if k <= 0 then [] else if k >= |s| then s else s[..k]
  }

  /** The first rows, and no more than `k`. */
  lemma TakeIsPrefix<T>(s: seq<T>, k: int)
    ensures Take(s, k) <= s && |Take(s, k)| == if k < 0 then 0 else if k < |s| then k else |s|
  {
  }

  predicate Truthy(limit: Option<int>) { limit.Some? && limit.value != 0 }

  predicate Limitable(w: World, s: Statement) { !s.mutating && !(w.ctasUsed && w.ctasNoLimit) }

  /** `query.limit` after a limitable statement has been seen. */
  function Clamped(w: World, limit: Option<int>): Option<int> {
    if w.sqlMaxRow.Some? && w.sqlMaxRow.value != 0 &&
       (!Truthy(limit) || limit.value > w.sqlMaxRow.value)
    then Some(w.sqlMaxRow.value) else limit
  }

  /** `set_limit_value`: the statement's own LIMIT is replaced, kept inside a wrapping select, or left alone. */
  function SetLimit(s: Statement, limit: int, how: LimitMethod): Statement {
    match how
    case ForceLimit => s.(limit := Some(limit))
    case WrapSql => s.(wrapped := Some(limit))
    case FetchMany => s
  }

  /** The statement after `apply_limit`. */
  function WithLimit(w: World, s: Statement, limit: Option<int>): Statement {
    var l := Clamped(w, limit);
    if Limitable(w, s) && Truthy(l) then SetLimit(s, l.value + 1, w.limitMethod) else s
  }

  function Limited(w: World, ss: seq<Statement>, limit: Option<int>): seq<Statement> {
    seq(|ss|, i requires 0 <= i < |ss| => WithLimit(w, ss[i], limit))
  }

  /** A block is one statement, or the whole script where the engine keeps no state between calls. */
  function Blocks(w: World, ss: seq<Statement>): seq<Block> {
    if w.runAsOne then [ss] else seq(|ss|, i requires 0 <= i < |ss| => [ss[i]])
  }

  /** The blocks of a run whose row came with `limit`. */
  function RunOf(w: World, limit: Option<int>): seq<Block> { Blocks(w, Limited(w, w.statements, limit)) }

  /** The limit on the row when rows are fetched: the clamp survives the refresh at the head of the first block only
      if the commit of a cancel key wrote it first. */
  function LimitAtFetch(w: World, limit: Option<int>): Option<int> {
    if w.hasCancelId && w.CommitOk(CancelKey) && exists s :: s in w.statements && Limitable(w, s)
    then Clamped(w, limit) else limit
  }

  function Cut(rows: seq<Record>, limit: Option<int>): seq<Record> {
    if limit.Some? then Take(rows, limit.value) else rows
  }

  /** The rows the cursor holds for a block: those of its last statement, cut by the limits in its text. */
  function CursorRows(b: Block): seq<Record> {
    if b == [] then []
    else
      var s := b[|b| - 1];
      Cut(Cut(s.result, s.limit), s.wrapped)
  }

  /** `fetch_data`: `fetchmany` where the engine limits on the driver, otherwise `fetchall`. */
  function FetchData(w: World, b: Block, limit: Option<int>): seq<Record> {
    if w.limitMethod.FetchMany? && Truthy(limit) then Take(CursorRows(b), limit.value)
    else CursorRows(b)
  }

  function Increased(limit: Option<int>): Option<int> {
    if limit.None? then None else Some(limit.value + 1)
  }

  /** The rows fetched while the row's limit column holds `limit`. */
  function Fetched(w: World, b: Block, limit: Option<int>): seq<Record> {
    FetchData(w, b, Increased(limit))
  }

  predicate Fits(data: seq<Record>, limit: Option<int>) { limit.None? || |data| <= limit.value }

  /** The rows `execute_query` keeps: all of them, or all but the last. */
  function Kept(data: seq<Record>, limit: Option<int>): seq<Record> {
    if Fits(data, limit) then data else Take(data, |data| - 1)
  }

  /** Trimming one row is the promised truncation exactly when the driver returned at most one row too many. */
  lemma TrimIsTruncationIff(data: seq<Record>, limit: nat)
    ensures Kept(data, Some(limit)) == Take(data, limit) <==> |data| <= limit + 1
  {
  }

  /** What a statement yields without the limit of `apply_limit`, which replaces its own under FORCE_LIMIT only. */
  function Unlimited(w: World, s: Statement): seq<Record> {
    if w.limitMethod.ForceLimit? then s.result else Cut(s.result, s.limit)
  }

  /** The clamped limit is the largest that neither a set `SQL_MAX_ROW` nor a set row limit is below; none is set if
      neither is. */
  lemma ClampedIsLargest(w: World, incoming: Option<int>)
    requires incoming.Some? ==> incoming.value >= 0
    ensures var max, clamp := w.sqlMaxRow, Clamped(w, incoming);
            var bounds := (limit: int) => (max.Some? && max.value > 0 ==> limit <= max.value) &&
                                          (incoming.Some? && incoming.value > 0 ==> limit <= incoming.value);
            && (Truthy(clamp) <==> (max.Some? && max.value > 0) || (incoming.Some? && incoming.value > 0))
            && (Truthy(clamp) ==> bounds(clamp.value) && forall limit :: bounds(limit) ==> limit <= clamp.value)
  {
  }

  /** With the clamped limit still on the row, every limitable block keeps the first `limit` rows of what it would
      yield without it, under all three limit methods, and counts as not limited iff nothing was cut. */
  lemma ClampedBlockKeepsPrefix(w: World, s: Statement, incoming: Option<int>)
    requires Limitable(w, s) && s.wrapped.None?
    requires incoming.Some? ==> incoming.value >= 0
    requires Truthy(Clamped(w, incoming))
    ensures var used := Clamped(w, incoming);
            var data := Fetched(w, [WithLimit(w, s, incoming)], used);
            && used.value > 0
            && (w.sqlMaxRow.Some? && w.sqlMaxRow.value > 0 ==> used.value <= w.sqlMaxRow.value)
            && Kept(data, used) == Take(Unlimited(w, s), used.value)
            && (Fits(data, used) <==> |Unlimited(w, s)| <= used.value)
  {
  }

  // ---------------------------------------------------------------- limits over a run

  /** The statement with another unlimited result. */
  function Yielding(s: Statement, result: seq<Record>): Statement { s.(result := result) }

  /** What a run keeps of a statement whose unlimited result is `result`. */
  function KeptRows(w: World, s: Statement, incoming: Option<int>, used: Option<int>, result: seq<Record>): seq<Record> {
    Kept(Fetched(w, [WithLimit(w, Yielding(s, result), incoming)], used), used)
  }

  lemma FewRowsKept(w: World, s: Statement, incoming: Option<int>, used: Option<int>, result: seq<Record>)
    requires Limitable(w, s) && s.wrapped.None?
    requires w.sqlMaxRow.Some? && w.sqlMaxRow.value > 0 && (incoming.Some? ==> incoming.value >= 0)
    requires used == incoming || used == Clamped(w, incoming)
    requires || (used.Some? && used.value <= w.sqlMaxRow.value)
             || (!w.limitMethod.ForceLimit? && s.limit.Some? && s.limit.value <= w.sqlMaxRow.value)
    ensures |KeptRows(w, s, incoming, used, result)| <= w.sqlMaxRow.value
  {
    var data := Fetched(w, [WithLimit(w, Yielding(s, result), incoming)], used);
    assert |data| <= w.sqlMaxRow.value + 1;
  }

  lemma ManyRowsKept(w: World, s: Statement, incoming: Option<int>, used: Option<int>, result: seq<Record>)
    requires Limitable(w, s) && s.wrapped.None?
    requires w.sqlMaxRow.Some? && w.sqlMaxRow.value > 0 && |result| == w.sqlMaxRow.value + 1
    requires used == incoming && (used.Some? ==> used.value > w.sqlMaxRow.value)
    requires w.limitMethod.ForceLimit? || s.limit.None? || s.limit.value > w.sqlMaxRow.value
    ensures KeptRows(w, s, incoming, used, result) == result
  {
    assert Fetched(w, [WithLimit(w, Yielding(s, result), incoming)], used) == result;
  }

  /** `SQL_MAX_ROW` bounds what a limitable statement of a run returns, whatever its unlimited result, exactly when
      the clamp was committed with a cancel key before the first refresh, or was not needed: because the row's limit
      was small enough, or because a LIMIT of the statement's own survives and is. */
  lemma MaxRowHoldsIff(w: World, s: Statement, incoming: Option<int>)
    requires s in w.statements && Limitable(w, s) && s.wrapped.None?
    requires w.sqlMaxRow.Some? && w.sqlMaxRow.value > 0
    requires incoming.Some? ==> incoming.value >= 0
    ensures var used := LimitAtFetch(w, incoming);
            (forall result :: |KeptRows(w, s, incoming, used, result)| <= w.sqlMaxRow.value)
            <==> || (w.hasCancelId && w.CommitOk(CancelKey))
                 || (incoming.Some? && incoming.value <= w.sqlMaxRow.value)
                 || (!w.limitMethod.ForceLimit? && s.limit.Some? && s.limit.value <= w.sqlMaxRow.value)
  {
    var used, max := LimitAtFetch(w, incoming), w.sqlMaxRow.value;
    assert used == incoming || used == Clamped(w, incoming);
    if (used.Some? && used.value <= max) || (!w.limitMethod.ForceLimit? && s.limit.Some? && s.limit.value <= max) {
      forall result ensures |KeptRows(w, s, incoming, used, result)| <= max {
        FewRowsKept(w, s, incoming, used, result);
      }
    } else {
      var result: seq<Record> := seq(max + 1, _ => []);
      ManyRowsKept(w, s, incoming, used, result);
    }
  }

  /** The row still holds the clamped limit when rows are fetched, or never held another one. */
  predicate ClampHolds(w: World, incoming: Option<int>) {
    (w.hasCancelId && w.CommitOk(CancelKey)) || Clamped(w, incoming) == incoming
  }

  /** A LIMIT of the statement's own that `apply_limit` does not replace lets through at most `n` rows. */
  predicate OwnLimitWithin(w: World, s: Statement, n: int) {
    !w.limitMethod.ForceLimit? && s.limit.Some? && s.limit.value <= n
  }

  /** What a row limit of 0 lets through: the clamp was for the text only. */
  function LetThrough(w: World, incoming: Option<int>): int
    requires Truthy(Clamped(w, incoming))
  {
    if incoming == Some(0) then 0 else Clamped(w, incoming).value
  }

  lemma OwnLimitKeepsPrefix(w: World, s: Statement, incoming: Option<int>, result: seq<Record>)
    requires Limitable(w, s) && s.wrapped.None?
    requires incoming.Some? ==> incoming.value >= 0
    requires Truthy(Clamped(w, incoming)) && Clamped(w, incoming) != incoming
    requires OwnLimitWithin(w, s, LetThrough(w, incoming))
    ensures KeptRows(w, s, incoming, incoming, result) == Take(Unlimited(w, Yielding(s, result)), Clamped(w, incoming).value)
  {
    assert Fetched(w, [WithLimit(w, Yielding(s, result), incoming)], incoming) == Unlimited(w, Yielding(s, result));
  }

  lemma LostClampBreaksPrefix(w: World, s: Statement, incoming: Option<int>, result: seq<Record>)
    requires Limitable(w, s) && s.wrapped.None?
    requires incoming.Some? ==> incoming.value >= 0
    requires Truthy(Clamped(w, incoming)) && Clamped(w, incoming) != incoming
    requires !OwnLimitWithin(w, s, LetThrough(w, incoming)) && |result| == LetThrough(w, incoming) + 1
    ensures |KeptRows(w, s, incoming, incoming, result)| != |Take(Unlimited(w, Yielding(s, result)), Clamped(w, incoming).value)|
  {
    assert Unlimited(w, Yielding(s, result)) == result;
  }

  /** A limitable statement of a run keeps the promised first rows, whatever its unlimited result, exactly when the
      clamp was committed with a cancel key before the first refresh, or changed nothing, or a LIMIT of the statement's
      own cuts as much. */
  lemma LimitedBlockKeepsPrefixIff(w: World, s: Statement, incoming: Option<int>)
    requires s in w.statements && Limitable(w, s) && s.wrapped.None?
    requires incoming.Some? ==> incoming.value >= 0
    requires Truthy(Clamped(w, incoming))
    ensures var used, clamp := LimitAtFetch(w, incoming), Clamped(w, incoming).value;
            (forall result :: KeptRows(w, s, incoming, used, result) == Take(Unlimited(w, Yielding(s, result)), clamp))
            <==> ClampHolds(w, incoming) || OwnLimitWithin(w, s, LetThrough(w, incoming))
  {
    var used, clamp := LimitAtFetch(w, incoming), Clamped(w, incoming).value;
    if ClampHolds(w, incoming) || OwnLimitWithin(w, s, LetThrough(w, incoming)) {
      forall result
        ensures KeptRows(w, s, incoming, used, result) == Take(Unlimited(w, Yielding(s, result)), clamp)
      {
        if ClampHolds(w, incoming) {
          ClampedBlockKeepsPrefix(w, Yielding(s, result), incoming);
        } else {
          OwnLimitKeepsPrefix(w, s, incoming, result);
        }
      }
    } else {
      var result: seq<Record> := seq(if incoming == Some(0) then 1 else clamp + 1, _ => []);
      LostClampBreaksPrefix(w, s, incoming, result);
    }
  }

  /** The rows count as not limited iff the run keeps all the statement would yield. */
  predicate FactorIsTrue(w: World, s: Statement, incoming: Option<int>, used: Option<int>, result: seq<Record>) {
    Fits(Fetched(w, [WithLimit(w, Yielding(s, result), incoming)], used), used)
    <==> KeptRows(w, s, incoming, used, result) == Unlimited(w, Yielding(s, result))
  }

  lemma HarmlessLostClamp(w: World, s: Statement, incoming: Option<int>, result: seq<Record>)
    requires Limitable(w, s) && s.wrapped.None?
    requires incoming.Some? ==> incoming.value >= 0
    requires Truthy(Clamped(w, incoming)) && Clamped(w, incoming) != incoming
    requires incoming == Some(0) || w.limitMethod.FetchMany? || OwnLimitWithin(w, s, Clamped(w, incoming).value + 1)
    ensures FactorIsTrue(w, s, incoming, incoming, result)
  {
    var data := Fetched(w, [WithLimit(w, Yielding(s, result), incoming)], incoming);
    assert |data| <= |Unlimited(w, Yielding(s, result))|;
    assert !Fits(data, incoming) ==> |Kept(data, incoming)| < |data|;
  }

  lemma LostClampFeignsNotLimited(w: World, s: Statement, incoming: Option<int>, result: seq<Record>)
    requires Limitable(w, s) && s.wrapped.None?
    requires incoming.Some? ==> incoming.value >= 0
    requires Truthy(Clamped(w, incoming)) && Clamped(w, incoming) != incoming && incoming != Some(0)
    requires !w.limitMethod.FetchMany? && !OwnLimitWithin(w, s, Clamped(w, incoming).value + 1)
    requires |result| == Clamped(w, incoming).value + 2
    ensures !FactorIsTrue(w, s, incoming, incoming, result)
  {
    var data := Fetched(w, [WithLimit(w, Yielding(s, result), incoming)], incoming);
    assert |Unlimited(w, Yielding(s, result))| == |result|;
    assert |data| == |result| - 1;
  }

  /** A limitable statement of a run counts as not limited only if nothing was cut, and as limited only if something
      was, whatever its unlimited result, exactly when the clamp was committed with a cancel key before the first
      refresh, or changed nothing, or the row's limit is 0, or only the driver limits, or a LIMIT inside the wrapping
      select leaves nothing for the wrapping one to cut. */
  lemma FactorIsTrueIff(w: World, s: Statement, incoming: Option<int>)
    requires s in w.statements && Limitable(w, s) && s.wrapped.None?
    requires incoming.Some? ==> incoming.value >= 0
    requires Truthy(Clamped(w, incoming))
    ensures var used, clamp := LimitAtFetch(w, incoming), Clamped(w, incoming).value;
            (forall result :: FactorIsTrue(w, s, incoming, used, result))
            <==> || ClampHolds(w, incoming) || incoming == Some(0) || w.limitMethod.FetchMany?
                 || OwnLimitWithin(w, s, clamp + 1)
  {
    var used, clamp := LimitAtFetch(w, incoming), Clamped(w, incoming).value;
    if ClampHolds(w, incoming) {
      forall result ensures FactorIsTrue(w, s, incoming, used, result) {
        ClampedBlockKeepsPrefix(w, Yielding(s, result), incoming);
      }
    } else if incoming == Some(0) || w.limitMethod.FetchMany? || OwnLimitWithin(w, s, clamp + 1) {
      forall result ensures FactorIsTrue(w, s, incoming, used, result) {
        HarmlessLostClamp(w, s, incoming, result);
      }
    } else {
      var result: seq<Record> := seq(clamp + 2, _ => []);
      LostClampFeignsNotLimited(w, s, incoming, result);
    }
  }

  /** Without a limit to set, that is without `SQL_MAX_ROW` and with a row limit that is missing or 0, all rows are kept
      or all but the last of those fetched. */
  lemma UnclampedBlockKeeps(w: World, s: Statement, incoming: Option<int>)
    requires Limitable(w, s) && s.wrapped.None? && !Truthy(Clamped(w, incoming))
    ensures var rows := Cut(s.result, s.limit);
            Kept(Fetched(w, [WithLimit(w, s, incoming)], LimitAtFetch(w, incoming)), LimitAtFetch(w, incoming))
            == if incoming.None? then rows else if w.limitMethod.FetchMany? then [] else Take(rows, |rows| - 1)
  {
  }

  // ---------------------------------------------------------------- the texts sent

  /** The text on the row once `texts` were sent. */
  function OnRow(texts: seq<Text>, initial: Text): Text { if texts == [] then initial else texts[|texts| - 1] }

  /** The texts blocks `..m` send: a block's own if the commit before it holds, else the one on the row. */
  function Texts(w: World, blocks: seq<Block>, m: nat, initial: Text): (r: seq<Text>)
    requires m <= |blocks|
    ensures |r| == m
  {
    if m == 0 then []
    else
      var front := Texts(w, blocks, m - 1, initial);
      front + [if w.CommitOk(PreExecute(m - 1)) then Mutated(blocks[m - 1]) else OnRow(front, initial)]
  }

  /** The texts are a prefix of the mutated blocks: in order, each once, none altered. */
  ghost predicate PrefixOfBlocks(texts: seq<Text>, blocks: seq<Block>) {
    |texts| <= |blocks| && forall j :: 0 <= j < |texts| ==> texts[j] == Mutated(blocks[j])
  }

  /** The text on the row before block `j` is that block's own already. */
  predicate AlreadyOnRow(blocks: seq<Block>, j: nat, initial: Text)
    requires j < |blocks|
  {
    (if j == 0 then initial else Mutated(blocks[j - 1])) == Mutated(blocks[j])
  }

  /** Every commit before the first `m` executions holds, but for those that would change nothing. */
  ghost predicate TextsCommitted(w: World, blocks: seq<Block>, m: nat, initial: Text)
    requires m <= |blocks|
  {
    forall j :: 0 <= j < m ==> w.CommitOk(PreExecute(j)) || AlreadyOnRow(blocks, j, initial)
  }

  /** The texts are a prefix of the mutated blocks, in order and each once, exactly when the commits before them hold,
      but for those that would change nothing. A failed one sends the previous text again. */
  lemma {:induction false} TextsAreBlocksIff(w: World, blocks: seq<Block>, m: nat, initial: Text)
    requires m <= |blocks|
    ensures PrefixOfBlocks(Texts(w, blocks, m, initial), blocks) <==> TextsCommitted(w, blocks, m, initial)
  {
    if m > 0 {
      TextsAreBlocksIff(w, blocks, m - 1, initial);
      var texts, front := Texts(w, blocks, m, initial), Texts(w, blocks, m - 1, initial);
      assert forall j :: 0 <= j < m - 1 ==> texts[j] == front[j];
    }
  }
}
