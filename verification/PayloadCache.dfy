/**
 The data cache in front of a chart's query: `cache_key` and `get_df_payload` of `BaseViz` in `axbi/viz.py`.

 The hash of the key's JSON text is taken to be injective, so a cache key is the dictionary itself; the source's
 answer depends only on the key.
 */
module PayloadCache {
  import opened Optional

  type Dict = map<string, string>

  type CacheKey = Dict

  type DataFrame = seq<seq<string>>

  /** What `cache_key` adds from outside the query object. */
  datatype Context = Context(
    timeRange: string, datasource: string, extraCacheKeys: string, rls: string, changedOn: string,
    impersonation: Option<string>)

  datatype Request = Request(query: Dict, extra: Dict, context: Context)

  datatype Status = Success | Failed

  /** What the source had reported when an error was raised after all, while its rows were being prepared. */
  datatype Report = Report(query: string, errors: seq<string>, applied: seq<string>, rejected: seq<string>)

  /** One run of the query, or the ways it is refused or fails, before or after the source reported. */
  datatype Answer =
    | UnknownColumns(message: string)
    | Rows(df: DataFrame, query: string, failed: bool, errors: seq<string>, applied: seq<string>, rejected: seq<string>)
    | StructuredError
    | OtherError(message: string, reported: Option<Report>)
  {
    predicate Good() { Rows? && !failed }
  }

  datatype Source = Source(answers: map<CacheKey, Answer>, otherwise: Answer) {
    function Ask(key: CacheKey): Answer { if key in answers then answers[key] else otherwise }
  }

  /** Other writers of the cache may add the filter columns; this one never does. */
  datatype Entry = Entry(df: DataFrame, query: string, applied: Option<seq<string>>, rejected: Option<seq<string>>)

  datatype Payload = Payload(
    cacheKey: Option<CacheKey>, df: Option<DataFrame>, errors: seq<string>, isCached: bool, query: string,
    status: Option<Status>)

  datatype Result = Returned(payload: Payload) | CacheLoadError | Structured

  const DISABLED_TIMEOUT := -1

  const BOUNDS: set<string> := {"from_dttm", "to_dttm", "inner_from_dttm", "inner_to_dttm"}

  const ADDED: set<string> := {"time_range", "datasource", "extra_cache_keys", "rls", "changed_on"}

  // ---------------------------------------------------------------- the key

  function CacheKeyOf(r: Request): CacheKey {
    var c := r.context;
    var dict := (r.query + r.extra) - BOUNDS;
    var keyed := dict["time_range" := c.timeRange]["datasource" := c.datasource]
                     ["extra_cache_keys" := c.extraCacheKeys]["rls" := c.rls]["changed_on" := c.changedOn];
    if c.impersonation.Some? then keyed["impersonation_key" := c.impersonation.value] else keyed
  }

  function Lookup(d: Dict, f: string): Option<string> { if f in d then Some(d[f]) else None }

  /** The user a request is keyed by, if any. */
  function Impersonation(r: Request): Option<string> {
    if r.context.impersonation.Some? then r.context.impersonation else Lookup(r.query + r.extra, "impersonation_key")
  }

  lemma KeyFields(r: Request)
    ensures var k, c := CacheKeyOf(r), r.context;
            && Lookup(k, "time_range") == Some(c.timeRange) && Lookup(k, "datasource") == Some(c.datasource)
            && Lookup(k, "extra_cache_keys") == Some(c.extraCacheKeys) && Lookup(k, "rls") == Some(c.rls)
            && Lookup(k, "changed_on") == Some(c.changedOn) && Lookup(k, "impersonation_key") == Impersonation(r)
            && (forall f <- BOUNDS :: Lookup(k, f) == None)
            && forall f :: f !in BOUNDS + ADDED + {"impersonation_key"} ==>
                 Lookup(k, f) == Lookup(r.query + r.extra, f)
  {
  }

  lemma SameLookups(a: Dict, b: Dict)
    requires forall f :: Lookup(a, f) == Lookup(b, f)
    ensures a == b
  {
    forall f ensures f in a <==> f in b { assert Lookup(a, f) == Lookup(b, f); }
    forall f | f in a ensures a[f] == b[f] { assert Lookup(a, f) == Lookup(b, f); }
  }

  /** What a key does not take from the query object and its extras. */
  function NotTaken(): set<string> { BOUNDS + ADDED + {"impersonation_key"} }

  ghost predicate SameTaken(a: Request, b: Request) {
    forall f :: f !in NotTaken() ==> Lookup(a.query + a.extra, f) == Lookup(b.query + b.extra, f)
  }

  lemma SameKeySameFields(a: Request, b: Request)
    requires CacheKeyOf(a) == CacheKeyOf(b)
    ensures a.context.(impersonation := None) == b.context.(impersonation := None)
    ensures Impersonation(a) == Impersonation(b) && SameTaken(a, b)
  {
    KeyFields(a);
    KeyFields(b);
    var k := CacheKeyOf(a);
    assert Lookup(k, "time_range") == Some(a.context.timeRange) == Some(b.context.timeRange);
    assert Lookup(k, "datasource") == Some(a.context.datasource) == Some(b.context.datasource);
    assert Lookup(k, "extra_cache_keys") == Some(a.context.extraCacheKeys) == Some(b.context.extraCacheKeys);
    assert Lookup(k, "rls") == Some(a.context.rls) == Some(b.context.rls);
    assert Lookup(k, "changed_on") == Some(a.context.changedOn) == Some(b.context.changedOn);
  }

  lemma SameFieldsSameKey(a: Request, b: Request)
    requires a.context.(impersonation := None) == b.context.(impersonation := None)
    requires Impersonation(a) == Impersonation(b) && SameTaken(a, b)
    ensures CacheKeyOf(a) == CacheKeyOf(b)
  {
    KeyFields(a);
    KeyFields(b);
    forall f ensures Lookup(CacheKeyOf(a), f) == Lookup(CacheKeyOf(b), f) { }
    SameLookups(CacheKeyOf(a), CacheKeyOf(b));
  }

  /** Requests share a key exactly when they agree on the five added fields, the impersonated user, and every field
      of the query object and its extras but the hard time bounds and the fields the additions replace. */
  lemma SameKeyIff(a: Request, b: Request)
    ensures CacheKeyOf(a) == CacheKeyOf(b) <==>
              && a.context.(impersonation := None) == b.context.(impersonation := None)
              && Impersonation(a) == Impersonation(b)
              && forall f :: f !in {"from_dttm", "to_dttm", "inner_from_dttm", "inner_to_dttm", "time_range", "datasource",
                                    "extra_cache_keys", "rls", "changed_on", "impersonation_key"} ==>
                   Lookup(a.query + a.extra, f) == Lookup(b.query + b.extra, f)
  {
    assert NotTaken() == {"from_dttm", "to_dttm", "inner_from_dttm", "inner_to_dttm", "time_range", "datasource",
                          "extra_cache_keys", "rls", "changed_on", "impersonation_key"};
    if CacheKeyOf(a) == CacheKeyOf(b) {
      SameKeySameFields(a, b);
    } else if a.context.(impersonation := None) == b.context.(impersonation := None) &&
              Impersonation(a) == Impersonation(b) && SameTaken(a, b) {
      SameFieldsSameKey(a, b);
    }
  }

  // ---------------------------------------------------------------- the cache

  class DataCache {
    const isNull: bool
    var entries: map<CacheKey, Entry>

    constructor (isNull: bool)
      ensures this.isNull == isNull && entries == map[]
    {
      this.isNull, entries := isNull, map[];
    }

    /** Every entry is the successful answer to its key. */
    ghost predicate Sound(source: Source)
      reads this
    {
      forall k <- entries ::
        source.Ask(k).Good() && entries[k].df == source.Ask(k).df && entries[k].query == source.Ask(k).query
    }

    /** `set_and_log_cache`; a backend that is down, or rejects the value, loses the write. */
    method SetAndLog(key: CacheKey, df: DataFrame, query: string, timeout: int, writable: bool)
      modifies this
      ensures entries == if isNull || timeout == DISABLED_TIMEOUT || !writable then old(entries)
                         else old(entries)[key := Entry(df, query, None, None)]
    {
      if isNull {
        return;
      }
      if timeout == DISABLED_TIMEOUT {
        return;
      }
      if writable {
        entries := entries[key := Entry(df, query, None, None)];
      }
    }

    /** Entries may expire or be evicted at any time. */
    method Evict(keys: set<CacheKey>)
      modifies this
      ensures entries == old(entries) - keys
    {
      entries := entries - keys;
    }
  }

  /** The payload of a run without a cache: what every other run has to agree with. */
  function Fresh(source: Source, key: CacheKey): Result {
    match source.Ask(key)
    case UnknownColumns(message) => Returned(Payload(Some(key), None, [message], false, "", Some(Failed)))
    case Rows(df, query, failed, errors, _, _) =>
      Returned(Payload(Some(key), Some(df), errors, false, query, Some(if failed then Failed else Success)))
    case StructuredError => Structured
    case OtherError(message, None) => Returned(Payload(Some(key), None, [message], false, "", Some(Failed)))
    case OtherError(message, Some(report)) =>
      Returned(Payload(Some(key), None, report.errors + [message], false, report.query, Some(Failed)))
  }

  /** What a payload says of its answer: SUCCESS exactly for the rows of a query that did not fail, and FAILED otherwise;
      rows and query text exactly as the source gave them. */
  ghost predicate TellsTruth(answer: Answer, p: Payload) {
    && p.status == Some(if answer.Rows? && !answer.failed then Success else Failed)
    && p.df == (if answer.Rows? then Some(answer.df) else None)
    && p.query == (match answer
                   case Rows(_, query, _, _, _, _) => query
                   case OtherError(_, Some(report)) => report.query
                   case _ => "")
    && (!p.isCached ==> p.errors == match answer
                                   case Rows(_, _, _, errors, _, _) => errors
                                   case UnknownColumns(message) => [message]
                                   case OtherError(message, None) => [message]
                                   case OtherError(message, Some(report)) => report.errors + [message]
                                   case StructuredError => [])
    && (p.isCached ==> answer.Rows? && !answer.failed && p.errors == [])
  }

  class Viz {
    const cache: DataCache
    const source: Source
    const force: bool
    const forceCached: bool
    const timeout: int
    var status: Option<Status>
    var query: string
    var errors: seq<string>
    var applied: seq<string>
    var rejected: seq<string>
    // The number of queries sent to the source.
    ghost var queries: nat

    constructor (cache: DataCache, source: Source, force: bool, forceCached: bool, timeout: int)
      ensures this.cache == cache && this.source == source && this.force == force
      ensures this.forceCached == forceCached && this.timeout == timeout
      ensures status == None && query == "" && errors == [] && applied == [] && rejected == [] && queries == 0
    {
      this.cache, this.source, this.force, this.forceCached, this.timeout := cache, source, force, forceCached, timeout;
      status, query, errors, applied, rejected, queries := None, "", [], [], [], 0;
    }

    predicate Forced() { force || timeout == DISABLED_TIMEOUT }

    /** `get_df_payload`; no request stands for an empty query object. */
    method GetDfPayload(request: Option<Request>, writable: bool) returns (r: Result)
      requires cache.Sound(source)
      modifies this, cache
      ensures cache.Sound(source)
      ensures r.Returned? ==> r.payload.query == query && r.payload.errors == errors && r.payload.status == status
      ensures forceCached ==> queries == old(queries) && cache.entries == old(cache.entries)
      // A returned payload of a fresh chart tells the truth about the answer.
      ensures request.Some? && r.Returned? && old(query) == "" && old(errors) == [] ==>
                TellsTruth(source.Ask(CacheKeyOf(request.value)), r.payload)
      // No query object: nothing is looked up, run or stored.
      ensures request.None? ==>
                && r == Returned(Payload(None, None, old(errors), false, old(query), old(status)))
                && cache.entries == old(cache.entries) && queries == old(queries)
      // A hit serves the stored answer of the key without asking the source.
      ensures request.Some? && !Forced() && CacheKeyOf(request.value) in old(cache.entries) ==>
                var key := CacheKeyOf(request.value);
                && source.Ask(key).Good()
                && r == Returned(Payload(Some(key), Some(source.Ask(key).df), old(errors), true, source.Ask(key).query,
                                         Some(Success)))
                && cache.entries == old(cache.entries) && queries == old(queries)
      // A miss, or a forced run, either refuses or runs the query; only a good answer is stored, under its own key.
      ensures request.Some? && (Forced() || CacheKeyOf(request.value) !in old(cache.entries)) ==>
                var key := CacheKeyOf(request.value);
                var a := source.Ask(key);
                if forceCached then r == CacheLoadError
                else
                  && queries == old(queries) + (if a.UnknownColumns? then 0 else 1)
                  && (old(query) == "" && old(errors) == [] ==> r == Fresh(source, key))
                  && cache.entries == if a.Good() && !cache.isNull && timeout != DISABLED_TIMEOUT && writable
                                      then old(cache.entries)[key := Entry(a.df, a.query, None, None)]
                                      else old(cache.entries)
    {
      if request.None? {
        return Returned(Payload(None, None, errors, false, query, status));
      }
      var key := CacheKeyOf(request.value);
      var df: Option<DataFrame> := None;
      var isCached, isLoaded := false, false;
      if !Forced() && key in cache.entries {
        var entry := cache.entries[key];
        df, query := Some(entry.df), entry.query;
        applied := if entry.applied.Some? then entry.applied.value else [];
        rejected := if entry.rejected.Some? then entry.rejected.value else [];
        status, isCached, isLoaded := Some(Success), true, true;
      }
      if !isLoaded {
        if forceCached {
          return CacheLoadError;
        }
        match source.Ask(key) {
          case UnknownColumns(message) =>
            errors, status := errors + [message], Some(Failed);
          case Rows(rows, text, failed, es, ap, rj) =>
            queries := queries + 1;
            applied, rejected, query, errors := ap, rj, text, es;
            df, status := Some(rows), Some(if failed then Failed else Success);
            isLoaded := !failed;
          case StructuredError =>
            queries := queries + 1;
            return Structured;
          case OtherError(message, reported) =>
            queries := queries + 1;
            if reported.Some? {
              var report := reported.value;
              applied, rejected, query, errors := report.applied, report.rejected, report.query, report.errors;
            }
            errors, status := errors + [message], Some(Failed);
        }
        if isLoaded && status != Some(Failed) {
          cache.SetAndLog(key, df.value, query, timeout, writable);
        }
      }
      r := Returned(Payload(Some(key), df, errors, isCached, query, status));
    }
  }

  // ---------------------------------------------------------------- any sequence of calls and evictions

  datatype Op =
    | Call(request: Request, force: bool, forceCached: bool, timeout: int, writable: bool)
    | Evict(keys: set<CacheKey>)

  /** A call's result agrees with a run that has no cache: it is that run's result but for the hit mark and the
      errors a hit does not carry, or it is the refusal of a `force_cached` call. */
  ghost predicate Agrees(source: Source, op: Op, r: Option<Result>) {
    match op
    case Evict(_) => r == None
    case Call(request, force, forceCached, timeout, _) =>
      var key := CacheKeyOf(request);
      var alone := Fresh(source, key);
      && r.Some?
      && (r.value == CacheLoadError ==> forceCached)
      && (forceCached ==> r.value == CacheLoadError || (r.value.Returned? && r.value.payload.isCached))
      && (force || timeout == -1 ==> r.value == if forceCached then CacheLoadError else alone)
      && (r.value != CacheLoadError ==>
            || r.value == alone
            || (&& alone.Returned? && alone.payload.status == Some(Success)
                && r.value == Returned(alone.payload.(isCached := true, errors := []))))
  }

  /** Every payload of a call that agrees tells the truth about the source's answer; only a structured error returns
      none, besides the refusal of a `force_cached` call. */
  lemma AgreeingPayloadTellsTruth(source: Source, op: Op, r: Option<Result>)
    requires Agrees(source, op, r) && op.Call?
    ensures var answer := source.Ask(CacheKeyOf(op.request));
            match r
            case Some(Returned(p)) =>
              !answer.StructuredError? && TellsTruth(answer, p) && p.cacheKey == Some(CacheKeyOf(op.request))
            case Some(Structured) => answer.StructuredError?
            case Some(CacheLoadError) => op.forceCached
            case None => false
  {
  }

  /** Every call of a sequence of calls and evictions that starts with an empty cache agrees with a fresh run. */
  method Serve(source: Source, isNull: bool, ops: seq<Op>) returns (results: seq<Option<Result>>, cache: DataCache)
    ensures fresh(cache) && cache.Sound(source)
    ensures |results| == |ops| && forall i :: 0 <= i < |ops| ==> Agrees(source, ops[i], results[i])
    ensures forall i :: 0 <= i < |ops| && ops[i].Call? && results[i].Some? && results[i].value.Returned? ==>
              TellsTruth(source.Ask(CacheKeyOf(ops[i].request)), results[i].value.payload)
  {
    cache := new DataCache(isNull);
    results := [];
    for i := 0 to |ops|
      invariant fresh(cache) && cache.Sound(source)
      invariant |results| == i && forall j :: 0 <= j < i ==> Agrees(source, ops[j], results[j])
    {
      match ops[i]
      case Evict(keys) =>
        cache.Evict(keys);
        results := results + [None];
      case Call(request, force, forceCached, timeout, writable) =>
        var viz := new Viz(cache, source, force, forceCached, timeout);
        var r := viz.GetDfPayload(Some(request), writable);
        results := results + [Some(r)];
    }
    forall i | 0 <= i < |ops| && ops[i].Call? && results[i].Some? && results[i].value.Returned?
      ensures TellsTruth(source.Ask(CacheKeyOf(ops[i].request)), results[i].value.payload)
    {
      AgreeingPayloadTellsTruth(source, ops[i], results[i]);
    }
  }
}
