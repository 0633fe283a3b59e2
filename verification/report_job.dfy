/**
  The queued job that records one reported exception: it passes the global and
  the per-fingerprint rate limits, rebuilds the exception from its array form
  and hands it to the database manager. Everything the job touches is one
  `World`: the rate-limit cache, the database manager and the Notion workspace.
 */
module ReportJob {
  import opened Wrappers
  import opened Php
  import opened Throwables
  import opened Logging
  import opened Notion
  import opened PageBuilder
  import RateLimiter
  import Serializer
  import DatabaseManager

  const RateLimitedMessage: string := "Notion exception handler: Rate limited (queued job)"
  const JobFailedMessage: string := "Notion exception handler: Failed to report exception (queued job)"
  /** The error PHP raises when a call leaves out a required named argument. */
  const ArgumentCountError: string := "ArgumentCountError"

  /** The job's payload: what `report` collected before queueing. */
  datatype Job = Job(databaseId: string, exceptionData: seq<Entry>, fingerprint: string, context: seq<Entry>)

  /** The state a job reads and writes. */
  datatype World = World(store: RateLimiter.Store, manager: DatabaseManager.Manager, ws: Workspace)

  /** How a run of `handle` ended: stopped by a rate limit, thrown, or with the page recorded. */
  datatype Status = Throttled(limitType: string) | Threw(error: string) | Recorded(page: Page)

  datatype Outcome = Outcome(status: Status, world: World, logs: seq<LogEntry>)

  /** The context of the two job log records: the recorded class and message, with their defaults. */
  function ExceptionFields(job: Job): (r: seq<Entry>)
    ensures Lookup(r, StrKey("original_exception")) == Some(Field(job.exceptionData, "class", VStr(GenericClass)))
    ensures Lookup(r, StrKey("original_message")) == Some(Field(job.exceptionData, "message", VStr("")))
  {
    var cls := Field(job.exceptionData, "class", VStr(GenericClass));
    var message := Field(job.exceptionData, "message", VStr(""));
    LookupCons(Pair("original_exception", cls), [Pair("original_message", message)], StrKey("original_exception"));
    LookupCons(Pair("original_exception", cls), [Pair("original_message", message)], StrKey("original_message"));
    LookupCons(Pair("original_message", message), [], StrKey("original_message"));
    [Pair("original_exception", cls)] + [Pair("original_message", message)]
  }

  /** `logRateLimited($limitType)`: a debug record naming the class, the message and the limit that was hit. */
  function RateLimitedLog(job: Job, limitType: string): (r: LogEntry)
    ensures r.level == Debug && r.message == RateLimitedMessage
    ensures Lookup(r.context, StrKey("exception")) == Some(Field(job.exceptionData, "class", VStr(GenericClass)))
    ensures Lookup(r.context, StrKey("message")) == Some(Field(job.exceptionData, "message", VStr("")))
    ensures Lookup(r.context, StrKey("limit_type")) == Some(VStr(limitType))
  {
    var cls := Pair("exception", Field(job.exceptionData, "class", VStr(GenericClass)));
    var message := Pair("message", Field(job.exceptionData, "message", VStr("")));
    var limit := Pair("limit_type", VStr(limitType));
    LookupCons(limit, [], StrKey("limit_type"));
    LookupCons(message, [limit], StrKey("message"));
    LookupCons(message, [limit], StrKey("limit_type"));
    LookupCons(cls, [message] + [limit], StrKey("exception"));
    LookupCons(cls, [message] + [limit], StrKey("message"));
    LookupCons(cls, [message] + [limit], StrKey("limit_type"));
    LogEntry(Debug, RateLimitedMessage, [cls] + ([message] + [limit]))
  }

  /** `failed($exception)`: an error record with the failure's message, or `null` when there is none. */
  function Failed(job: Job, error: Option<string>): (r: LogEntry)
    ensures r.level == Error && r.message == JobFailedMessage
    ensures Lookup(r.context, StrKey("reporting_error")) == Some(if error.Some? then VStr(error.value) else VNull)
    ensures Lookup(r.context, StrKey("original_exception")) == Some(Field(job.exceptionData, "class", VStr(GenericClass)))
    ensures Lookup(r.context, StrKey("original_message")) == Some(Field(job.exceptionData, "message", VStr("")))
  {
    var reported := Pair("reporting_error", if error.Some? then VStr(error.value) else VNull);
    var fields := ExceptionFields(job);
    LookupCons(reported, fields, StrKey("reporting_error"));
    LookupCons(reported, fields, StrKey("original_exception"));
    LookupCons(reported, fields, StrKey("original_message"));
    LogEntry(Error, JobFailedMessage, [reported] + fields)
  }

  /** The two rate-limit checks in order; `None` when both pass. */
  function Admit(limits: RateLimiter.Config, job: Job, store: RateLimiter.Store, now: int): (r: (Option<string>, RateLimiter.Store))
    ensures var global := RateLimiter.ShouldAllowGlobal(limits, store, now);
            && (!global.allowed ==> r == (Some(RateLimiter.GlobalFingerprint), store))
            && (global.allowed ==>
                  var own := RateLimiter.ShouldAllow(limits, global.store, job.fingerprint, now);
                  r == (if own.allowed then None else Some(job.fingerprint), own.store))
  {
    var global := RateLimiter.ShouldAllowGlobal(limits, store, now);
    if !global.allowed then (Some(RateLimiter.GlobalFingerprint), global.store)
    else
      var own := RateLimiter.ShouldAllow(limits, global.store, job.fingerprint, now);
      (if own.allowed then None else Some(job.fingerprint), own.store)
  }

  /**
    `handle` as it is written. Past the rate limits and the decoding, the call
    to `recordException` leaves out the required `environment` argument, so
    PHP throws before the manager is reached.
   */
  function HandleAsWritten(job: Job, limits: RateLimiter.Config, constructible: string -> bool,
                           site: Serializer.Site, rt: Runtime, w: World): (r: Outcome)
    ensures r.world.ws == w.ws && r.world.manager == w.manager
    ensures r.world.store == Admit(limits, job, w.store, rt.now).1
    ensures r.status.Recorded? == false
  {
    var (limited, store) := Admit(limits, job, w.store, rt.now);
    if limited.Some? then
      Outcome(Throttled(limited.value), w.(store := store), [RateLimitedLog(job, limited.value)])
    else match Serializer.FromArray(job.exceptionData, constructible, site)
      case Failure(msg) => Outcome(Threw(msg), w.(store := store), [])
      case Success(_) => Outcome(Threw(ArgumentCountError), w.(store := store), [])
  }

  /**
    `handle` with the environment passed to `recordException`: global limit,
    fingerprint limit, decode, record. A throttled run logs which limit it hit
    and returns normally; a failing decode or record throws.
   */
  function Handle(job: Job, limits: RateLimiter.Config, constructible: string -> bool,
                  site: Serializer.Site, rt: Runtime, environment: string, w: World): (r: Outcome)
    ensures var (limited, store) := Admit(limits, job, w.store, rt.now);
            && r.world.store == store
            && (limited.Some? <==> r.status.Throttled?)
            && (limited.Some? ==> r == Outcome(Throttled(limited.value), w.(store := store), [RateLimitedLog(job, limited.value)]))
            && (limited.None? ==> r.logs == [])
    ensures r.status.Threw? && Serializer.FromArray(job.exceptionData, constructible, site).Failure? ==>
              r.world.ws == w.ws
    ensures r.status.Recorded? ==>
              && Serializer.FromArray(job.exceptionData, constructible, site).Success?
              && var step := DatabaseManager.RecordException(w.manager, w.ws, rt, job.databaseId,
                               Serializer.FromArray(job.exceptionData, constructible, site).value,
                               job.fingerprint, environment, job.context);
                 step.result == Success(r.status.page) && r.world.ws == step.ws && r.world.manager == step.manager
  {
    var (limited, store) := Admit(limits, job, w.store, rt.now);
    if limited.Some? then
      Outcome(Throttled(limited.value), w.(store := store), [RateLimitedLog(job, limited.value)])
    else match Serializer.FromArray(job.exceptionData, constructible, site)
      case Failure(msg) => Outcome(Threw(msg), w.(store := store), [])
      case Success(e) =>
        var step := DatabaseManager.RecordException(w.manager, w.ws, rt, job.databaseId, e, job.fingerprint, environment, job.context);
        match step.result
        case Success(page) => Outcome(Recorded(page), World(store, step.manager, step.ws), [])
        case Failure(msg) => Outcome(Threw(msg), World(store, step.manager, step.ws), [])
  }

  /**
    The job as written never reaches Notion, where the corrected job records
    the page: both runs pass the same limits and spend the same budget.
   */
  lemma AsWrittenLosesRecord(job: Job, limits: RateLimiter.Config, constructible: string -> bool,
                             site: Serializer.Site, rt: Runtime, environment: string, w: World)
    requires Admit(limits, job, w.store, rt.now).0.None?
    requires Serializer.FromArray(job.exceptionData, constructible, site).Success?
    requires DatabaseManager.RecordException(w.manager, w.ws, rt, job.databaseId,
               Serializer.FromArray(job.exceptionData, constructible, site).value,
               job.fingerprint, environment, job.context).result.Success?
    ensures var written := HandleAsWritten(job, limits, constructible, site, rt, w);
            var intended := Handle(job, limits, constructible, site, rt, environment, w);
            && written.status == Threw(ArgumentCountError)
            && intended.status.Recorded?
            && written.world.store == intended.world.store
  {
  }

  /**
    A job whose fingerprint no page records yet, once admitted and decoded,
    creates the next page of the workspace, stored under the job's
    fingerprint, and that page is the only one a later lookup of the
    fingerprint finds.
   */
  lemma HandleRecordsFresh(job: Job, limits: RateLimiter.Config, constructible: string -> bool,
                           site: Serializer.Site, rt: Runtime, environment: string, w: World)
    requires Admit(limits, job, w.store, rt.now).0.None?
    requires Serializer.FromArray(job.exceptionData, constructible, site).Success?
    requires CanonicalIds(w.ws) && DatabaseManager.Coherent(w.manager, w.ws) && job.databaseId in w.ws.databases
    requires BuildPageContent(Serializer.FromArray(job.exceptionData, constructible, site).value, rt.traceText, job.context).Success?
    requires forall p :: p in w.ws.pages ==> !Matches(DatabaseManager.ExistingQuery(w.manager, w.ws.databases[job.databaseId], job.fingerprint), p)
    ensures var r := Handle(job, limits, constructible, site, rt, environment, w);
            && r.status.Recorded?
            && r.status.page.id == |w.ws.pages|
            && r.world.ws.pages == w.ws.pages + [r.status.page]
            && FieldName(w.manager.fieldNames, "fingerprint") in r.status.page.properties
            && r.status.page.properties[FieldName(w.manager.fieldNames, "fingerprint")] == RichText(job.fingerprint)
            && forall p :: p in r.world.ws.pages ==>
                 (Matches(DatabaseManager.ExistingQuery(w.manager, w.ws.databases[job.databaseId], job.fingerprint), p) <==> p == r.status.page)
  {
    var e := Serializer.FromArray(job.exceptionData, constructible, site).value;
    DatabaseManager.RecordFresh(w.manager, w.ws, rt, job.databaseId, e, job.fingerprint, environment, job.context);
  }

  /** The global counter's reading. */
  function GlobalCount(store: RateLimiter.Store, now: int): int {
    RateLimiter.CurrentCount(store, RateLimiter.CacheKey(RateLimiter.GlobalFingerprint), now)
  }

  /**
    With the limiter on, the checks never lower the global counter, and a job
    they admit found it below the maximum and leaves it at least one higher.
   */
  lemma AdmitCounts(limits: RateLimiter.Config, job: Job, store: RateLimiter.Store, now: int)
    requires limits.enabled
    ensures GlobalCount(Admit(limits, job, store, now).1, now) >= GlobalCount(store, now)
    ensures Admit(limits, job, store, now).0.None? ==>
              && GlobalCount(store, now) < limits.maxPerMinute
              && GlobalCount(Admit(limits, job, store, now).1, now) >= GlobalCount(store, now) + 1
  {
    var key := RateLimiter.CacheKey(RateLimiter.GlobalFingerprint);
    var global := RateLimiter.ShouldAllowGlobal(limits, store, now);
    if global.allowed {
      var own := RateLimiter.ShouldAllow(limits, global.store, job.fingerprint, now);
      if RateLimiter.CacheKey(job.fingerprint) != key {
        assert (key in own.store <==> key in global.store) && (key in own.store ==> own.store[key] == global.store[key]);
      }
    }
  }

  /** The jobs of one batch handled in order within one rate-limit window; the final world and how many jobs passed the limits. */
  function HandleAll(jobs: seq<Job>, limits: RateLimiter.Config, constructible: string -> bool,
                     site: Serializer.Site, rt: Runtime, environment: string, w: World): (r: (World, nat))
    ensures r.1 <= |jobs|
    decreases |jobs|
  {
    if |jobs| == 0 then (w, 0)
    else
      var first := Handle(jobs[0], limits, constructible, site, rt, environment, w);
      var rest := HandleAll(jobs[1..], limits, constructible, site, rt, environment, first.world);
      (rest.0, rest.1 + if first.status.Throttled? then 0 else 1)
  }

  /**
    Within one window the global limit bounds the work that reaches Notion:
    no more jobs pass than the global counter had room for, and the counter
    has grown by at least that many.
   */
  lemma {:induction false} HandleAllWithinLimit(jobs: seq<Job>, limits: RateLimiter.Config, constructible: string -> bool,
                                                site: Serializer.Site, rt: Runtime, environment: string, w: World)
    requires limits.enabled
    ensures var r := HandleAll(jobs, limits, constructible, site, rt, environment, w);
            && r.1 <= RateLimiter.Max(0, limits.maxPerMinute - GlobalCount(w.store, rt.now))
            && GlobalCount(r.0.store, rt.now) >= GlobalCount(w.store, rt.now) + r.1
    decreases |jobs|
  {
    if |jobs| > 0 {
      var first := Handle(jobs[0], limits, constructible, site, rt, environment, w);
      AdmitCounts(limits, jobs[0], w.store, rt.now);
      HandleAllWithinLimit(jobs[1..], limits, constructible, site, rt, environment, first.world);
    }
  }
}
