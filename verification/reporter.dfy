/**
  The reporter called from the application's exception handler: it decides
  whether an exception is reported, fingerprints it, collects the context and
  queues a `ReportJob` carrying the exception in array form. Reporting never
  throws: a failure is logged and `report` answers false.
 */
module Reporter {
  import opened Wrappers
  import opened Php
  import opened Throwables
  import opened Logging
  import opened Notion
  import opened PageBuilder
  import Fingerprint
  import Serializer
  import RateLimiter
  import DatabaseManager
  import ReportJob

  const DefaultQueue: string := "default"
  const NotConfiguredWarning: string := "Notion exception handler: Database ID is not configured"
  const ReportFailedMessage: string := "Notion exception handler: Failed to report exception"
  /** What the status shows in place of a configured database id. */
  const ConfiguredMask: string := "***configured***"
  const UnknownEnvironment: string := "unknown"

  /**
    The reporter's constructor arguments. The ignored classes are names; the
    class hierarchy `instanceof` consults is the parameter `isA`.
   */
  datatype Config = Config(enabled: bool, databaseId: Option<string>, ignored: seq<string>, queueName: string)

  /** A job on a named queue. */
  datatype QueuedJob = QueuedJob(queue: string, job: ReportJob.Job)

  /** The answer of a call and the log records it wrote. */
  datatype Logged<T> = Logged(value: T, logs: seq<LogEntry>)

  /** `report`: the answer, the jobs it queued and the log records it wrote. */
  datatype ReportRun = ReportRun(reported: bool, jobs: seq<QueuedJob>, logs: seq<LogEntry>)

  /** The constructor's defaults: enabled, no database, nothing ignored, the default queue. */
  function DefaultConfig(): (c: Config)
    ensures c.enabled && c.databaseId.None? && |c.ignored| == 0 && c.queueName == DefaultQueue
  {
    Config(true, None, [], DefaultQueue)
  }

  /** A database id that is neither `null` nor empty. */
  predicate HasDatabaseId(config: Config) {
    config.databaseId.Some? && config.databaseId.value != ""
  }

  /** `isIgnored`: some listed class is the exception's class or one of its ancestors. */
  function IsIgnored(ignored: seq<string>, cls: string, isA: (string, string) -> bool): (r: bool)
    ensures r <==> exists i :: 0 <= i < |ignored| && isA(cls, ignored[i])
    decreases |ignored|
  {
    if |ignored| == 0 then false
    else if isA(cls, ignored[0]) then true
    else
      var r := IsIgnored(ignored[1..], cls, isA);
      assert forall i :: 0 < i < |ignored| ==> ignored[i] == ignored[1..][i - 1];
      r
  }

  /** `isConfigured`. */
  function IsConfigured(config: Config): (r: bool)
    ensures r <==> config.enabled && HasDatabaseId(config)
    ensures r ==> config.databaseId.Some? && |config.databaseId.value| > 0
  {
    config.enabled && config.databaseId.Some? && config.databaseId.value != ""
  }

  /**
    `shouldReport`: off when disabled; off with a warning when no database id
    is configured; off for an ignored class.
   */
  function ShouldReport(config: Config, cls: string, isA: (string, string) -> bool): (r: Logged<bool>)
    ensures r.value <==> IsConfigured(config) && !IsIgnored(config.ignored, cls, isA)
    ensures r.logs == if config.enabled && !HasDatabaseId(config) then [LogEntry(Warning, NotConfiguredWarning, [])] else []
  {
    if !config.enabled then Logged(false, [])
    else if config.databaseId.None? || config.databaseId.value == "" then
      Logged(false, [LogEntry(Warning, NotConfiguredWarning, [])])
    else if IsIgnored(config.ignored, cls, isA) then Logged(false, [])
    else Logged(true, [])
  }

  /** `logReportingError`: the failure's message with the original exception's class and message. */
  function ReportingError(error: string, e: Throwable): (r: LogEntry)
    ensures r.level == Error && r.message == ReportFailedMessage
    ensures Lookup(r.context, StrKey("reporting_error")) == Some(VStr(error))
    ensures Lookup(r.context, StrKey("original_exception")) == Some(VStr(e.cls))
    ensures Lookup(r.context, StrKey("original_message")) == Some(VStr(e.message))
  {
    var reported := Pair("reporting_error", VStr(error));
    var cls := Pair("original_exception", VStr(e.cls));
    var message := Pair("original_message", VStr(e.message));
    LookupCons(message, [], StrKey("original_message"));
    LookupCons(cls, [message], StrKey("original_exception"));
    LookupCons(cls, [message], StrKey("original_message"));
    LookupCons(reported, [cls] + [message], StrKey("reporting_error"));
    LookupCons(reported, [cls] + [message], StrKey("original_exception"));
    LookupCons(reported, [cls] + [message], StrKey("original_message"));
    LogEntry(Error, ReportFailedMessage, [reported] + ([cls] + [message]))
  }

  /** `dispatchToQueue`: the job carrying the exception in array form, on the configured queue. */
  function Dispatch(config: Config, databaseId: string, e: Throwable, fingerprint: string, context: seq<Entry>): (r: QueuedJob)
    ensures r.queue == config.queueName
    ensures r.job.databaseId == databaseId && r.job.fingerprint == fingerprint && r.job.context == context
    ensures Serializer.SerializableEntries(r.job.exceptionData)
    ensures Serializer.NoClosedArgs(e) ==> Serializer.PrimitiveEntries(r.job.exceptionData)
    ensures r.job.exceptionData == Serializer.ToArray(e)
  {
    QueuedJob(config.queueName, ReportJob.Job(databaseId, Serializer.ToArray(e), fingerprint, context))
  }

  /**
    `report`. Context collection and queueing are the steps that can throw:
    `collected` is what the collector returned or threw, `dispatchError` the
    error queueing raised, if any. The answer is true exactly when the
    exception should be reported and neither step threw; then exactly one job
    is queued. A thrown step is logged and answered with false.
   */
  function Report(config: Config, e: Throwable, isA: (string, string) -> bool, hash: string -> string,
                  collected: Result<seq<Entry>>, dispatchError: Option<string>): (r: ReportRun)
    ensures var gate := ShouldReport(config, e.cls, isA);
            && (r.reported <==> gate.value && collected.Success? && dispatchError.None?)
            && (!gate.value ==> r == ReportRun(false, [], gate.logs))
            && (gate.value && collected.Failure? ==> r == ReportRun(false, [], [ReportingError(collected.error, e)]))
            && (gate.value && collected.Success? && dispatchError.Some? ==>
                  r == ReportRun(false, [], [ReportingError(dispatchError.value, e)]))
    ensures r.reported ==>
              && config.databaseId.Some?
              && r.jobs == [Dispatch(config, config.databaseId.value, e, Fingerprint.Generate(hash, e), collected.value)]
              && r.logs == []
    ensures !r.reported ==> r.jobs == []
  {
    var gate := ShouldReport(config, e.cls, isA);
    if !gate.value then ReportRun(false, [], gate.logs)
    else
      var fingerprint := Fingerprint.Generate(hash, e);
      match collected
      case Failure(error) => ReportRun(false, [], [ReportingError(error, e)])
      case Success(context) =>
        if dispatchError.Some? then ReportRun(false, [], [ReportingError(dispatchError.value, e)])
        else ReportRun(true, [Dispatch(config, config.databaseId.value, e, fingerprint, context)], [])
  }

  /**
    `getStatus`: whether reporting is on, the database id masked (or `null`),
    the collected environment (default "unknown") and how many classes are
    ignored. The collector may throw; so does the status then.
   */
  function GetStatus(config: Config, collected: Result<seq<Entry>>): (r: Result<seq<Entry>>)
    ensures r.Success? <==> collected.Success?
    ensures r.Success? ==>
              && Lookup(r.value, StrKey("enabled")) == Some(VBool(config.enabled))
              && Lookup(r.value, StrKey("database_id")) == Some(if HasDatabaseId(config) then VStr(ConfiguredMask) else VNull)
              && Lookup(r.value, StrKey("environment")) == Some(Field(collected.value, "environment", VStr(UnknownEnvironment)))
              && Lookup(r.value, StrKey("ignored_exceptions_count")) == Some(VInt(|config.ignored|))
  {
    match collected
    case Failure(error) => Failure(error)
    case Success(context) =>
      var enabled := Pair("enabled", VBool(config.enabled));
      var database := Pair("database_id", if HasDatabaseId(config) then VStr(ConfiguredMask) else VNull);
      var environment := Pair("environment", Field(context, "environment", VStr(UnknownEnvironment)));
      var count := Pair("ignored_exceptions_count", VInt(|config.ignored|));
      StatusLookups(enabled, database, environment, count);
      Success([enabled] + ([database] + ([environment] + [count])))
  }

  /** Lookups in a four-entry array whose keys are the four status keys. */
  lemma StatusLookups(enabled: Entry, database: Entry, environment: Entry, count: Entry)
    requires enabled.key == StrKey("enabled") && database.key == StrKey("database_id")
    requires environment.key == StrKey("environment") && count.key == StrKey("ignored_exceptions_count")
    ensures var status := [enabled] + ([database] + ([environment] + [count]));
            && Lookup(status, StrKey("enabled")) == Some(enabled.value)
            && Lookup(status, StrKey("database_id")) == Some(database.value)
            && Lookup(status, StrKey("environment")) == Some(environment.value)
            && Lookup(status, StrKey("ignored_exceptions_count")) == Some(count.value)
  {
    LookupCons(enabled, [database] + ([environment] + [count]), enabled.key);
    LookupCons(enabled, [database] + ([environment] + [count]), database.key);
    LookupCons(enabled, [database] + ([environment] + [count]), environment.key);
    LookupCons(enabled, [database] + ([environment] + [count]), count.key);
    LookupCons(database, [environment] + [count], database.key);
    LookupCons(database, [environment] + [count], environment.key);
    LookupCons(database, [environment] + [count], count.key);
    LookupCons(environment, [count], environment.key);
    LookupCons(environment, [count], count.key);
    LookupCons(count, [], count.key);
  }

  /** Only the set of ignored classes matters, not their order or repetition. */
  lemma IgnoredDependsOnSet(a: seq<string>, b: seq<string>, cls: string, isA: (string, string) -> bool)
    requires forall c :: c in a <==> c in b
    ensures IsIgnored(a, cls, isA) == IsIgnored(b, cls, isA)
  {
    if IsIgnored(a, cls, isA) {
      var i :| 0 <= i < |a| && isA(cls, a[i]);
      assert a[i] in b;
    }
    if IsIgnored(b, cls, isA) {
      var i :| 0 <= i < |b| && isA(cls, b[i]);
      assert b[i] in a;
    }
  }

  /** With reporting on, the status shows a database id exactly when the reporter is configured. */
  lemma StatusShowsConfigured(config: Config, collected: Result<seq<Entry>>)
    requires config.enabled && collected.Success?
    ensures Lookup(GetStatus(config, collected).value, StrKey("database_id")) != Some(VNull) <==> IsConfigured(config)
  {
  }

  /** The job a successful report queues carries the exception's array form and fingerprint and the context. */
  lemma QueuedJobOfReport(config: Config, e: Throwable, isA: (string, string) -> bool, hash: string -> string,
                          context: seq<Entry>)
    requires Report(config, e, isA, hash, Success(context), None).reported
    ensures var jobs := Report(config, e, isA, hash, Success(context), None).jobs;
            && |jobs| == 1 && jobs[0].queue == config.queueName
            && jobs[0].job == ReportJob.Job(config.databaseId.value, Serializer.ToArray(e), Fingerprint.Generate(hash, e), context)
  {
  }

  /**
    From report to page: an exception the reporter queues, whose job passes the
    limits and whose fingerprint no page records yet, becomes the next page of
    the database, stored under the fingerprint computed at report time; the
    job carries the exception's message and code through the array form.
   */
  lemma ReportThenHandle(config: Config, e: Throwable, isA: (string, string) -> bool, hash: string -> string,
                         context: seq<Entry>, limits: RateLimiter.Config, constructible: string -> bool,
                         site: Serializer.Site, rt: Runtime, environment: string, w: ReportJob.World)
    requires Report(config, e, isA, hash, Success(context), None).reported
    requires var job := Report(config, e, isA, hash, Success(context), None).jobs[0].job;
             && ReportJob.Admit(limits, job, w.store, rt.now).0.None?
             && CanonicalIds(w.ws) && DatabaseManager.Coherent(w.manager, w.ws) && job.databaseId in w.ws.databases
             && Serializer.FromArray(job.exceptionData, constructible, site).Success?
             && BuildPageContent(Serializer.FromArray(job.exceptionData, constructible, site).value, rt.traceText, context).Success?
             && forall p :: p in w.ws.pages ==>
                  !Matches(DatabaseManager.ExistingQuery(w.manager, w.ws.databases[job.databaseId], Fingerprint.Generate(hash, e)), p)
    ensures var job := Report(config, e, isA, hash, Success(context), None).jobs[0].job;
            var decoded := Serializer.FromArray(job.exceptionData, constructible, site);
            var r := ReportJob.Handle(job, limits, constructible, site, rt, environment, w);
            && decoded.Success? && decoded.value.message == e.message && decoded.value.code == e.code
            && r.status.Recorded?
            && r.status.page.id == |w.ws.pages|
            && FieldName(w.manager.fieldNames, "fingerprint") in r.status.page.properties
            && r.status.page.properties[FieldName(w.manager.fieldNames, "fingerprint")] == RichText(Fingerprint.Generate(hash, e))
  {
    var job := Report(config, e, isA, hash, Success(context), None).jobs[0].job;
    assert job.exceptionData == Serializer.ToArray(e) && job.fingerprint == Fingerprint.Generate(hash, e) by {
      QueuedJobOfReport(config, e, isA, hash, context);
    }
    Serializer.RoundTrip(e, constructible, site);
    ReportJob.HandleRecordsFresh(job, limits, constructible, site, rt, environment, w);
  }
}
