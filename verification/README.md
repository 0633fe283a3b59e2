# Notion errors handler, modelled in Dafny

This project models the core of a Laravel package that reports uncaught exceptions to a
Notion database. It covers the full path an exception takes:

- The **reporter** decides whether the exception is reported. It checks that reporting is
  enabled, that a database id is configured and that the class is not ignored.
- If so, it fingerprints the exception, collects the context and queues a job that carries
  the exception in **array form**.
- The **queued job** first passes a global rate limit, then a per-fingerprint one. Each limit
  is a fixed 60-second window counted in the cache.
- The job then rebuilds the exception and hands it to the **database manager**.
- The manager looks up the page whose fingerprint property equals the fingerprint:
  - if one exists, it raises that page's occurrence count and last-seen date;
  - if not, it creates a page. The **page builder** supplies the nine properties, and the
    title, message, stack-trace and **context** blocks.

Everything is modelled as immutable data and pure functions:

- The Notion workspace is a value, `Notion.Workspace`: the databases, a list of pages and
  the log of API calls made. Each id form Notion accepts for a database (with or without
  dashes) maps to the canonical id the API reports the database under.
- The rate-limit cache is a map from cache key to a counter with an expiry instant.
- The clock is the explicit instant `now`.
- SHA-256 is the parameter `hash`. The property that it yields 64 hex digits, and the
  property that it is collision-free, appear as hypotheses where a lemma needs them.
- Reflection is the parameter `constructible`, and `instanceof` is the parameter `isA`.
- Log records are returned as data: `Logging.LogEntry`.

One module per source class:

| module | source |
|---|---|
| `RateLimiter` | src/RateLimiter/ExceptionRateLimiter.php |
| `Normalizer`, `Fingerprint` | src/Fingerprint/FingerprintGenerator.php |
| `Serializer` | src/Serialization/ExceptionSerializer.php |
| `Notion` | src/Notion/NotionClient.php, as an abstract store |
| `ContextFormatter` | src/Notion/Content/ContextFormatter.php |
| `PageBuilder` | src/Notion/Content/PageBuilder.php |
| `DatabaseManager` | src/Notion/DatabaseManager.php |
| `ReportJob` | src/Jobs/ReportExceptionJob.php |
| `Reporter` | src/ExceptionReporter.php |

Supporting modules:

- `Wrappers`: `Option` and `Result`.
- `Php`: PHP values, ordered arrays and the runtime string functions.
- `Throwables`: the exception datatype.
- `Logging`: log records.

## Model

| member | source | states |
|---|---|---|
| RateLimiter.CacheKeyInjective | src/RateLimiter/ExceptionRateLimiter.php:96-99 | Two fingerprints whose cache keys are equal are the same fingerprint, so fingerprints never share a counter. |
| RateLimiter.CurrentCount | src/RateLimiter/ExceptionRateLimiter.php:73-79 | A live counter reads as its count. An expired or absent counter reads as 0. |
| RateLimiter.Increment | src/RateLimiter/ExceptionRateLimiter.php:84-91 | The count goes up by exactly one. A new counter starts at 1 and expires 60 seconds from now. An existing counter keeps its expiry. No other key changes. |
| RateLimiter.ShouldAllow | src/RateLimiter/ExceptionRateLimiter.php:29-45 | When disabled: always allowed, and the cache is untouched. When enabled: allowed iff the current count is below the maximum. An allowed check raises the count by one; a refused check leaves the cache untouched. Only the fingerprint's own key can change. |
| RateLimiter.ShouldAllowGlobal | src/RateLimiter/ExceptionRateLimiter.php:52-68 | The same check as `ShouldAllow`, applied to the counter of the fingerprint "global". Only that key can change. |
| RateLimiter.CheckKeepsWithinLimit | src/RateLimiter/ExceptionRateLimiter.php:29-45 | If no live counter exceeds the maximum before a check, none exceeds it after. |
| RateLimiter.WithinLimitLater | src/RateLimiter/ExceptionRateLimiter.php:84-91 | Counters only expire as time passes, so the bound still holds at any later instant. |
| RateLimiter.RepeatCounts | src/RateLimiter/ExceptionRateLimiter.php:29-45 | Of n checks from count c, the i-th is allowed iff c + i < max. The counter ends at min(max, c + n), or stays at c if c was already at the limit. |
| RateLimiter.FirstNAllowedThenDenied | src/RateLimiter/ExceptionRateLimiter.php:29-45 | From an empty cache, with maximum N, the first N checks pass and check N+1 is refused. |
| RateLimiter.RepeatIndependent | src/RateLimiter/ExceptionRateLimiter.php:29-45 | Checks on one fingerprint never change another fingerprint's count. |
| RateLimiter.RemainingAttempts | src/RateLimiter/ExceptionRateLimiter.php:104-114 | Disabled: `PHP_INT_MAX`. Enabled: exactly max(0, max − count) for the live count, and positive iff the next check would be allowed. |
| RateLimiter.RemainingAfterChecks | src/RateLimiter/ExceptionRateLimiter.php:104-114 | After k checks from an empty cache, the remaining quota is max(0, N − k). |
| RateLimiter.Clear | src/RateLimiter/ExceptionRateLimiter.php:119-123 | Removes exactly that fingerprint's counter and changes nothing else. |
| RateLimiter.ClearThenAllowed | src/RateLimiter/ExceptionRateLimiter.php:119-123 | After `clear`, the next check on that fingerprint passes whenever the maximum is at least 1. |
| RateLimiter.ClearAll | src/RateLimiter/ExceptionRateLimiter.php:128-133 | Removes only the global counter. |
| RateLimiter.ClearAllKeepsFingerprintCounts | src/RateLimiter/ExceptionRateLimiter.php:128-133 | `clearAll` leaves the count of every fingerprint other than "global" unchanged. |
| RateLimiter.WindowExpires | src/RateLimiter/ExceptionRateLimiter.php:84-91 | Suppose a check starts a fresh window. Sixty seconds later the fingerprint's count is 0 again. |
| Normalizer.Normalize | src/Fingerprint/FingerprintGenerator.php:56-73 | A message with no digit, `-` or `@` comes out of the five replacements unchanged. |
| Normalizer.NormalizeIdentity | src/Fingerprint/FingerprintGenerator.php:59-72 | Each of the five passes, applied in order, leaves a message without trigger bytes untouched. |
| Normalizer.ScanPassIdentity | src/Fingerprint/FingerprintGenerator.php:72 | A global replacement whose pattern matches at no position returns the subject unchanged. |
| Normalizer.IdPassIdentity | src/Fingerprint/FingerprintGenerator.php:63 | The `\b\d{5,}\b` pass changes nothing in a string without digits. |
| Normalizer.UuidPassSplit | src/Fingerprint/FingerprintGenerator.php:61 | Split the subject just after a byte that cannot occur in a UUID. Then the UUID pass distributes over the split. |
| Normalizer.UuidPassAtUuid | src/Fingerprint/FingerprintGenerator.php:61 | A UUID at the front becomes `{uuid}`, in upper or lower case, and the rest is processed on its own. |
| Normalizer.UuidVariantsNormalizeAlike | src/Fingerprint/FingerprintGenerator.php:56-73 | Two messages that differ only in one UUID normalise to the same text. This requires that the UUID is not glued to further UUID bytes on its left. |
| Fingerprint.Generate | src/Fingerprint/FingerprintGenerator.php:22-32 | If the hash yields 64 lower-case hex digits, so does the fingerprint. |
| Fingerprint.GenerateShort | src/Fingerprint/FingerprintGenerator.php:37-40 | A prefix of the fingerprint, at most 16 bytes long. It is exactly 16 hex digits when the fingerprint is a digest. |
| Fingerprint.CreateFingerprintData | src/Fingerprint/FingerprintGenerator.php:80-90 | The six fields: the fingerprint, its short form (a prefix of the fingerprint), and the class, raw message, file and line of the exception. |
| Fingerprint.Join4Injective | src/Fingerprint/FingerprintGenerator.php:31 | Four fields joined with the separator byte split back uniquely, provided the first, third and fourth fields do not contain that byte. |
| Fingerprint.HashInputDeterminesComponents | src/Fingerprint/FingerprintGenerator.php:24-31 | Equal hashed texts mean the same class, file and line, and the same normalised message. |
| Fingerprint.FingerprintsEqualIffComponentsEqual | src/Fingerprint/FingerprintGenerator.php:22-32 | With a collision-free hash, two exceptions share a fingerprint iff they agree on class, file, line and normalised message. Both directions are proved. |
| Fingerprint.UuidVariantsShareFingerprint | src/Fingerprint/FingerprintGenerator.php:22-32 | Exceptions that differ only in one UUID in the message share a fingerprint. |
| Serializer.SanitizeArg | src/Serialization/ExceptionSerializer.php:115-127 | The result holds no object and no open resource at any depth. It is fully primitive iff the argument holds no closed resource:<br>- an object becomes its class name;<br>- an open resource becomes `[resource]`;<br>- a closed resource, for which `is_resource` is false, is kept;<br>- an array keeps its keys and is sanitised element-wise;<br>- a primitive is kept. |
| Serializer.SanitizeArgs | src/Serialization/ExceptionSerializer.php:113-128 | Same length and same keys, with each value sanitised. No object or open resource remains, and the list is primitive iff no argument holds a closed resource. A list with neither objects nor open resources is returned unchanged. |
| Serializer.ClosedResourceSurvives | src/Serialization/ExceptionSerializer.php:115-127 | A closed resource among the arguments comes through sanitising unchanged, so the result is not primitive. |
| Serializer.SanitizeIdempotent | src/Serialization/ExceptionSerializer.php:113-128 | Sanitising twice is sanitising once. |
| Serializer.EncodeFrame | src/Serialization/ExceptionSerializer.php:27-36 | Every frame key reads back the frame's value, or `null` when the frame lacks it. The arguments are sanitised. The record holds no object or open resource, and is primitive iff the arguments hold no closed resource. |
| Serializer.EncodeTrace | src/Serialization/ExceptionSerializer.php:27-36 | One encoded frame per trace frame, under keys 0..n−1, in order. No object or open resource remains, and the list is primitive when no argument holds a closed resource. |
| Serializer.ToArray | src/Serialization/ExceptionSerializer.php:24-53 | The array form holds no object and no open resource, and is primitive throughout when no trace argument holds a closed resource. It has a `previous` key iff the exception has a previous one, and that key holds the previous one's array form. |
| Serializer.ToArrayFields | src/Serialization/ExceptionSerializer.php:38-45 | class, message, code, file, line and trace each read back the exception's own value. |
| Serializer.AppendPrevious | src/Serialization/ExceptionSerializer.php:47-50 | Adding `previous` keeps every existing key's value, and keeps the record free of objects and resources (or of objects and open resources) when the added value is. |
| Serializer.DecodeCode | src/Serialization/ExceptionSerializer.php:65 | The code is the stored integer, the value of a stored integer string (surrounding whitespace allowed, as in PHP 8), or 0. |
| Serializer.DecodeIntCode | src/Serialization/ExceptionSerializer.php:65 | A stored integer code decodes unchanged. |
| Serializer.DecodeStringCode | src/Serialization/ExceptionSerializer.php:65 | A numeric string code decodes to its value, ignoring the whitespace around it. |
| Serializer.DecodePaddedCode | src/Serialization/ExceptionSerializer.php:65 | An integer string padded with whitespace on either side, such as `" 12"`, decodes to the integer. |
| Serializer.DecodeOtherCode | src/Serialization/ExceptionSerializer.php:65 | A string code that `is_numeric` rejects decodes to 0. |
| Serializer.FromArray | src/Serialization/ExceptionSerializer.php:61-105 | Fails iff the class, message or file is not a string, or the line is not an integer yet compares above zero. Otherwise:<br>- the class is kept when it is constructible, else `Exception`;<br>- the message and code are the stored ones;<br>- the file is replaced only when non-empty;<br>- the line is replaced only when it is a positive integer, and any other line is ignored;<br>- there is no previous exception. |
| Serializer.DecodeRecorded | src/Serialization/ExceptionSerializer.php:61-105 | An array with well-typed fields decodes to exactly those fields. |
| Serializer.DecodeOtherLine | src/Serialization/ExceptionSerializer.php:94-102 | A recorded line that is not an integer decodes iff it does not compare above zero, and then the natural line is kept. |
| Serializer.LineComparisons | src/Serialization/ExceptionSerializer.php:94 | Under PHP 8 comparison, `"0"`, `"-3"`, `""` and `false` do not compare above zero, while `"abc"`, `" 7"` and `true` do. |
| Serializer.RoundTrip | src/Serialization/ExceptionSerializer.php:24-105 | Decoding the array form always succeeds. It keeps the message and code, the class if constructible, the non-empty file and the positive line. |
| Serializer.DecodeDefaults | src/Serialization/ExceptionSerializer.php:63-67 | An empty array decodes to `Exception` with an empty message, code 0 and the natural file and line. |
| Notion.FindDatabase | src/Notion/NotionClient.php:25-28 | Succeeds iff the database exists under the given id form. Returns the database under its canonical id, whatever form was asked for. Logs the call. |
| Notion.Filter | src/Notion/NotionClient.php:33-36 | Exactly the pages that satisfy the filter. |
| Notion.QueryDatabase | src/Notion/NotionClient.php:33-36 | At most `pageSize` pages, all stored and all matching. With a positive page size, the result is empty iff no stored page matches. |
| Notion.CreatePage | src/Notion/NotionClient.php:44-47 | Succeeds iff the parent database exists. The page gets the next id, is filed under the database's canonical id, and is appended with the draft's properties and the content. Ids stay positional. |
| Notion.UpdatePage | src/Notion/NotionClient.php:52-55 | Succeeds iff the page exists. Replaces its properties, keeps its content and changes no other page. |
| ContextFormatter.BulletText | src/Notion/Content/ContextFormatter.php:41 | The text is `label: value` exactly when the value can be interpolated. |
| ContextFormatter.FormatItems | src/Notion/Content/ContextFormatter.php:39-42 | Succeeds iff every item interpolates. Gives one bullet per item, in order, labelled by its humanised key. |
| ContextFormatter.FormatCategory | src/Notion/Content/ContextFormatter.php:28-47 | An empty array gives nothing, whatever its key. Otherwise an integer category name is a type error, a non-empty array gives a heading followed by its items, and a scalar gives one bullet. |
| ContextFormatter.EmptyCategorySkipped | src/Notion/Content/ContextFormatter.php:29-33 | A context holding only an empty array formats to no blocks, even under an integer key. |
| ContextFormatter.FormatSucceedsIff | src/Notion/Content/ContextFormatter.php:20-51 | Formatting succeeds iff every category formats. Otherwise the error is that of a failing category. |
| ContextFormatter.FormatSize | src/Notion/Content/ContextFormatter.php:28-48 | The block count is the sum of the categories' heading-plus-item counts. |
| ContextFormatter.FormatHeadings | src/Notion/Content/ContextFormatter.php:29-36 | There is one heading per non-empty array category and no other heading. |
| ContextFormatter.FormatAppend | src/Notion/Content/ContextFormatter.php:28-50 | Formatting a concatenation gives the concatenation of the formatted parts. |
| PageBuilder.FieldName | src/Notion/Content/PageBuilder.php:194-209 | Uses the configured name, else the default name of the nine known keys, else the key humanised. |
| PageBuilder.ManagerLookupsAgree | src/Notion/DatabaseManager.php:61 | The manager's fingerprint and occurrences lookups agree with the names the builder writes. |
| PageBuilder.AfterLastBackslash | src/Notion/Content/PageBuilder.php:142-148 | Returns a suffix with no `\`, preceded by a `\` unless it is the whole name. |
| PageBuilder.ShortClassName | src/Notion/Content/PageBuilder.php:142-148 | A suffix of the class name. When it differs from the whole name, it is a non-falsy segment without `\`. |
| PageBuilder.ShortNameOfNamespaced | src/Notion/Content/PageBuilder.php:142-148 | `Ns\Name` is shown as `Name`. |
| PageBuilder.ShortNameOfGlobal | src/Notion/Content/PageBuilder.php:142-148 | A class outside any namespace is shown in full. |
| PageBuilder.TitleMessage | src/Notion/Content/PageBuilder.php:127-131 | At most 100 bytes: unchanged when it fits, else the first 97 bytes followed by `...`. Falsy iff the message is. |
| PageBuilder.CreateTitle | src/Notion/Content/PageBuilder.php:122-137 | Starts with the short class name. It is just that name iff the message is falsy; otherwise `": "` and the cut message follow. |
| PageBuilder.TruncateFile | src/Notion/Content/PageBuilder.php:153-173 | At most 200 bytes. The path without the base path when that fits, else `...` followed by its last 197 bytes. |
| PageBuilder.TruncateFileUnderBase | src/Notion/Content/PageBuilder.php:155-162 | A file under the base path is shown relative to it. |
| PageBuilder.TruncateFileIdempotent | src/Notion/Content/PageBuilder.php:153-173 | Truncating twice is truncating once. |
| PageBuilder.StackTraceBlock | src/Notion/Content/PageBuilder.php:178-189 | A code block of at most 2000 bytes: the trace when it fits, else its first 1950 bytes and the truncation notice. |
| PageBuilder.Assign | src/Notion/Content/PageBuilder.php:56-65 | The properties are the old names plus the names assigned. |
| PageBuilder.AssignLastWins | src/Notion/Content/PageBuilder.php:56-65 | A name ends with the value of its last assignment. |
| PageBuilder.AssignUntouched | src/Notion/Content/PageBuilder.php:56-65 | A name that is never assigned keeps its value. |
| PageBuilder.NewPageValues | src/Notion/Content/PageBuilder.php:56-65 | Nine values. Occurrences is 1 and the fingerprint is the rich text of the fingerprint. |
| PageBuilder.FieldNames | src/Notion/Content/PageBuilder.php:57-65 | The name of each of the nine keys, in order. |
| PageBuilder.DefaultNames | src/Notion/Content/PageBuilder.php:196-206 | Without configuration, the names are the nine documented defaults. |
| PageBuilder.DefaultNamesDistinct | src/Notion/Content/PageBuilder.php:196-206 | The default names are pairwise different. |
| PageBuilder.AddProperties | src/Notion/Content/PageBuilder.php:56-65 | Exactly the given names. The last name holds its value, and so does every name not overridden later. |
| PageBuilder.BuildNewPage | src/Notion/Content/PageBuilder.php:45-68 | A draft in the database with exactly the nine named properties. The fingerprint, written last, always reads back. |
| PageBuilder.NewPageCountsOne | src/Notion/Content/PageBuilder.php:45-68 | With distinct names, a new page has one occurrence. |
| PageBuilder.NewPageFields | src/Notion/Content/PageBuilder.php:45-68 | With distinct names, every property holds its own value: title, both dates, one occurrence, environment, class, file, line and fingerprint. |
| PageBuilder.NewPageDates | src/Notion/Content/PageBuilder.php:51-59 | With distinct names, the title property holds the built title, and first-seen and last-seen hold the same instant `now`. |
| PageBuilder.NewPageDetails | src/Notion/Content/PageBuilder.php:61-64 | With distinct names: the environment is a select, the class is the full class name, the file is the shortened path and the line is a number. |
| PageBuilder.UpdatePageOccurrence | src/Notion/Content/PageBuilder.php:78-85 | Sets occurrences to current + 1 and last-seen to now. Keeps every other property, the id and the content. |
| PageBuilder.BuildPageContent | src/Notion/Content/PageBuilder.php:95-117 | Succeeds iff the context formats. The result is the six header blocks, then a Context heading and the formatted context, if it is non-empty. |
| DatabaseManager.GetDatabase | src/Notion/DatabaseManager.php:124-131 | A cached handle whose id equals the requested id is returned without an API call. Otherwise one lookup is made, which yields the canonical handle; on success it is cached, and on failure the manager is unchanged. |
| DatabaseManager.GetDatabaseCached | src/Notion/DatabaseManager.php:124-131 | With a cache holding only handles the API returned: a second lookup makes no call and changes nothing iff the id is given in canonical form. In any other form, every lookup calls the API again. |
| DatabaseManager.GetDatabaseResolves | src/Notion/DatabaseManager.php:124-131 | With such a cache, looking up an existing database gives its canonical handle, caches that handle and keeps the cache coherent. |
| DatabaseManager.ClearCache | src/Notion/DatabaseManager.php:136-139 | Forgets the handle and keeps the field names. |
| DatabaseManager.ClearCacheForcesLookup | src/Notion/DatabaseManager.php:124-139 | After `clearCache`, the next lookup calls the API. |
| DatabaseManager.VerifyDatabase | src/Notion/DatabaseManager.php:146-156 | Succeeds iff `getDatabase` does. On failure the message is prefixed with the database id. |
| DatabaseManager.FindExisting | src/Notion/DatabaseManager.php:55-73 | Fails iff the database lookup fails. Searches the database under the id the lookup returned: none iff no stored page has the fingerprint there, otherwise a stored page that has it. |
| DatabaseManager.OccurrenceCount | src/Notion/DatabaseManager.php:107-119 | The page's occurrences number. It is 0 when the property is missing or is not a number. |
| DatabaseManager.UpdateThenCount | src/Notion/DatabaseManager.php:96-119 | The count read back after an update is one more than the count the update was given. |
| DatabaseManager.CreateNew | src/Notion/DatabaseManager.php:80-91 | Succeeds iff the content builds and the database exists. The new page has the next id, the database's canonical id, the built properties and the built content. |
| DatabaseManager.UpdateExisting | src/Notion/DatabaseManager.php:96-102 | Succeeds iff the page exists. Writes back the page with its count raised and last-seen set to now. |
| DatabaseManager.RecordException | src/Notion/DatabaseManager.php:36-50 | A lookup failure fails and creates nothing. A found page is updated. Otherwise a page is created. |
| DatabaseManager.CreatedPageFound | src/Notion/DatabaseManager.php:55-91 | A created page is the only page a later lookup of its fingerprint matches. |
| DatabaseManager.RecordFresh | src/Notion/DatabaseManager.php:36-50 | An unseen fingerprint creates its page at the end of the workspace under the canonical id. The canonical handle is then cached, and the page is found uniquely. |
| DatabaseManager.RecordExisting | src/Notion/DatabaseManager.php:36-50 | When a page is the only match, it is updated with its count raised by one and the page count unchanged. |
| DatabaseManager.FreshPageCountsOne | src/Notion/DatabaseManager.php:107-119 | With distinct names, a new page reads back one occurrence. |
| DatabaseManager.RecordAgain | src/Notion/DatabaseManager.php:36-50 | Re-recording the fingerprint of a page with one occurrence gives that page two occurrences and no new page. |
| DatabaseManager.RecordTwice | src/Notion/DatabaseManager.php:36-50 | Two records of an unseen fingerprint give one page that counts 2. |
| ReportJob.ExceptionFields | src/Jobs/ReportExceptionJob.php:94-95 | The recorded class and message, with the defaults `Exception` and the empty string. |
| ReportJob.RateLimitedLog | src/Jobs/ReportExceptionJob.php:77-87 | A debug record giving the class, the message and the limit that was hit. |
| ReportJob.Failed | src/Jobs/ReportExceptionJob.php:92-102 | An error record giving the failure message (null when there is none), the class and the message. |
| ReportJob.Admit | src/Jobs/ReportExceptionJob.php:50-60 | Applies the global limit first, then the fingerprint limit. Names the limit that was hit; the fingerprint is checked only after the global limit passes. |
| ReportJob.HandleAsWritten | src/Jobs/ReportExceptionJob.php:44-72 | The job as written never records: the workspace and the manager are untouched. |
| ReportJob.AsWrittenLosesRecord | src/Jobs/ReportExceptionJob.php:66-71 | When admitted and decodable, the as-written job throws `ArgumentCountError` where the corrected job records. |
| ReportJob.Handle | src/Jobs/ReportExceptionJob.php:44-72 | A throttled job logs which limit it hit and changes only the cache. A recorded page is exactly what `recordException` gives for the decoded exception. |
| ReportJob.HandleRecordsFresh | src/Jobs/ReportExceptionJob.php:44-72 | An admitted job with an unseen fingerprint creates the next page, stored under its fingerprint and found uniquely. |
| ReportJob.AdmitCounts | src/Jobs/ReportExceptionJob.php:50-54 | The global counter never drops. An admitted job found it below the maximum and raised it. |
| ReportJob.HandleAllWithinLimit | src/Jobs/ReportExceptionJob.php:50-54 | In one window, no more jobs pass than the global counter has room for, and the counter rises by at least that many. |
| Reporter.DefaultConfig | src/ExceptionReporter.php:29-32 | Enabled, no database id, nothing ignored, queue `default`. |
| Reporter.IsIgnored | src/ExceptionReporter.php:131-140 | True iff some listed class is the exception's class or an ancestor of it. |
| Reporter.IgnoredDependsOnSet | src/ExceptionReporter.php:131-140 | Only the set of ignored classes matters. |
| Reporter.IsConfigured | src/ExceptionReporter.php:182-187 | Enabled and the database id is neither null nor empty. |
| Reporter.ShouldReport | src/ExceptionReporter.php:106-126 | True iff configured and not ignored. The warning is logged iff enabled without a database id. |
| Reporter.ReportingError | src/ExceptionReporter.php:145-152 | An error record giving the failure message and the original class and message. |
| Reporter.Dispatch | src/ExceptionReporter.php:82-101 | A job on the configured queue, carrying the database id, the array form, the fingerprint and the context. The array form holds no object or open resource, and no resource at all unless a trace argument held a closed one. |
| Reporter.Report | src/ExceptionReporter.php:43-72 | Answers true iff the exception should be reported and neither collection nor queueing threw. Then exactly one job is queued; otherwise none is queued and the failure is logged. |
| Reporter.QueuedJobOfReport | src/ExceptionReporter.php:82-101 | A successful report queues one job carrying the array form, the fingerprint and the context. |
| Reporter.GetStatus | src/ExceptionReporter.php:167-177 | Fails iff collection fails. Otherwise gives: enabled; the masked id or null; the environment, or `unknown`; the number of ignored classes. |
| Reporter.StatusShowsConfigured | src/ExceptionReporter.php:167-187 | When enabled, the status shows a database id iff the reporter is configured. |
| Reporter.ReportThenHandle | src/ExceptionReporter.php:43-72 | End to end: a reported exception with an unseen fingerprint becomes the next page, under the fingerprint computed at report time. The message and code survive. |

## Left out

- NotionClient is an abstract store: network errors, API rate limits, and the `findPage` and
  `getNotion` helpers (src/Notion/NotionClient.php:60-71) are not modelled. No caller in the
  modelled classes uses those two helpers.
- Notion.FindDatabase: which id forms Notion accepts, and their canonical form, is given by
  the map `Workspace.databases`. The dash normalisation itself is not written out.
- Notion.CreatePage: Notion's content limits are not modelled. Notion refuses a rich-text
  item over 2000 characters and more than 100 child blocks in one request. The page builder
  cuts the title, the file and the stack trace, but not the message paragraph
  (src/Notion/Content/PageBuilder.php:101) or the context bullets. So where the model creates
  a page for a very long message or a large context, Notion would refuse it.
- Notion.QueryDatabase: the order in which Notion returns pages is not modelled. The query
  returns the first matching pages in workspace order, and only the page-size bound and
  membership are promised.
- The service provider (src/NotionExceptionHandlerServiceProvider.php:140-149) builds the
  reporter with named arguments it does not declare (`databaseManager`, `rateLimiter`,
  `environment`). It also leaves out the required `exceptionSerializer`
  (src/ExceptionReporter.php:25-33). Under PHP that call throws an `Error` for unknown named
  parameters. The provider, the container wiring, the configuration file, the facade and
  `Integration` are not part of this model; `Reporter.Config` takes the constructor's own
  parameters.
- Context collectors are the parameter `collected` of `Reporter.Report` and
  `Reporter.GetStatus`: a success carrying the collected array, or the error the collector
  threw.
- `Reporter.Report`: queueing is the parameter `dispatchError`. With a synchronous queue
  driver the job would run inside `dispatch`; that interleaving is not modelled.
- The `environment` that the corrected `ReportJob.Handle` passes on is a parameter. The
  job's source has no environment to pass.
- Job retries, back-off and the queue worker are left out. `ReportJob.Failed` models only
  the record `failed` writes.
- SHA-256 is the parameter `hash`. Fingerprint.Generate promises a hex digest only under the
  hypothesis that the hash produces one.
- PCRE: the five patterns are written out as scanners. The `?? $message` fallback for a
  failing `preg_replace` is not modelled, because the scanners cannot fail.
- Normalizer.Normalize: its contract states only the identity on messages without trigger
  bytes. The per-pattern behaviour is stated through the UUID lemmas, not for the id,
  timestamp, e-mail and IP passes.
- Interpolating an array gives `"Array"`. The PHP warning it raises, which Laravel's error
  handler may turn into an `ErrorException`, is not modelled.
- Floats are not modelled as PHP values. `is_numeric` covers integers and integer strings,
  with PHP 8's surrounding whitespace. Serializer.DecodeCode therefore decodes a float or
  exponent string as 0, where PHP would truncate it. Php.GreaterThanZero compares such a
  string as text, so a recorded line of `".5"` is ignored where PHP would try to store it.
- Serializer.ToArray: exception codes are integers. `PDOException` and Laravel's
  `QueryException` report string SQLSTATE codes such as `"42S02"`, which the model cannot
  represent. `fromArray` turns such a code into 0, or into its number when it is all digits,
  as with `"23000"`.
- Serializer.FromArray: a wrongly typed field that PHP goes on to use is a single decoding
  failure, and the particular `TypeError` is not distinguished. A non-integer line that
  compares above zero is taken to be rejected by `ReflectionProperty::setValue` under strict
  types, like a direct write to the integer property. A missing `code` key decodes as 0,
  without the undefined-key warning.
- Serializer.FromArray: reflection is the parameter `constructible`, which says whether the
  class exists, is a throwable and can be built from `(message, code)` without throwing.
  The rebuilt class's constructor is assumed to store that message and code unchanged, as
  `Exception`'s does; a constructor that rewrites them is not modelled. The trace of a
  rebuilt exception is the worker's own (`Serializer.Site`).
- `instanceof` is the parameter `isA` of `Reporter.IsIgnored`.
- The wall clock is the instant `now`, and `base_path()` is `Runtime.basePath`.
  `getTraceAsString()` is `Runtime.traceText`.
- The occurrence count is an unbounded integer. The overflow of `occurrences + 1` at
  `PHP_INT_MAX` is not modelled.
- Notion's `Page::create` default properties and the block and property classes' JSON shape
  are not modelled. Blocks and properties are plain datatypes.
- Logging is data, returned in `Logging.LogEntry` lists. The log channel is left out.
- `isEnabled` and `getMaxPerMinute` (src/RateLimiter/ExceptionRateLimiter.php:138-149) are
  plain getters of `RateLimiter.Config` fields.
- Concurrent workers sharing the cache are not modelled. Each check is atomic here, while in
  the source the read and the increment are separate cache calls.

## Findings

| source | as written | input that shows it | evidently intended | confidence | as-written member | corrected member |
|---|---|---|---|---|---|---|
| src/Jobs/ReportExceptionJob.php:66-71 | `handle` calls `recordException` with four named arguments. `recordException` (src/Notion/DatabaseManager.php:36-42) declares a fifth, required parameter, `environment`, so PHP throws `ArgumentCountError` on every admitted job. | Any job that passes both rate limits and decodes, for example a fresh fingerprint in an existing database. | Pass the environment, so that the exception is recorded. | not executed | ReportJob.HandleAsWritten (with ReportJob.AsWrittenLosesRecord) | ReportJob.Handle (with ReportJob.HandleRecordsFresh) |
