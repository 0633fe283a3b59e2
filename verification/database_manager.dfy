/**
  The database manager: finds the page already recording an exception's
  fingerprint and bumps its occurrence count, or creates a new page. The
  database handle is cached between calls.
 */
module DatabaseManager {
  import opened Wrappers
  import opened Php
  import opened Throwables
  import opened Notion
  import opened PageBuilder
  import ContextFormatter

  /** The existing-page query asks for one page. */
  const QueryPageSize: nat := 1

  /** The configured property names and the cached database handle. */
  datatype Manager = Manager(fieldNames: map<string, string>, cache: Option<Database>)

  /** The outcome of a manager operation: its value or error, the manager and the workspace afterwards. */
  datatype Step<T> = Step(result: Result<T>, manager: Manager, ws: Workspace)

  /**
    `getDatabase`: the cached handle when its id is `databaseId`, else a fresh
    lookup that replaces it. The handle carries the id the API reports, so
    the cache answers only when `databaseId` is given in canonical form.
   */
  function GetDatabase(m: Manager, ws: Workspace, databaseId: string): (r: Step<Database>)
    ensures m.cache == Some(Database(databaseId)) ==> r == Step(Success(Database(databaseId)), m, ws)
    ensures m.cache != Some(Database(databaseId)) ==>
              && r.ws == ws.(calls := ws.calls + [FindDatabaseCall(databaseId)])
              && (r.result.Success? <==> databaseId in ws.databases)
              && (r.result.Success? ==> r.result.value == Database(ws.databases[databaseId]))
    ensures r.result.Success? ==> r.manager == m.(cache := Some(r.result.value))
    ensures r.result.Failure? ==> r.manager == m
  {
    if m.cache.None? || m.cache.value.id != databaseId then
      var reply := FindDatabase(ws, databaseId);
      match reply.result
      case Success(db) => Step(Success(db), m.(cache := Some(db)), reply.ws)
      case Failure(msg) => Step(Failure(msg), m, reply.ws)
    else
      Step(Success(m.cache.value), m, ws)
  }

  /** The cached handle, if any, came from the API: its id is canonical. */
  ghost predicate Coherent(m: Manager, ws: Workspace) {
    m.cache.Some? ==> m.cache.value.id in ws.databases && ws.databases[m.cache.value.id] == m.cache.value.id
  }

  /**
    A second lookup of the same database makes no API call exactly when the
    id is given in its canonical form; any other form is looked up again
    every time.
   */
  lemma GetDatabaseCached(m: Manager, ws: Workspace, databaseId: string)
    requires databaseId in ws.databases && Coherent(m, ws)
    ensures var first := GetDatabase(m, ws, databaseId);
            var second := GetDatabase(first.manager, first.ws, databaseId);
            && (ws.databases[databaseId] == databaseId ==> second == Step(first.result, first.manager, first.ws))
            && (ws.databases[databaseId] != databaseId ==> second.ws.calls == first.ws.calls + [FindDatabaseCall(databaseId)])
  {
  }

  /** With a coherent cache a lookup yields the canonical handle and keeps the cache coherent. */
  lemma GetDatabaseResolves(m: Manager, ws: Workspace, databaseId: string)
    requires CanonicalIds(ws) && Coherent(m, ws) && databaseId in ws.databases
    ensures var r := GetDatabase(m, ws, databaseId);
            && r.result == Success(Database(ws.databases[databaseId]))
            && r.manager == m.(cache := Some(Database(ws.databases[databaseId])))
            && r.ws.pages == ws.pages && r.ws.databases == ws.databases
            && Coherent(r.manager, r.ws)
  {
  }

  /** `clearCache`: the next lookup goes to the API. */
  function ClearCache(m: Manager): (r: Manager)
    ensures r.fieldNames == m.fieldNames && r.cache.None?
  {
    m.(cache := None)
  }

  lemma ClearCacheForcesLookup(m: Manager, ws: Workspace, databaseId: string)
    ensures GetDatabase(ClearCache(m), ws, databaseId).ws.calls == ws.calls + [FindDatabaseCall(databaseId)]
  {
  }

  /** `verifyDatabase`: `getDatabase`, its failure reported with the database id. */
  function VerifyDatabase(m: Manager, ws: Workspace, databaseId: string): (r: Step<Database>)
    ensures r.result.Success? <==> GetDatabase(m, ws, databaseId).result.Success?
    ensures r.result.Failure? ==>
              r.result.error == "Unable to access Notion database '" + databaseId + "': " + GetDatabase(m, ws, databaseId).result.error
    ensures r.manager == GetDatabase(m, ws, databaseId).manager && r.ws == GetDatabase(m, ws, databaseId).ws
  {
    var step := GetDatabase(m, ws, databaseId);
    match step.result
    case Success(_) => step
    case Failure(msg) => step.(result := Failure("Unable to access Notion database '" + databaseId + "': " + msg))
  }

  /** The query for the page recording `fingerprint` in the database with id `database`. */
  function ExistingQuery(m: Manager, database: string, fingerprint: string): Query {
    Query(database, ConfiguredOr(m.fieldNames, "fingerprint", "Fingerprint"), fingerprint, QueryPageSize)
  }

  /**
    `findExistingException`: the first page of the database, under the id
    the lookup returned, whose fingerprint property equals `fingerprint`.
   */
  function FindExisting(m: Manager, ws: Workspace, databaseId: string, fingerprint: string): (r: Step<Option<Page>>)
    ensures r.result.Success? <==> GetDatabase(m, ws, databaseId).result.Success?
    ensures r.manager == GetDatabase(m, ws, databaseId).manager
    ensures r.ws.pages == ws.pages && r.ws.databases == ws.databases
    ensures r.result.Success? ==>
              var q := ExistingQuery(m, GetDatabase(m, ws, databaseId).result.value.id, fingerprint);
              && (r.result.value.None? <==> forall p :: p in ws.pages ==> !Matches(q, p))
              && (r.result.value.Some? ==> r.result.value.value in ws.pages && Matches(q, r.result.value.value))
  {
    var db := GetDatabase(m, ws, databaseId);
    match db.result
    case Failure(msg) => Step(Failure(msg), db.manager, db.ws)
    case Success(database) =>
      var reply := QueryDatabase(db.ws, Query(database.id, ConfiguredOr(m.fieldNames, "fingerprint", "Fingerprint"), fingerprint, QueryPageSize));
      var pages := reply.result.value;
      Step(Success(if |pages| == 0 then None else Some(pages[0])), db.manager, reply.ws)
  }

  /** `getOccurrenceCount`: the page's occurrence number, 0 when it is missing, empty or not a number. */
  function OccurrenceCount(m: Manager, page: Page): (r: int)
    ensures var name := ConfiguredOr(m.fieldNames, "occurrences", "Occurrences");
            && (name in page.properties && page.properties[name].Number? && page.properties[name].number.Some? ==>
                  r == page.properties[name].number.value)
            && (!(name in page.properties && page.properties[name].Number?) ==> r == 0)
  {
    var name := ConfiguredOr(m.fieldNames, "occurrences", "Occurrences");
    if name in page.properties && page.properties[name].Number? then page.properties[name].number.GetOr(0) else 0
  }

  /** Reading the count back after `updatePageOccurrence` gives one more than the count it was given. */
  lemma UpdateThenCount(m: Manager, page: Page, current: int, now: int)
    ensures OccurrenceCount(m, UpdatePageOccurrence(m.fieldNames, page, current, now)) == current + 1
  {
    ManagerLookupsAgree(m.fieldNames);
  }

  /** `createNewException`: builds the row and the body, then creates the page. */
  function CreateNew(m: Manager, ws: Workspace, rt: Runtime, databaseId: string, e: Throwable,
                     fingerprint: string, environment: string, context: seq<Entry>): (r: Step<Page>)
    ensures r.manager == m
    ensures r.result.Success? <==> BuildPageContent(e, rt.traceText, context).Success? && databaseId in ws.databases
    ensures r.result.Success? ==>
              && r.result.value == Page(|ws.pages|, ws.databases[databaseId],
                                        BuildNewPage(m.fieldNames, rt.now, rt.basePath, databaseId, e, fingerprint, environment).properties,
                                        BuildPageContent(e, rt.traceText, context).value)
              && r.ws.pages == ws.pages + [r.result.value]
    ensures r.result.Failure? ==> r.ws.pages == ws.pages
    ensures r.ws.databases == ws.databases
  {
    var draft := BuildNewPage(m.fieldNames, rt.now, rt.basePath, databaseId, e, fingerprint, environment);
    match BuildPageContent(e, rt.traceText, context)
    case Failure(msg) => Step(Failure(msg), m, ws)
    case Success(content) =>
      var reply := CreatePage(ws, draft, content);
      Step(reply.result, m, reply.ws)
  }

  /** `updateExistingException`: writes the page back with its count bumped and last-seen set to now. */
  function UpdateExisting(m: Manager, ws: Workspace, now: int, page: Page): (r: Step<Page>)
    ensures r.manager == m
    ensures r.result.Success? <==> page.id < |ws.pages|
    ensures r.result.Success? ==>
              var updated := UpdatePageOccurrence(m.fieldNames, page, OccurrenceCount(m, page), now);
              && r.result.value == ws.pages[page.id].(properties := updated.properties)
              && |r.ws.pages| == |ws.pages|
              && r.ws.pages[page.id] == r.result.value
    ensures r.ws.databases == ws.databases
  {
    var updated := UpdatePageOccurrence(m.fieldNames, page, OccurrenceCount(m, page), now);
    var reply := UpdatePage(ws, updated);
    Step(reply.result, m, reply.ws)
  }

  /**
    `recordException` as it is declared: update the page already recording
    the fingerprint, or create one. Exactly one of the two happens.
   */
  function RecordException(m: Manager, ws: Workspace, rt: Runtime, databaseId: string, e: Throwable,
                           fingerprint: string, environment: string, context: seq<Entry>): (r: Step<Page>)
    ensures r.ws.databases == ws.databases
    ensures var found := FindExisting(m, ws, databaseId, fingerprint);
            && (found.result.Failure? ==> r.result.Failure? && r.ws.pages == ws.pages)
            && (found.result.Success? && found.result.value.Some? ==>
                  r == UpdateExisting(found.manager, found.ws, rt.now, found.result.value.value))
            && (found.result.Success? && found.result.value.None? ==>
                  r == CreateNew(found.manager, found.ws, rt, databaseId, e, fingerprint, environment, context))
  {
    var found := FindExisting(m, ws, databaseId, fingerprint);
    match found.result
    case Failure(msg) => Step(Failure(msg), found.manager, found.ws)
    case Success(existing) =>
      match existing
      case Some(page) => UpdateExisting(found.manager, found.ws, rt.now, page)
      case None => CreateNew(found.manager, found.ws, rt, databaseId, e, fingerprint, environment, context)
  }

  /** A page built from a new-page draft and filed under `database` answers that database's query for its fingerprint. */
  lemma NewPageMatches(m: Manager, now: int, basePath: Option<string>, databaseId: string, e: Throwable,
                       fingerprint: string, environment: string, id: nat, content: seq<Block>, database: string)
    ensures Matches(ExistingQuery(m, database, fingerprint),
                    Page(id, database, BuildNewPage(m.fieldNames, now, basePath, databaseId, e, fingerprint, environment).properties, content))
  {
    ManagerLookupsAgree(m.fieldNames);
  }

  /** A matching page appended to pages none of which match is the only match. */
  lemma AppendedPageFound(q: Query, pages: seq<Page>, page: Page)
    requires forall p :: p in pages ==> !Matches(q, p)
    requires Matches(q, page)
    ensures forall p :: p in pages + [page] ==> (Matches(q, p) <==> p == page)
  {
  }

  /** The page a fresh record creates is found again by its fingerprint, and only it. */
  lemma CreatedPageFound(m: Manager, ws: Workspace, rt: Runtime, databaseId: string, e: Throwable,
                         fingerprint: string, environment: string, context: seq<Entry>)
    requires databaseId in ws.databases
    requires (forall p :: p in ws.pages ==> !Matches(ExistingQuery(m, ws.databases[databaseId], fingerprint), p))
    requires CreateNew(m, ws, rt, databaseId, e, fingerprint, environment, context).result.Success?
    ensures var created := CreateNew(m, ws, rt, databaseId, e, fingerprint, environment, context);
            forall p :: p in created.ws.pages ==>
              (Matches(ExistingQuery(m, ws.databases[databaseId], fingerprint), p) <==> p == created.result.value)
  {
    var created := CreateNew(m, ws, rt, databaseId, e, fingerprint, environment, context);
    var database := ws.databases[databaseId];
    NewPageMatches(m, rt.now, rt.basePath, databaseId, e, fingerprint, environment, |ws.pages|, created.result.value.content, database);
    AppendedPageFound(ExistingQuery(m, database, fingerprint), ws.pages, created.result.value);
  }

  /**
    Recording a fingerprint no page of the database has yet creates its page
    at the end of the workspace, filed under the database's canonical id, and
    leaves the canonical handle cached.
   */
  lemma RecordFresh(m: Manager, ws: Workspace, rt: Runtime, databaseId: string, e: Throwable,
                    fingerprint: string, environment: string, context: seq<Entry>)
    requires CanonicalIds(ws) && Coherent(m, ws) && databaseId in ws.databases
    requires BuildPageContent(e, rt.traceText, context).Success?
    requires forall p :: p in ws.pages ==> !Matches(ExistingQuery(m, ws.databases[databaseId], fingerprint), p)
    ensures var r := RecordException(m, ws, rt, databaseId, e, fingerprint, environment, context);
            var database := ws.databases[databaseId];
            && r.result.Success?
            && r.result.value == Page(|ws.pages|, database,
                                      BuildNewPage(m.fieldNames, rt.now, rt.basePath, databaseId, e, fingerprint, environment).properties,
                                      BuildPageContent(e, rt.traceText, context).value)
            && r.ws.pages == ws.pages + [r.result.value]
            && r.manager == m.(cache := Some(Database(database)))
            && Coherent(r.manager, r.ws)
            && forall p :: p in r.ws.pages ==> (Matches(ExistingQuery(m, database, fingerprint), p) <==> p == r.result.value)
  {
    GetDatabaseResolves(m, ws, databaseId);
    var found := FindExisting(m, ws, databaseId, fingerprint);
    assert found.result == Success(None);
    CreatedPageFound(found.manager, found.ws, rt, databaseId, e, fingerprint, environment, context);
  }

  /** Recording a fingerprint whose page is the only match bumps that page's count by one. */
  lemma RecordExisting(m: Manager, ws: Workspace, rt: Runtime, databaseId: string, e: Throwable,
                       fingerprint: string, environment: string, context: seq<Entry>, page: Page)
    requires Valid(ws) && CanonicalIds(ws) && Coherent(m, ws) && databaseId in ws.databases
    requires page in ws.pages
    requires forall p :: p in ws.pages ==> (Matches(ExistingQuery(m, ws.databases[databaseId], fingerprint), p) <==> p == page)
    ensures var r := RecordException(m, ws, rt, databaseId, e, fingerprint, environment, context);
            && r.result.Success?
            && r.result.value.id == page.id
            && OccurrenceCount(m, r.result.value) == OccurrenceCount(m, page) + 1
            && |r.ws.pages| == |ws.pages|
  {
    GetDatabaseResolves(m, ws, databaseId);
    var found := FindExisting(m, ws, databaseId, fingerprint);
    assert found.result == Success(Some(page));
    UpdateThenCount(found.manager, page, OccurrenceCount(m, page), rt.now);
  }

  /** A fresh page carries one occurrence when the property names are distinct. */
  lemma FreshPageCountsOne(m: Manager, now: int, basePath: Option<string>, databaseId: string, e: Throwable,
                           fingerprint: string, environment: string, id: nat, content: seq<Block>)
    requires DistinctFieldNames(m.fieldNames)
    ensures OccurrenceCount(m, Page(id, databaseId,
              BuildNewPage(m.fieldNames, now, basePath, databaseId, e, fingerprint, environment).properties, content)) == 1
  {
    NewPageCountsOne(m.fieldNames, now, basePath, databaseId, e, fingerprint, environment);
    ManagerLookupsAgree(m.fieldNames);
  }

  /** The second record of a fingerprint whose fresh page is the only match, stated over the first record's outcome. */
  lemma RecordAgain(m: Manager, first: Step<Page>, rt: Runtime, databaseId: string, e: Throwable,
                    fingerprint: string, environment: string, context: seq<Entry>)
    requires Valid(first.ws) && CanonicalIds(first.ws) && Coherent(first.manager, first.ws) && databaseId in first.ws.databases
    requires first.result.Success? && first.result.value in first.ws.pages
    requires first.manager.fieldNames == m.fieldNames
    requires OccurrenceCount(m, first.result.value) == 1
    requires forall p :: p in first.ws.pages ==>
               (Matches(ExistingQuery(m, first.ws.databases[databaseId], fingerprint), p) <==> p == first.result.value)
    ensures var second := RecordException(first.manager, first.ws, rt, databaseId, e, fingerprint, environment, context);
            && second.result.Success?
            && second.result.value.id == first.result.value.id && OccurrenceCount(m, second.result.value) == 2
            && |second.ws.pages| == |first.ws.pages|
  {
    var m1 := first.manager;
    var database := first.ws.databases[databaseId];
    assert ExistingQuery(m1, database, fingerprint) == ExistingQuery(m, database, fingerprint);
    assert OccurrenceCount(m1, first.result.value) == 1;
    RecordExisting(m1, first.ws, rt, databaseId, e, fingerprint, environment, context, first.result.value);
  }

  /**
    Recording the same fingerprint twice into a database that has no page
    for it creates one page with one occurrence, then bumps that page to
    two occurrences without creating another.
   */
  lemma RecordTwice(m: Manager, ws: Workspace, rt1: Runtime, rt2: Runtime, databaseId: string,
                    e1: Throwable, e2: Throwable, fingerprint: string, environment: string,
                    context1: seq<Entry>, context2: seq<Entry>)
    requires Valid(ws) && CanonicalIds(ws) && Coherent(m, ws) && databaseId in ws.databases
    requires DistinctFieldNames(m.fieldNames)
    requires BuildPageContent(e1, rt1.traceText, context1).Success?
    requires forall p :: p in ws.pages ==> !Matches(ExistingQuery(m, ws.databases[databaseId], fingerprint), p)
    ensures var first := RecordException(m, ws, rt1, databaseId, e1, fingerprint, environment, context1);
            var second := RecordException(first.manager, first.ws, rt2, databaseId, e2, fingerprint, environment, context2);
            && first.result.Success? && second.result.Success?
            && first.result.value.id == |ws.pages| && OccurrenceCount(m, first.result.value) == 1
            && second.result.value.id == first.result.value.id && OccurrenceCount(m, second.result.value) == 2
            && |first.ws.pages| == |ws.pages| + 1 && |second.ws.pages| == |first.ws.pages|
  {
    var first := RecordException(m, ws, rt1, databaseId, e1, fingerprint, environment, context1);
    RecordFresh(m, ws, rt1, databaseId, e1, fingerprint, environment, context1);
    FreshPageCountsOne(m, rt1.now, rt1.basePath, databaseId, e1, fingerprint, environment, |ws.pages|, first.result.value.content);
    AppendKeepsValid(ws, first.ws, first.result.value);
    RecordAgain(m, first, rt2, databaseId, e2, fingerprint, environment, context2);
  }
}
