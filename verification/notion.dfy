/**
  The part of the Notion API the handler uses, as an abstract workspace:
  databases, database pages with typed properties and block content, and the
  log of API calls made against it. Network failures other than a missing
  database or page are not represented.
 */
module Notion {
  import opened Wrappers

  /** The content blocks the handler writes to a page. */
  datatype Block =
    | Heading2(text: string)
    | Heading3(text: string)
    | Paragraph(text: string)
    | Bullet(text: string)
    | Code(text: string)
    | Divider

  /** The page property kinds the handler writes; a number may be empty. */
  datatype Property =
    | Title(text: string)
    | Date(instant: int)
    | Number(number: Option<int>)
    | Select(name: string)
    | RichText(text: string)

  datatype Database = Database(id: string)

  /** A page not yet created: its parent database and its properties by name. */
  datatype Draft = Draft(database: string, properties: map<string, Property>)

  /** A stored page. Page ids are positions in the workspace's page list. */
  datatype Page = Page(id: nat, database: string, properties: map<string, Property>, content: seq<Block>)

  /** A database query: a text filter `property equals value` and a page size. */
  datatype Query = Query(database: string, property: string, value: string, pageSize: nat)

  datatype Call =
    | FindDatabaseCall(databaseId: string)
    | QueryCall(query: Query)
    | CreatePageCall(database: string)
    | UpdatePageCall(pageId: nat)

  /**
    The workspace. `databases` maps every id form the API accepts for a
    database (with or without dashes) to the canonical id the API reports it
    under; pages record their database by its canonical id.
   */
  datatype Workspace = Workspace(databases: map<string, string>, pages: seq<Page>, calls: seq<Call>)

  /** A canonical id is accepted and is its own canonical form. */
  ghost predicate CanonicalIds(ws: Workspace) {
    forall id :: id in ws.databases ==> ws.databases[id] in ws.databases && ws.databases[ws.databases[id]] == ws.databases[id]
  }

  /** Page `i` of the workspace is stored under id `i`. */
  ghost predicate Valid(ws: Workspace) {
    forall i :: 0 <= i < |ws.pages| ==> ws.pages[i].id == i
  }

  /** Appending the page numbered next keeps the numbering. */
  lemma AppendKeepsValid(ws: Workspace, after: Workspace, page: Page)
    requires Valid(ws) && page.id == |ws.pages| && after.pages == ws.pages + [page]
    ensures Valid(after)
  {
  }

  /** The result of one API call: its value or error, and the workspace afterwards. */
  datatype Reply<T> = Reply(result: Result<T>, ws: Workspace)

  /**
    `databases()->find($id)`: the database under its canonical id, which
    differs from the requested one when that was given in another form;
    fails when the workspace has no such database.
   */
  function FindDatabase(ws: Workspace, databaseId: string): (r: Reply<Database>)
    ensures r.result.Success? <==> databaseId in ws.databases
    ensures r.result.Success? ==> r.result.value.id == ws.databases[databaseId]
    ensures r.ws == ws.(calls := ws.calls + [FindDatabaseCall(databaseId)])
  {
    var ws' := ws.(calls := ws.calls + [FindDatabaseCall(databaseId)]);
    if databaseId in ws.databases then Reply(Success(Database(ws.databases[databaseId])), ws')
    else Reply(Failure("Could not find database with ID: " + databaseId), ws')
  }

  /** The page satisfies the text filter of the query. */
  predicate Matches(q: Query, p: Page) {
    && p.database == q.database
    && q.property in p.properties
    && p.properties[q.property] == RichText(q.value)
  }

  /** The pages of `pages` that satisfy `q`, in workspace order. */
  function Filter(q: Query, pages: seq<Page>): (r: seq<Page>)
    ensures |r| <= |pages|
    ensures forall p :: p in r <==> p in pages && Matches(q, p)
  {
    if |pages| == 0 then []
    else (if Matches(q, pages[0]) then [pages[0]] else []) + Filter(q, pages[1..])
  }

  /** `databases()->query($database, $query)`: at most `pageSize` matching pages. */
  function QueryDatabase(ws: Workspace, q: Query): (r: Reply<seq<Page>>)
    ensures r.result.Success?
    ensures |r.result.value| <= q.pageSize
    ensures forall p :: p in r.result.value ==> p in ws.pages && Matches(q, p)
    ensures q.pageSize > 0 ==> (r.result.value == [] <==> forall p :: p in ws.pages ==> !Matches(q, p))
    ensures r.ws == ws.(calls := ws.calls + [QueryCall(q)])
  {
    var all := Filter(q, ws.pages);
    var page := if |all| <= q.pageSize then all else all[..q.pageSize];
    assert forall p :: p in page ==> p in all;
    assert q.pageSize > 0 && |all| > 0 ==> all[0] in page;
    Reply(Success(page), ws.(calls := ws.calls + [QueryCall(q)]))
  }

  /**
    `pages()->create($page, $content)`: the new page gets the next id and is
    filed under its database's canonical id.
   */
  function CreatePage(ws: Workspace, draft: Draft, content: seq<Block>): (r: Reply<Page>)
    ensures r.result.Success? <==> draft.database in ws.databases
    ensures r.result.Success? ==>
              && r.result.value == Page(|ws.pages|, ws.databases[draft.database], draft.properties, content)
              && r.ws.pages == ws.pages + [r.result.value]
    ensures r.result.Failure? ==> r.ws.pages == ws.pages
    ensures r.ws.databases == ws.databases
    ensures r.ws.calls == ws.calls + [CreatePageCall(draft.database)]
    ensures Valid(ws) ==> Valid(r.ws)
  {
    var calls := ws.calls + [CreatePageCall(draft.database)];
    if draft.database in ws.databases then
      var page := Page(|ws.pages|, ws.databases[draft.database], draft.properties, content);
      Reply(Success(page), Workspace(ws.databases, ws.pages + [page], calls))
    else
      Reply(Failure("Could not find database with ID: " + draft.database), ws.(calls := calls))
  }

  /** `pages()->update($page)`: replaces the stored page's properties, keeping its content. */
  function UpdatePage(ws: Workspace, page: Page): (r: Reply<Page>)
    ensures r.result.Success? <==> page.id < |ws.pages|
    ensures r.result.Success? ==>
              && r.result.value == ws.pages[page.id].(properties := page.properties)
              && |r.ws.pages| == |ws.pages|
              && r.ws.pages[page.id] == r.result.value
              && forall i :: 0 <= i < |ws.pages| && i != page.id ==> r.ws.pages[i] == ws.pages[i]
    ensures r.result.Failure? ==> r.ws.pages == ws.pages
    ensures r.ws.databases == ws.databases
    ensures r.ws.calls == ws.calls + [UpdatePageCall(page.id)]
    ensures Valid(ws) ==> Valid(r.ws)
  {
    var calls := ws.calls + [UpdatePageCall(page.id)];
    if page.id < |ws.pages| then
      var updated := ws.pages[page.id].(properties := page.properties);
      Reply(Success(updated), Workspace(ws.databases, ws.pages[page.id := updated], calls))
    else
      Reply(Failure("Could not find page"), ws.(calls := calls))
  }
}
