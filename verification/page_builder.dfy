/**
  The page builder: the database row (title, dates, occurrence count,
  environment, class, file, line, fingerprint) and the body blocks (message,
  stack trace, context) of the Notion page recording an exception.
 */
module PageBuilder {
  import opened Wrappers
  import opened Php
  import opened Throwables
  import opened Notion
  import ContextFormatter

  const TitleLimit: nat := 100
  const TitleKeep: nat := 97
  const Ellipsis: string := "..."
  const FileLimit: nat := 200
  const FileKeep: nat := 197
  const TraceLimit: nat := 2000
  const TraceKeep: nat := TraceLimit - 50
  const TruncationNotice: string := "\n\n... (truncated)"
  const NoMessage: string := "No message"

  /**
    What the PHP runtime supplies while a page is built: the clock, the
    application's base path when `base_path()` is defined, and the text
    `getTraceAsString()` gives for the exception being recorded.
   */
  datatype Runtime = Runtime(now: int, basePath: Option<string>, traceText: string)

  /** The page property name used when the configuration does not rename `key`. */
  function DefaultName(key: string): Option<string> {
    if key == "title" then Some("Title")
    else if key == "first_seen" then Some("First Seen")
    else if key == "last_seen" then Some("Last Seen")
    else if key == "occurrences" then Some("Occurrences")
    else if key == "environment" then Some("Environment")
    else if key == "fingerprint" then Some("Fingerprint")
    else if key == "exception_class" then Some("Exception Class")
    else if key == "file" then Some("File")
    else if key == "line" then Some("Line")
    else None
  }

  /** The property keys a new page is given, in the order they are added. */
  const FieldKeys: seq<string> := [
    "title", "first_seen", "last_seen", "occurrences", "environment",
    "exception_class", "file", "line", "fingerprint"
  ]

  /**
    `getFieldName($key)`: the configured name, else the default, else the key
    made into a label.
   */
  function FieldName(fieldNames: map<string, string>, key: string): (r: string)
    ensures key in fieldNames ==> r == fieldNames[key]
    ensures key !in fieldNames ==> r == DefaultName(key).GetOr(Humanize(key))
  {
    if key in fieldNames then fieldNames[key]
    else DefaultName(key).GetOr(Humanize(key))
  }

  /** `getFieldNames()[$key] ?? $fallback`, the lookup the database manager makes. */
  function ConfiguredOr(fieldNames: map<string, string>, key: string, fallback: string): string {
    if key in fieldNames then fieldNames[key] else fallback
  }

  /**
    The lookups the database manager makes for the fingerprint and occurrence
    properties agree with the names the page builder writes.
   */
  lemma ManagerLookupsAgree(fieldNames: map<string, string>)
    ensures ConfiguredOr(fieldNames, "fingerprint", "Fingerprint") == FieldName(fieldNames, "fingerprint")
    ensures ConfiguredOr(fieldNames, "occurrences", "Occurrences") == FieldName(fieldNames, "occurrences")
  {
  }

  /** Where the segment of `s[..end]` after its last namespace separator starts. */
  function SegmentStart(s: string, end: nat): (k: nat)
    requires end <= |s|
    ensures k <= end
    ensures forall i :: k <= i < end ==> s[i] != '\\'
    ensures k > 0 ==> s[k - 1] == '\\'
    decreases end
  {
    if end == 0 then 0
    else if s[end - 1] == '\\' then end
    else SegmentStart(s, end - 1)
  }

  /** The part of a class name after its last namespace separator. */
  function AfterLastBackslash(s: string): (r: string)
    ensures |r| <= |s| && r == s[|s| - |r|..]
    ensures forall i :: 0 <= i < |r| ==> r[i] != '\\'
    ensures |r| < |s| ==> s[|s| - |r| - 1] == '\\'
  {
    s[SegmentStart(s, |s|)..]
  }

  /** `getShortClassName`: the last namespace segment, or the whole name when that segment is falsy. */
  function ShortClassName(cls: string): (r: string)
    ensures |r| <= |cls| && r == cls[|cls| - |r|..]
    ensures r != cls ==> !IsFalsyString(r) && forall i :: 0 <= i < |r| ==> r[i] != '\\'
  {
    var segment := AfterLastBackslash(cls);
    if IsFalsyString(segment) then cls else segment
  }

  /** The segment starts just after a separator when no separator follows it. */
  lemma {:induction false} SegmentStartAt(s: string, end: nat, k: nat)
    requires 0 < k <= end <= |s| && s[k - 1] == '\\'
    requires forall i :: k <= i < end ==> s[i] != '\\'
    ensures SegmentStart(s, end) == k
    decreases end
  {
    if end > k {
      SegmentStartAt(s, end - 1, k);
    }
  }

  /** A namespaced class is shown by its own name. */
  lemma ShortNameOfNamespaced(namespace: string, name: string)
    requires forall i :: 0 <= i < |name| ==> name[i] != '\\'
    requires !IsFalsyString(name)
    ensures ShortClassName(namespace + "\\" + name) == name
  {
    var cls := namespace + "\\" + name;
    var k := |namespace| + 1;
    assert cls[k..] == name;
    assert cls[k - 1] == '\\';
    assert forall i :: k <= i < |cls| ==> cls[i] == name[i - k];
    SegmentStartAt(cls, |cls|, k);
  }

  /** A class outside any namespace is shown in full. */
  lemma ShortNameOfGlobal(cls: string)
    requires forall i :: 0 <= i < |cls| ==> cls[i] != '\\'
    ensures ShortClassName(cls) == cls
  {
  }

  /** The message as it appears in the title: at most 100 bytes, cut to 97 and an ellipsis. */
  function TitleMessage(message: string): (r: string)
    ensures |r| <= TitleLimit
    ensures |message| <= TitleLimit ==> r == message
    ensures |message| > TitleLimit ==> |r| == TitleLimit && r[..TitleKeep] == message[..TitleKeep] && r[TitleKeep..] == Ellipsis
    ensures IsFalsyString(r) <==> IsFalsyString(message)
  {
    if |message| > TitleLimit then message[..TitleKeep] + Ellipsis else message
  }

  /** The class name, then `": "` and the message unless the message is falsy. */
  function JoinTitle(short: string, message: string): (r: string)
    ensures |short| <= |r| && r[..|short|] == short
    ensures IsFalsyString(message) <==> r == short
    ensures !IsFalsyString(message) ==> r[|short|..] == ": " + message
  {
    if IsFalsyString(message) then short
    else
      var r := short + (": " + message);
      assert r[..|short|] == short;
      assert r[|short|..] == ": " + message;
      r
  }

  /** `createTitle`: the short class name, then `": "` and the message when the message is not falsy. */
  function CreateTitle(e: Throwable): (r: string)
    ensures var short := ShortClassName(e.cls);
            && |short| <= |r| <= |short| + 2 + TitleLimit
            && r[..|short|] == short
            && (IsFalsyString(e.message) <==> r == short)
            && (!IsFalsyString(e.message) ==> r[|short|..] == ": " + TitleMessage(e.message))
  {
    var short := ShortClassName(e.cls);
    var message := TitleMessage(e.message);
    var r := JoinTitle(short, message);
    assert IsFalsyString(message) <==> IsFalsyString(e.message);
    assert |message| <= TitleLimit;
    assert r != short ==> |r| == |short| + |r[|short|..]|;
    r
  }

  /** The path with the base path and the byte after it removed, as `substr` does. */
  function StripBasePath(file: string, basePath: Option<string>): (r: string)
    ensures |r| <= |file|
  {
    match basePath
    case Some(base) =>
      if |base| <= |file| && file[..|base|] == base then
        (if |base| + 1 <= |file| then file[|base| + 1..] else "")
      else file
    case None => file
  }

  /**
    `truncateFile`: relative to the base path (when `base_path()` is defined)
    and at most 200 bytes, keeping the last 197 behind an ellipsis.
   */
  function TruncateFile(file: string, basePath: Option<string>): (r: string)
    ensures |r| <= FileLimit
    ensures var stripped := StripBasePath(file, basePath);
            && (|stripped| <= FileLimit ==> r == stripped)
            && (|stripped| > FileLimit ==> |r| == FileLimit && r[..3] == Ellipsis && r[3..] == stripped[|stripped| - FileKeep..])
  {
    var stripped := StripBasePath(file, basePath);
    if |stripped| > FileLimit then Ellipsis + stripped[|stripped| - FileKeep..] else stripped
  }

  /** A file under the base path is shown relative to it. */
  lemma TruncateFileUnderBase(base: string, relative: string)
    requires |relative| <= FileLimit
    ensures TruncateFile(base + "/" + relative, Some(base)) == relative
  {
    var file := base + "/" + relative;
    assert file[..|base|] == base;
    assert file[|base| + 1..] == relative;
  }

  /** Truncating an already truncated path (with no base path) changes nothing. */
  lemma TruncateFileIdempotent(file: string)
    ensures TruncateFile(TruncateFile(file, None), None) == TruncateFile(file, None)
  {
  }

  /** `createStackTraceBlock`: a code block of at most 2000 bytes, cut to 1950 and a notice. */
  function StackTraceBlock(trace: string): (r: Block)
    ensures r.Code? && |r.text| <= TraceLimit
    ensures |trace| <= TraceLimit ==> r.text == trace
    ensures |trace| > TraceLimit ==>
              && |r.text| == TraceKeep + |TruncationNotice|
              && r.text[..TraceKeep] == trace[..TraceKeep]
              && r.text[TraceKeep..] == TruncationNotice
  {
    if |trace| > TraceLimit then Code(trace[..TraceKeep] + TruncationNotice) else Code(trace)
  }

  /** `addProperty` applied in order: a later assignment to a name replaces an earlier one. */
  function Assign(m: map<string, Property>, assignments: seq<(string, Property)>): (r: map<string, Property>)
    ensures r.Keys == m.Keys + set i | 0 <= i < |assignments| :: assignments[i].0
    decreases |assignments|
  {
    if |assignments| == 0 then m
    else
      var r := Assign(m[assignments[0].0 := assignments[0].1], assignments[1..]);
      assert forall i :: 0 < i < |assignments| ==> assignments[i] == assignments[1..][i - 1];
      r
  }

  /** An assignment no later one overrides is the value the name ends up with. */
  lemma {:induction false} AssignLastWins(m: map<string, Property>, assignments: seq<(string, Property)>, i: nat)
    requires i < |assignments|
    requires forall j :: i < j < |assignments| ==> assignments[j].0 != assignments[i].0
    ensures Assign(m, assignments)[assignments[i].0] == assignments[i].1
    decreases |assignments|
  {
    var m' := m[assignments[0].0 := assignments[0].1];
    var rest := assignments[1..];
    if i == 0 {
      AssignUntouched(m', rest, assignments[0].0);
    } else {
      AssignLastWins(m', rest, i - 1);
    }
  }

  /** A name no assignment mentions keeps its value. */
  lemma {:induction false} AssignUntouched(m: map<string, Property>, assignments: seq<(string, Property)>, name: string)
    requires name in m
    requires forall j :: 0 <= j < |assignments| ==> assignments[j].0 != name
    ensures Assign(m, assignments)[name] == m[name]
    decreases |assignments|
  {
    if |assignments| > 0 {
      AssignUntouched(m[assignments[0].0 := assignments[0].1], assignments[1..], name);
    }
  }

  /** The values of a new page's properties, in the order of `FieldKeys`. */
  function NewPageValues(now: int, basePath: Option<string>, e: Throwable,
                         fingerprint: string, environment: string): (r: seq<Property>)
    ensures |r| == |FieldKeys| && r[3] == Number(Some(1)) && r[8] == RichText(fingerprint)
  {
    var title := Title(CreateTitle(e));
    var file := RichText(TruncateFile(e.file, basePath));
    var counters := [title, Date(now), Date(now), Number(Some(1))];
    var details := [Select(environment), RichText(e.cls), file, Number(Some(e.line)), RichText(fingerprint)];
    counters + details
  }

  /** The names a page's properties are stored under, in the order of `FieldKeys`. */
  function FieldNames(fieldNames: map<string, string>): (r: seq<string>)
    ensures |r| == |FieldKeys|
    ensures forall i :: 0 <= i < |FieldKeys| ==> r[i] == FieldName(fieldNames, FieldKeys[i])
  {
    seq(|FieldKeys|, i requires 0 <= i < |FieldKeys| => FieldName(fieldNames, FieldKeys[i]))
  }

  /** No name occurs twice in `names`. */
  ghost predicate Distinct(names: seq<string>) {
    forall i, j :: 0 <= i < j < |names| ==> names[i] != names[j]
  }

  /** Putting a name no other has in front keeps the names distinct. */
  lemma DistinctCons(name: string, names: seq<string>)
    requires name !in names && Distinct(names)
    ensures Distinct([name] + names)
  {
  }

  /** The nine property names of a new page are pairwise different. */
  ghost predicate DistinctFieldNames(fieldNames: map<string, string>) {
    Distinct(FieldNames(fieldNames))
  }

  /** The last six default names are pairwise different. */
  lemma DefaultTailDistinct()
    ensures Distinct(["Occurrences", "Environment", "Exception Class", "File", "Line", "Fingerprint"])
  {
    var n8 := ["Fingerprint"];
    var n7 := ["Line"] + n8;
    assert Distinct(n7) by { DistinctCons("Line", n8); }
    var n6 := ["File"] + n7;
    assert Distinct(n6) by { DistinctCons("File", n7); }
    var n5 := ["Exception Class"] + n6;
    assert Distinct(n5) by { DistinctCons("Exception Class", n6); }
    var n4 := ["Environment"] + n5;
    assert Distinct(n4) by { DistinctCons("Environment", n5); }
    var n3 := ["Occurrences"] + n4;
    assert Distinct(n3) by { DistinctCons("Occurrences", n4); }
    assert n3 == ["Occurrences", "Environment", "Exception Class", "File", "Line", "Fingerprint"];
  }

  /** With no renaming the default names are pairwise different. */
  lemma DefaultNamesDistinct()
    ensures DistinctFieldNames(map[])
  {
    var n3 := ["Occurrences", "Environment", "Exception Class", "File", "Line", "Fingerprint"];
    DefaultTailDistinct();
    var n2 := ["Last Seen"] + n3;
    assert Distinct(n2) by { DistinctCons("Last Seen", n3); }
    var n1 := ["First Seen"] + n2;
    assert Distinct(n1) by { DistinctCons("First Seen", n2); }
    var n0 := ["Title"] + n1;
    assert Distinct(n0) by { DistinctCons("Title", n1); }
    assert FieldNames(map[]) == n0 by { DefaultNames(); }
  }

  /** With no renaming the properties get the default names. */
  lemma DefaultNames()
    ensures FieldNames(map[]) == ["Title", "First Seen", "Last Seen", "Occurrences", "Environment",
                                  "Exception Class", "File", "Line", "Fingerprint"]
  {
    var names := FieldNames(map[]);
    assert names[0] == "Title" && names[1] == "First Seen" && names[2] == "Last Seen";
    assert names[3] == "Occurrences" && names[4] == "Environment" && names[5] == "Exception Class";
    assert names[6] == "File" && names[7] == "Line" && names[8] == "Fingerprint";
  }

  /** The names of `names` as a set. */
  function Elements(names: seq<string>): set<string> {
    set i | 0 <= i < |names| :: names[i]
  }

  /** `addProperty` applied in order for each name and value. */
  function AddProperties(names: seq<string>, values: seq<Property>): (r: map<string, Property>)
    requires |names| == |values|
    ensures r.Keys == Elements(names)
    ensures |names| > 0 ==> r[names[|names| - 1]] == values[|values| - 1]
    ensures forall i :: 0 <= i < |names| && (forall j :: i < j < |names| ==> names[j] != names[i]) ==>
              r[names[i]] == values[i]
  {
    var assignments := seq(|names|, i requires 0 <= i < |names| => (names[i], values[i]));
    var r := Assign(map[], assignments);
    assert forall i :: 0 <= i < |names| ==> assignments[i].0 == names[i];
    assert Elements(names) == set i | 0 <= i < |assignments| :: assignments[i].0;
    forall i | 0 <= i < |names| && (forall j :: i < j < |names| ==> names[j] != names[i])
      ensures r[names[i]] == values[i]
    {
      AssignLastWins(map[], assignments, i);
    }
    r
  }

  /**
    `buildNewPage`: a draft in the database with exactly the nine named
    properties; the fingerprint, added last, is always readable under its name.
   */
  function BuildNewPage(fieldNames: map<string, string>, now: int, basePath: Option<string>,
                        databaseId: string, e: Throwable, fingerprint: string, environment: string): (r: Draft)
    ensures r.database == databaseId
    ensures r.properties.Keys == Elements(FieldNames(fieldNames))
    ensures FieldName(fieldNames, "fingerprint") in r.properties
    ensures r.properties[FieldName(fieldNames, "fingerprint")] == RichText(fingerprint)
  {
    var names := FieldNames(fieldNames);
    var values := NewPageValues(now, basePath, e, fingerprint, environment);
    assert names[8] == FieldName(fieldNames, "fingerprint");
    assert names[8] in Elements(names);
    Draft(databaseId, AddProperties(names, values))
  }

  /** With distinct property names a new page records exactly one occurrence. */
  lemma NewPageCountsOne(fieldNames: map<string, string>, now: int, basePath: Option<string>,
                         databaseId: string, e: Throwable, fingerprint: string, environment: string)
    requires DistinctFieldNames(fieldNames)
    ensures var p := BuildNewPage(fieldNames, now, basePath, databaseId, e, fingerprint, environment).properties;
            FieldName(fieldNames, "occurrences") in p && p[FieldName(fieldNames, "occurrences")] == Number(Some(1))
  {
    var names := FieldNames(fieldNames);
    assert names[3] == FieldName(fieldNames, "occurrences");
    assert forall j :: 3 < j < |names| ==> names[j] != names[3];
    assert names[3] in Elements(names);
  }

  /**
    When the nine property names are distinct, every property of a new page
    holds its own value: the title, both dates set to now, one occurrence,
    the environment, the class, the shortened file, the line and the fingerprint.
   */
  lemma NewPageFields(fieldNames: map<string, string>, now: int, basePath: Option<string>,
                      databaseId: string, e: Throwable, fingerprint: string, environment: string)
    requires DistinctFieldNames(fieldNames)
    ensures var p := BuildNewPage(fieldNames, now, basePath, databaseId, e, fingerprint, environment).properties;
            var values := NewPageValues(now, basePath, e, fingerprint, environment);
            forall i :: 0 <= i < |FieldKeys| ==> p[FieldName(fieldNames, FieldKeys[i])] == values[i]
  {
    var names := FieldNames(fieldNames);
    assert forall i, j :: 0 <= i < j < |names| ==> names[j] != names[i];
  }

  /** The property keys by position. */
  lemma FieldKeysAt()
    ensures FieldKeys[0] == "title" && FieldKeys[1] == "first_seen" && FieldKeys[2] == "last_seen"
    ensures FieldKeys[4] == "environment" && FieldKeys[5] == "exception_class"
    ensures FieldKeys[6] == "file" && FieldKeys[7] == "line"
  {
  }

  /** The layout of the nine values, over arbitrary contents. */
  lemma ValuesLayout(title: string, now: int, environment: string, cls: string, file: string,
                     line: int, fingerprint: string)
    ensures var v := [Title(title), Date(now), Date(now), Number(Some(1))] +
                     [Select(environment), RichText(cls), RichText(file), Number(Some(line)), RichText(fingerprint)];
            && v[0] == Title(title) && v[1] == Date(now) && v[2] == Date(now)
            && v[4] == Select(environment) && v[5] == RichText(cls)
            && v[6] == RichText(file) && v[7] == Number(Some(line))
  {
  }

  /** A new page's property values by position. */
  lemma NewPageValuesAt(now: int, basePath: Option<string>, e: Throwable, fingerprint: string, environment: string)
    ensures var v := NewPageValues(now, basePath, e, fingerprint, environment);
            && v[0] == Title(CreateTitle(e)) && v[1] == Date(now) && v[2] == Date(now)
            && v[4] == Select(environment) && v[5] == RichText(e.cls)
            && v[6] == RichText(TruncateFile(e.file, basePath)) && v[7] == Number(Some(e.line))
  {
    ValuesLayout(CreateTitle(e), now, environment, e.cls, TruncateFile(e.file, basePath), e.line, fingerprint);
  }

  /** The property named at position `i` holds the value at position `i`. */
  lemma NewPageFieldAt(fieldNames: map<string, string>, now: int, basePath: Option<string>,
                       databaseId: string, e: Throwable, fingerprint: string, environment: string, i: nat)
    requires DistinctFieldNames(fieldNames) && i < |FieldKeys|
    ensures var p := BuildNewPage(fieldNames, now, basePath, databaseId, e, fingerprint, environment).properties;
            && FieldName(fieldNames, FieldKeys[i]) in p
            && p[FieldName(fieldNames, FieldKeys[i])] == NewPageValues(now, basePath, e, fingerprint, environment)[i]
  {
    var names := FieldNames(fieldNames);
    assert names[i] in Elements(names);
    NewPageFields(fieldNames, now, basePath, databaseId, e, fingerprint, environment);
  }

  /**
    A new page's title is the built title, and its first-seen and last-seen
    dates are the same instant `now`.
   */
  lemma NewPageDates(fieldNames: map<string, string>, now: int, basePath: Option<string>,
                     databaseId: string, e: Throwable, fingerprint: string, environment: string)
    requires DistinctFieldNames(fieldNames)
    ensures var p := BuildNewPage(fieldNames, now, basePath, databaseId, e, fingerprint, environment).properties;
            && FieldName(fieldNames, "title") in p && p[FieldName(fieldNames, "title")] == Title(CreateTitle(e))
            && FieldName(fieldNames, "first_seen") in p && p[FieldName(fieldNames, "first_seen")] == Date(now)
            && FieldName(fieldNames, "last_seen") in p && p[FieldName(fieldNames, "last_seen")] == Date(now)
  {
    FieldKeysAt();
    NewPageValuesAt(now, basePath, e, fingerprint, environment);
    NewPageFieldAt(fieldNames, now, basePath, databaseId, e, fingerprint, environment, 0);
    NewPageFieldAt(fieldNames, now, basePath, databaseId, e, fingerprint, environment, 1);
    NewPageFieldAt(fieldNames, now, basePath, databaseId, e, fingerprint, environment, 2);
  }

  /**
    A new page records the environment as a select, the full class name, the
    shortened file and the line.
   */
  lemma NewPageDetails(fieldNames: map<string, string>, now: int, basePath: Option<string>,
                       databaseId: string, e: Throwable, fingerprint: string, environment: string)
    requires DistinctFieldNames(fieldNames)
    ensures var p := BuildNewPage(fieldNames, now, basePath, databaseId, e, fingerprint, environment).properties;
            && FieldName(fieldNames, "environment") in p && p[FieldName(fieldNames, "environment")] == Select(environment)
            && FieldName(fieldNames, "exception_class") in p && p[FieldName(fieldNames, "exception_class")] == RichText(e.cls)
            && FieldName(fieldNames, "file") in p && p[FieldName(fieldNames, "file")] == RichText(TruncateFile(e.file, basePath))
            && FieldName(fieldNames, "line") in p && p[FieldName(fieldNames, "line")] == Number(Some(e.line))
  {
    FieldKeysAt();
    NewPageValuesAt(now, basePath, e, fingerprint, environment);
    NewPageFieldAt(fieldNames, now, basePath, databaseId, e, fingerprint, environment, 4);
    NewPageFieldAt(fieldNames, now, basePath, databaseId, e, fingerprint, environment, 5);
    NewPageFieldAt(fieldNames, now, basePath, databaseId, e, fingerprint, environment, 6);
    NewPageFieldAt(fieldNames, now, basePath, databaseId, e, fingerprint, environment, 7);
  }

  /**
    `updatePageOccurrence`: the page with last-seen set to now and the
    occurrence count one more than `current`; every other property is kept.
   */
  function UpdatePageOccurrence(fieldNames: map<string, string>, page: Page, current: int, now: int): (r: Page)
    ensures r.id == page.id && r.database == page.database && r.content == page.content
    ensures var lastSeen := FieldName(fieldNames, "last_seen");
            var occurrences := FieldName(fieldNames, "occurrences");
            && r.properties.Keys == page.properties.Keys + {lastSeen, occurrences}
            && r.properties[occurrences] == Number(Some(current + 1))
            && (lastSeen != occurrences ==> r.properties[lastSeen] == Date(now))
            && forall k :: k in page.properties && k != lastSeen && k != occurrences ==>
                 r.properties[k] == page.properties[k]
  {
    var lastSeen := FieldName(fieldNames, "last_seen");
    var occurrences := FieldName(fieldNames, "occurrences");
    page.(properties := page.properties[lastSeen := Date(now)][occurrences := Number(Some(current + 1))])
  }

  /** The blocks every page starts with: the message and the stack trace, each closed by a divider. */
  function HeaderBlocks(message: string, traceText: string): seq<Block> {
    [
      Heading2("Exception Message"),
      Paragraph(if IsFalsyString(message) then NoMessage else message),
      Divider,
      Heading2("Stack Trace"),
      StackTraceBlock(traceText),
      Divider
    ]
  }

  /**
    `buildPageContent`: the six header blocks, then a "Context" heading and
    the formatted context when it yields any block. Fails when the context
    cannot be formatted.
   */
  function BuildPageContent(e: Throwable, traceText: string, context: seq<Entry>): (r: Result<seq<Block>>)
    ensures r.Success? <==> ContextFormatter.Format(context).Success?
    ensures r.Success? ==>
              var formatted := ContextFormatter.Format(context).value;
              && |r.value| >= 6
              && r.value[..6] == HeaderBlocks(e.message, traceText)
              && (formatted == [] ==> |r.value| == 6)
              && (formatted != [] ==> r.value[6..] == [Heading2("Context")] + formatted)
  {
    var header := HeaderBlocks(e.message, traceText);
    var formatted := ContextFormatter.Format(context);
    if formatted.Failure? then Failure(formatted.error)
    else if formatted.value == [] then Success(header)
    else
      var r := header + ([Heading2("Context")] + formatted.value);
      assert r[..6] == header;
      assert r[6..] == [Heading2("Context")] + formatted.value;
      Success(r)
  }
}
