/**
  The context formatter: the request or console context collected when the
  exception was reported becomes a list of Notion blocks, one heading per
  non-empty array category followed by one bullet per item, and one bullet
  per scalar category.
 */
module ContextFormatter {
  import opened Wrappers
  import opened Php
  import opened Notion

  /** `"{$name}: {$v}"`; `None` when `$v` cannot be turned into text. */
  function BulletText(name: string, v: Value): (r: Option<string>)
    ensures r.Some? <==> Interpolate(v).Some?
    ensures r.Some? ==> r.value == name + ": " + Interpolate(v).value
  {
    match Interpolate(v)
    case Some(text) => Some(name + ": " + text)
    case None => None
  }

  /** One bullet per entry of a category array, in order, labelled by its key. */
  function FormatItems(items: seq<Entry>): (r: Result<seq<Block>>)
    ensures r.Success? <==> forall i :: 0 <= i < |items| ==> Interpolate(items[i].value).Some?
    ensures r.Success? ==> |r.value| == |items|
    ensures r.Success? ==> forall i :: 0 <= i < |items| ==>
              r.value[i] == Bullet(BulletText(Humanize(KeyText(items[i].key)), items[i].value).value)
  {
    if |items| == 0 then Success([])
    else
      match BulletText(Humanize(KeyText(items[0].key)), items[0].value)
      case None => Failure("Error")
      case Some(text) =>
        var rest := FormatItems(items[1..]);
        assert forall i :: 0 < i < |items| ==> items[i] == items[1..][i - 1];
        if rest.Failure? then rest else Success([Bullet(text)] + rest.value)
  }

  /**
    One category of the context. An empty array is skipped before the
    category name is used; otherwise the name is given to `ucfirst` and
    `str_replace`, which under strict types reject an integer key.
   */
  function FormatCategory(category: Entry): (r: Result<seq<Block>>)
    ensures category.value.VArray? && category.value.entries == [] ==> r == Success([])
    ensures category.key.IntKey? && !(category.value.VArray? && category.value.entries == []) ==> r.Failure?
    ensures category.key.StrKey? && category.value.VArray? ==>
              (r.Success? <==> FormatItems(category.value.entries).Success?)
    ensures category.key.StrKey? && !category.value.VArray? ==>
              (r.Success? <==> Interpolate(category.value).Some?)
    ensures r.Success? && category.value.VArray? && category.value.entries != [] ==>
              && |r.value| == 1 + |category.value.entries|
              && r.value[0] == Heading3(Ucfirst(category.key.s))
              && r.value[1..] == FormatItems(category.value.entries).value
    ensures r.Success? && !category.value.VArray? ==>
              r.value == [Bullet(BulletText(Humanize(category.key.s), category.value).value)]
  {
    if category.value.VArray? && |category.value.entries| == 0 then Success([])
    else if category.key.IntKey? then Failure("TypeError")
    else if category.value.VArray? then
      var bullets := FormatItems(category.value.entries);
      if bullets.Failure? then bullets else Success([Heading3(Ucfirst(category.key.s))] + bullets.value)
    else
      match BulletText(Humanize(category.key.s), category.value)
      case Some(text) => Success([Bullet(text)])
      case None => Failure("Error")
  }

  /** A category holding an empty array contributes nothing, whatever its key. */
  lemma EmptyCategorySkipped(key: Key)
    ensures Format([Entry(key, VArray([]))]) == Success([])
  {
    var context := [Entry(key, VArray([]))];
    assert context[1..] == [];
    assert FormatCategory(context[0]) == Success([]);
    assert Format(context[1..]) == Success([]);
    var empty: seq<Block> := [];
    assert empty + empty == empty;
    assert Format(context) == Success(empty);
  }

  /** `format($context)`: the categories' blocks concatenated in context order. */
  function Format(context: seq<Entry>): (r: Result<seq<Block>>)
    ensures context == [] ==> r == Success([])
  {
    if |context| == 0 then Success([])
    else
      var head := FormatCategory(context[0]);
      var rest := Format(context[1..]);
      if head.Failure? then head
      else if rest.Failure? then rest
      else Success(head.value + rest.value)
  }

  /** Formatting succeeds exactly when every category can be formatted; otherwise the first failure is reported. */
  lemma {:induction false} FormatSucceedsIff(context: seq<Entry>)
    ensures Format(context).Success? <==> forall i :: 0 <= i < |context| ==> FormatCategory(context[i]).Success?
    ensures Format(context).Failure? ==>
              exists i :: 0 <= i < |context| && FormatCategory(context[i]).Failure? &&
                Format(context).error == FormatCategory(context[i]).error
  {
    if |context| > 0 {
      FormatSucceedsIff(context[1..]);
      assert forall i :: 0 < i < |context| ==> context[i] == context[1..][i - 1];
      if FormatCategory(context[0]).Success? && Format(context[1..]).Failure? {
        var j :| 0 <= j < |context[1..]| && FormatCategory(context[1..][j]).Failure? &&
                 Format(context[1..]).error == FormatCategory(context[1..][j]).error;
        assert context[j + 1] == context[1..][j];
      }
    }
  }

  /** Blocks a category contributes: heading plus items, nothing, or one bullet. */
  function CategorySize(category: Entry): nat {
    if category.value.VArray? then
      (if |category.value.entries| == 0 then 0 else 1 + |category.value.entries|)
    else 1
  }

  function ContextSize(context: seq<Entry>): nat {
    if |context| == 0 then 0 else CategorySize(context[0]) + ContextSize(context[1..])
  }

  /** A formatted context has exactly one block per heading and item. */
  lemma {:induction false} FormatSize(context: seq<Entry>)
    requires Format(context).Success?
    ensures |Format(context).value| == ContextSize(context)
  {
    if |context| > 0 {
      FormatSize(context[1..]);
    }
  }

  /** Headings count the non-empty array categories. */
  function HeadingCount(blocks: seq<Block>): nat {
    if |blocks| == 0 then 0 else (if blocks[0].Heading3? then 1 else 0) + HeadingCount(blocks[1..])
  }

  function NonEmptyArrayCategories(context: seq<Entry>): nat {
    if |context| == 0 then 0
    else (if context[0].value.VArray? && |context[0].value.entries| > 0 then 1 else 0)
         + NonEmptyArrayCategories(context[1..])
  }

  lemma {:induction false} HeadingCountAppend(a: seq<Block>, b: seq<Block>)
    ensures HeadingCount(a + b) == HeadingCount(a) + HeadingCount(b)
  {
    if |a| > 0 {
      assert (a + b)[0] == a[0];
      assert (a + b)[1..] == a[1..] + b;
      HeadingCountAppend(a[1..], b);
    } else {
      assert a + b == b;
    }
  }

  lemma {:induction false} ItemsHaveNoHeadings(items: seq<Entry>)
    requires FormatItems(items).Success?
    ensures HeadingCount(FormatItems(items).value) == 0
  {
    if |items| > 0 {
      ItemsHaveNoHeadings(items[1..]);
    }
  }

  /** There is one `Heading3` per non-empty array category, and only those. */
  lemma {:induction false} FormatHeadings(context: seq<Entry>)
    requires Format(context).Success?
    ensures HeadingCount(Format(context).value) == NonEmptyArrayCategories(context)
  {
    if |context| > 0 {
      var head := FormatCategory(context[0]).value;
      FormatHeadings(context[1..]);
      HeadingCountAppend(head, Format(context[1..]).value);
      if context[0].value.VArray? && |context[0].value.entries| > 0 {
        var items := context[0].value.entries;
        ItemsHaveNoHeadings(items);
        assert head == [head[0]] + head[1..];
        HeadingCountAppend([head[0]], head[1..]);
      }
    }
  }

  /** A context starting with `category` formats as that category followed by the rest. */
  lemma FormatCons(category: Entry, rest: seq<Entry>, head: seq<Block>, tail: seq<Block>)
    requires FormatCategory(category) == Success(head) && Format(rest) == Success(tail)
    ensures Format([category] + rest) == Success(head + tail)
  {
    assert ([category] + rest)[0] == category;
    assert ([category] + rest)[1..] == rest;
  }

  /** A context that formats has a first category and a rest that format. */
  lemma FormatTail(context: seq<Entry>)
    requires |context| > 0 && Format(context).Success?
    ensures FormatCategory(context[0]).Success? && Format(context[1..]).Success?
  {
  }

  /** One step of `FormatAppend`: a category put in front of `t` stays in front of `t + b`. */
  lemma FormatAppendStep(c: Entry, t: seq<Entry>, b: seq<Entry>, head: seq<Block>, x: seq<Block>, y: seq<Block>)
    requires FormatCategory(c) == Success(head) && Format(t) == Success(x)
    requires Format(t + b) == Success(x + y)
    ensures Format([c] + t) == Success(head + x)
    ensures Format([c] + (t + b)) == Success((head + x) + y)
  {
    FormatCons(c, t, head, x);
    FormatCons(c, t + b, head, x + y);
    BlocksAssociate(head, x, y);
  }

  lemma BlocksAssociate(a: seq<Block>, b: seq<Block>, c: seq<Block>)
    ensures a + (b + c) == (a + b) + c
  {
  }

  /** A non-empty context is its first category in front of the rest, also when followed by more. */
  lemma SplitFirst(a: seq<Entry>, b: seq<Entry>)
    requires |a| > 0
    ensures [a[0]] + a[1..] == a && [a[0]] + (a[1..] + b) == a + b
  {
  }

  /** Formatting two contexts one after the other is formatting their concatenation. */
  lemma {:induction false} FormatAppend(a: seq<Entry>, b: seq<Entry>)
    requires Format(a).Success? && Format(b).Success?
    ensures Format(a + b) == Success(Format(a).value + Format(b).value)
  {
    if |a| > 0 {
      FormatTail(a);
      FormatAppend(a[1..], b);
      FormatAppendStep(a[0], a[1..], b, FormatCategory(a[0]).value, Format(a[1..]).value, Format(b).value);
      SplitFirst(a, b);
    } else {
      assert a + b == b;
      assert Format(a).value + Format(b).value == Format(b).value;
    }
  }
}
