/**
  The exception serializer: a throwable becomes a PHP array holding no
  object and no open resource so that it can cross the queue, and such an
  array becomes a throwable again on the worker. A closed resource among the
  trace arguments is not recognised as a resource and passes through.
 */
module Serializer {
  import opened Wrappers
  import opened Php
  import opened Throwables

  const ResourcePlaceholder: string := "[resource]"

  /**
    No object and no resource at any depth, except that closed resources are
    admitted when `closedAllowed` holds.
   */
  predicate Carriable(v: Value, closedAllowed: bool)
    decreases v
  {
    match v
    case VObject(_, _) => false
    case VResource(_, closed) => closed && closedAllowed
    case VArray(es) => forall i :: 0 <= i < |es| ==> Carriable(es[i].value, closedAllowed)
    case _ => true
  }

  /** No object and no resource at any depth. */
  predicate PrimitiveOnly(v: Value) {
    Carriable(v, false)
  }

  /** No object and no open resource at any depth: what the serializer guarantees. */
  predicate Serializable(v: Value) {
    Carriable(v, true)
  }

  predicate PrimitiveEntries(es: seq<Entry>) {
    PrimitiveOnly(VArray(es))
  }

  predicate SerializableEntries(es: seq<Entry>) {
    Serializable(VArray(es))
  }

  /** No closed resource at any depth. */
  predicate NoClosedResource(v: Value)
    decreases v
  {
    match v
    case VResource(_, closed) => !closed
    case VArray(es) => forall i :: 0 <= i < |es| ==> NoClosedResource(es[i].value)
    case _ => true
  }

  /**
    One trace argument as `serializeTraceArgs` maps it: an object becomes its
    class name, an open resource the placeholder, an array is mapped entry by
    entry under the same keys, and everything else passes through, a closed
    resource included since `is_resource` is false for it.
   */
  function SanitizeArg(v: Value): (r: Value)
    ensures Serializable(r)
    ensures PrimitiveOnly(r) <==> NoClosedResource(v)
    ensures Serializable(v) ==> r == v
    ensures v.VObject? ==> r == VStr(v.cls)
    ensures v.VResource? ==> r == (if v.closed then v else VStr(ResourcePlaceholder))
    ensures v.VArray? ==> r.VArray? && |r.entries| == |v.entries|
    ensures v.VArray? ==> forall i :: 0 <= i < |v.entries| ==>
              r.entries[i] == Entry(v.entries[i].key, SanitizeArg(v.entries[i].value))
    decreases v
  {
    match v
    case VObject(cls, _) => VStr(cls)
    case VResource(_, closed) => if closed then v else VStr(ResourcePlaceholder)
    case VArray(es) =>
      var mapped := seq(|es|, i requires 0 <= i < |es| => Entry(es[i].key, SanitizeArg(es[i].value)));
      assert Serializable(v) ==> mapped == es;
      assert forall i :: 0 <= i < |es| ==> (PrimitiveOnly(mapped[i].value) <==> NoClosedResource(es[i].value));
      assert PrimitiveOnly(VArray(mapped)) <==> forall i :: 0 <= i < |es| ==> PrimitiveOnly(mapped[i].value);
      assert NoClosedResource(v) <==> forall i :: 0 <= i < |es| ==> NoClosedResource(es[i].value);
      VArray(mapped)
    case _ => v
  }

  /**
    `serializeTraceArgs($args)`: same length, same keys, no object and no open
    resource; nothing but primitives exactly when no argument holds a closed
    resource.
   */
  function SanitizeArgs(args: seq<Entry>): (r: seq<Entry>)
    ensures |r| == |args| && SerializableEntries(r)
    ensures PrimitiveEntries(r) <==> NoClosedResource(VArray(args))
    ensures forall i :: 0 <= i < |args| ==> r[i].key == args[i].key
    ensures forall i :: 0 <= i < |args| ==> r[i].value == SanitizeArg(args[i].value)
    ensures SerializableEntries(args) ==> r == args
  {
    SanitizeArg(VArray(args)).entries
  }

  /** A closed resource among the arguments survives sanitising, so the result is not primitive. */
  lemma ClosedResourceSurvives(args: seq<Entry>, i: nat, id: nat)
    requires i < |args| && args[i].value == VResource(id, true)
    ensures SanitizeArgs(args)[i].value == VResource(id, true)
    ensures !PrimitiveEntries(SanitizeArgs(args))
  {
    assert !NoClosedResource(args[i].value);
  }

  /** Sanitising twice is sanitising once. */
  lemma SanitizeIdempotent(args: seq<Entry>)
    ensures SanitizeArgs(SanitizeArgs(args)) == SanitizeArgs(args)
  {
  }

  function OptionalString(o: Option<string>): Value {
    match o
    case Some(s) => VStr(s)
    case None => VNull
  }

  function OptionalInt(o: Option<int>): Value {
    match o
    case Some(i) => VInt(i)
    case None => VNull
  }

  /**
    The six keys of a flattened frame, in the order `toArray` writes them.
    The list is built entry by entry so that lookups unfold one entry at a time.
   */
  function FrameRecord(file: Value, line: Value, func: Value, cls: Value, callType: Value, args: Value): seq<Entry> {
    [Entry(StrKey("file"), file)] +
    ([Entry(StrKey("line"), line)] +
    ([Entry(StrKey("function"), func)] +
    ([Entry(StrKey("class"), cls)] +
    ([Entry(StrKey("type"), callType)] +
    ([Entry(StrKey("args"), args)])))))
  }

  /** Each key of a frame record reads back the value stored under it. */
  lemma FrameRecordLookups(file: Value, line: Value, func: Value, cls: Value, callType: Value, args: Value)
    ensures var r := FrameRecord(file, line, func, cls, callType, args);
      && Lookup(r, StrKey("file")) == Some(file)
      && Lookup(r, StrKey("line")) == Some(line)
      && Lookup(r, StrKey("function")) == Some(func)
      && Lookup(r, StrKey("class")) == Some(cls)
      && Lookup(r, StrKey("type")) == Some(callType)
      && Lookup(r, StrKey("args")) == Some(args)
  {
    var r5 := [Entry(StrKey("args"), args)];
    var r4 := [Entry(StrKey("type"), callType)] + r5;
    var r3 := [Entry(StrKey("class"), cls)] + r4;
    var r2 := [Entry(StrKey("function"), func)] + r3;
    var r1 := [Entry(StrKey("line"), line)] + r2;
    var r0 := [Entry(StrKey("file"), file)] + r1;
    LookupCons(r0[0], r1, StrKey("file"));
    LookupCons(r0[0], r1, StrKey("line"));
    LookupCons(r1[0], r2, StrKey("line"));
    LookupCons(r0[0], r1, StrKey("function"));
    LookupCons(r1[0], r2, StrKey("function"));
    LookupCons(r2[0], r3, StrKey("function"));
    LookupCons(r0[0], r1, StrKey("class"));
    LookupCons(r1[0], r2, StrKey("class"));
    LookupCons(r2[0], r3, StrKey("class"));
    LookupCons(r3[0], r4, StrKey("class"));
    LookupCons(r0[0], r1, StrKey("type"));
    LookupCons(r1[0], r2, StrKey("type"));
    LookupCons(r2[0], r3, StrKey("type"));
    LookupCons(r3[0], r4, StrKey("type"));
    LookupCons(r4[0], r5, StrKey("type"));
    LookupCons(r0[0], r1, StrKey("args"));
    LookupCons(r1[0], r2, StrKey("args"));
    LookupCons(r2[0], r3, StrKey("args"));
    LookupCons(r3[0], r4, StrKey("args"));
    LookupCons(r4[0], r5, StrKey("args"));
  }

  /** A frame record is carriable exactly when its fields are. */
  lemma FrameRecordCarriable(file: Value, line: Value, func: Value, cls: Value, callType: Value, args: Value, closedAllowed: bool)
    requires Carriable(file, closedAllowed) && Carriable(line, closedAllowed) && Carriable(func, closedAllowed)
    requires Carriable(cls, closedAllowed) && Carriable(callType, closedAllowed)
    ensures Carriable(VArray(FrameRecord(file, line, func, cls, callType, args)), closedAllowed) <==> Carriable(args, closedAllowed)
  {
    var r := FrameRecord(file, line, func, cls, callType, args);
    assert r[5].value == args;
    assert Carriable(args, closedAllowed) ==> forall i :: 0 <= i < |r| ==> Carriable(r[i].value, closedAllowed);
  }

  /**
    One trace frame as `toArray` flattens it: missing fields become `null`;
    the record is primitive unless an argument holds a closed resource.
   */
  function EncodeFrame(f: Frame): (r: seq<Entry>)
    ensures SerializableEntries(r)
    ensures PrimitiveEntries(r) <==> NoClosedResource(VArray(f.args.GetOr([])))
    ensures Lookup(r, StrKey("function")) == Some(VStr(f.func))
    ensures Lookup(r, StrKey("file")) == Some(OptionalString(f.file))
    ensures Lookup(r, StrKey("line")) == Some(OptionalInt(f.line))
    ensures Lookup(r, StrKey("class")) == Some(OptionalString(f.cls))
    ensures Lookup(r, StrKey("type")) == Some(OptionalString(f.callType))
    ensures Lookup(r, StrKey("args")) == Some(VArray(SanitizeArgs(f.args.GetOr([]))))
  {
    var file := OptionalString(f.file);
    var line := OptionalInt(f.line);
    var func := VStr(f.func);
    var cls := OptionalString(f.cls);
    var callType := OptionalString(f.callType);
    var args := VArray(SanitizeArgs(f.args.GetOr([])));
    FrameRecordLookups(file, line, func, cls, callType, args);
    FrameRecordCarriable(file, line, func, cls, callType, args, true);
    FrameRecordCarriable(file, line, func, cls, callType, args, false);
    FrameRecord(file, line, func, cls, callType, args)
  }

  /** The trace as a list: frame `i` under key `i`, one entry per frame. */
  function EncodeTrace(trace: seq<Frame>): (r: seq<Entry>)
    ensures |r| == |trace| && SerializableEntries(r)
    ensures (forall i :: 0 <= i < |trace| ==> NoClosedResource(VArray(trace[i].args.GetOr([])))) ==> PrimitiveEntries(r)
    ensures forall i :: 0 <= i < |trace| ==> r[i] == Entry(IntKey(i), VArray(EncodeFrame(trace[i])))
  {
    seq(|trace|, i requires 0 <= i < |trace| => Entry(IntKey(i), VArray(EncodeFrame(trace[i]))))
  }

  /** The six keys `toArray` always writes, in order. */
  function ThrowableRecord(cls: Value, message: Value, code: Value, file: Value, line: Value, trace: Value): seq<Entry> {
    [Entry(StrKey("class"), cls)] +
    ([Entry(StrKey("message"), message)] +
    ([Entry(StrKey("code"), code)] +
    ([Entry(StrKey("file"), file)] +
    ([Entry(StrKey("line"), line)] +
    ([Entry(StrKey("trace"), trace)])))))
  }

  /** Each key of a throwable record reads back the value stored under it. */
  lemma ThrowableRecordLookups(cls: Value, message: Value, code: Value, file: Value, line: Value, trace: Value)
    ensures var r := ThrowableRecord(cls, message, code, file, line, trace);
      && Lookup(r, StrKey("class")) == Some(cls)
      && Lookup(r, StrKey("message")) == Some(message)
      && Lookup(r, StrKey("code")) == Some(code)
      && Lookup(r, StrKey("file")) == Some(file)
      && Lookup(r, StrKey("line")) == Some(line)
      && Lookup(r, StrKey("trace")) == Some(trace)
  {
    var r5 := [Entry(StrKey("trace"), trace)];
    var r4 := [Entry(StrKey("line"), line)] + r5;
    var r3 := [Entry(StrKey("file"), file)] + r4;
    var r2 := [Entry(StrKey("code"), code)] + r3;
    var r1 := [Entry(StrKey("message"), message)] + r2;
    var r0 := [Entry(StrKey("class"), cls)] + r1;
    LookupCons(r0[0], r1, StrKey("class"));
    LookupCons(r0[0], r1, StrKey("message"));
    LookupCons(r1[0], r2, StrKey("message"));
    LookupCons(r0[0], r1, StrKey("code"));
    LookupCons(r1[0], r2, StrKey("code"));
    LookupCons(r2[0], r3, StrKey("code"));
    LookupCons(r0[0], r1, StrKey("file"));
    LookupCons(r1[0], r2, StrKey("file"));
    LookupCons(r2[0], r3, StrKey("file"));
    LookupCons(r3[0], r4, StrKey("file"));
    LookupCons(r0[0], r1, StrKey("line"));
    LookupCons(r1[0], r2, StrKey("line"));
    LookupCons(r2[0], r3, StrKey("line"));
    LookupCons(r3[0], r4, StrKey("line"));
    LookupCons(r4[0], r5, StrKey("line"));
    LookupCons(r0[0], r1, StrKey("trace"));
    LookupCons(r1[0], r2, StrKey("trace"));
    LookupCons(r2[0], r3, StrKey("trace"));
    LookupCons(r3[0], r4, StrKey("trace"));
    LookupCons(r4[0], r5, StrKey("trace"));
  }

  /** A throwable record has no `previous` key. */
  lemma ThrowableRecordNoPrevious(cls: Value, message: Value, code: Value, file: Value, line: Value, trace: Value)
    ensures !HasKey(ThrowableRecord(cls, message, code, file, line, trace), StrKey("previous"))
  {
    var r := ThrowableRecord(cls, message, code, file, line, trace);
    assert forall i :: 0 <= i < |r| ==> r[i].key.s != "previous";
  }

  /** A throwable record built from carriable values is carriable. */
  lemma ThrowableRecordCarriable(cls: Value, message: Value, code: Value, file: Value, line: Value, trace: Value, closedAllowed: bool)
    requires Carriable(cls, closedAllowed) && Carriable(message, closedAllowed) && Carriable(code, closedAllowed)
    requires Carriable(file, closedAllowed) && Carriable(line, closedAllowed) && Carriable(trace, closedAllowed)
    ensures Carriable(VArray(ThrowableRecord(cls, message, code, file, line, trace)), closedAllowed)
  {
    var r := ThrowableRecord(cls, message, code, file, line, trace);
    assert forall i :: 0 <= i < |r| ==> Carriable(r[i].value, closedAllowed);
  }

  /** Appending entries never changes what an existing key reads. */
  lemma {:induction false} LookupAppend(a: seq<Entry>, b: seq<Entry>, k: Key)
    requires HasKey(a, k)
    ensures Lookup(a + b, k) == Lookup(a, k)
    decreases |a|
  {
    if a[0].key != k {
      assert (a + b)[1..] == a[1..] + b;
      assert HasKey(a[1..], k) by {
        var i :| 0 <= i < |a| && a[i].key == k;
        assert a[1..][i - 1] == a[i];
      }
      LookupAppend(a[1..], b, k);
    }
  }

  /**
    Appending `previous` to a record that lacks it keeps every existing key,
    adds `previous`, and keeps the record carriable when the value is.
   */
  lemma AppendPrevious(base: seq<Entry>, previous: Value, closedAllowed: bool)
    requires !HasKey(base, StrKey("previous"))
    requires Carriable(VArray(base), closedAllowed) && Carriable(previous, closedAllowed)
    ensures var r := base + [Entry(StrKey("previous"), previous)];
      && Carriable(VArray(r), closedAllowed)
      && Lookup(r, StrKey("previous")) == Some(previous)
      && forall k :: HasKey(base, k) ==> Lookup(r, k) == Lookup(base, k)
  {
    var r := base + [Entry(StrKey("previous"), previous)];
    LookupFirst(r, |base|, StrKey("previous"));
    forall k | HasKey(base, k)
      ensures Lookup(r, k) == Lookup(base, k)
    {
      LookupAppend(base, [Entry(StrKey("previous"), previous)], k);
    }
    assert forall i :: 0 <= i < |base| ==> r[i] == base[i];
    assert forall i :: 0 <= i < |r| ==> Carriable(r[i].value, closedAllowed);
  }

  /** No trace argument of `e`, or of a throwable it wraps, holds a closed resource. */
  predicate NoClosedArgs(e: Throwable)
    decreases e
  {
    && (forall i :: 0 <= i < |e.trace| ==> NoClosedResource(VArray(e.trace[i].args.GetOr([]))))
    && (e.previous.Some? ==> NoClosedArgs(e.previous.value))
  }

  /**
    `toArray($exception)`: class, message, code, file, line and the encoded
    trace, then `previous` holding the encoding of the previous throwable
    exactly when there is one. No object or open resource survives, and no
    resource at all unless a trace argument held a closed one.
   */
  function ToArray(e: Throwable): (r: seq<Entry>)
    ensures SerializableEntries(r)
    ensures NoClosedArgs(e) ==> PrimitiveEntries(r)
    ensures HasKey(r, StrKey("previous")) <==> e.previous.Some?
    ensures e.previous.Some? ==> Lookup(r, StrKey("previous")) == Some(VArray(ToArray(e.previous.value)))
    decreases e
  {
    var cls := VStr(e.cls);
    var message := VStr(e.message);
    var code := VInt(e.code);
    var file := VStr(e.file);
    var line := VInt(e.line);
    var trace := VArray(EncodeTrace(e.trace));
    var base := ThrowableRecord(cls, message, code, file, line, trace);
    ThrowableRecordCarriable(cls, message, code, file, line, trace, true);
    assert NoClosedArgs(e) ==> PrimitiveEntries(base) by {
      if NoClosedArgs(e) {
        ThrowableRecordCarriable(cls, message, code, file, line, trace, false);
      }
    }
    ThrowableRecordNoPrevious(cls, message, code, file, line, trace);
    match e.previous
    case None => base
    case Some(p) =>
      var previous := VArray(ToArray(p));
      AppendPrevious(base, previous, true);
      assert NoClosedArgs(e) ==> PrimitiveEntries(base + [Entry(StrKey("previous"), previous)]) by {
        if NoClosedArgs(e) {
          AppendPrevious(base, previous, false);
        }
      }
      base + [Entry(StrKey("previous"), previous)]
  }

  /** Every base field of `toArray` reads back the throwable's own value. */
  lemma ToArrayFields(e: Throwable)
    ensures var r := ToArray(e);
      && Lookup(r, StrKey("class")) == Some(VStr(e.cls))
      && Lookup(r, StrKey("message")) == Some(VStr(e.message))
      && Lookup(r, StrKey("code")) == Some(VInt(e.code))
      && Lookup(r, StrKey("file")) == Some(VStr(e.file))
      && Lookup(r, StrKey("line")) == Some(VInt(e.line))
      && Lookup(r, StrKey("trace")) == Some(VArray(EncodeTrace(e.trace)))
  {
    var tail := if e.previous.Some? then [Entry(StrKey("previous"), VArray(ToArray(e.previous.value)))] else [];
    ToArrayShape(e);
    RecordLookupsWithTail(VStr(e.cls), VStr(e.message), VInt(e.code), VStr(e.file), VInt(e.line),
                          VArray(EncodeTrace(e.trace)), tail);
  }

  /** `toArray` is the six-key record, followed by `previous` when there is one. */
  lemma ToArrayShape(e: Throwable)
    ensures ToArray(e) == ThrowableRecord(VStr(e.cls), VStr(e.message), VInt(e.code), VStr(e.file), VInt(e.line),
                                          VArray(EncodeTrace(e.trace)))
                          + (if e.previous.Some? then [Entry(StrKey("previous"), VArray(ToArray(e.previous.value)))] else [])
  {
    var base := ThrowableRecord(VStr(e.cls), VStr(e.message), VInt(e.code), VStr(e.file), VInt(e.line),
                                VArray(EncodeTrace(e.trace)));
    if e.previous.None? {
      assert base + [] == base;
    }
  }

  /** Whatever follows a throwable record, its six keys read back their values. */
  lemma RecordLookupsWithTail(cls: Value, message: Value, code: Value, file: Value, line: Value, trace: Value, tail: seq<Entry>)
    ensures var r := ThrowableRecord(cls, message, code, file, line, trace) + tail;
      && Lookup(r, StrKey("class")) == Some(cls)
      && Lookup(r, StrKey("message")) == Some(message)
      && Lookup(r, StrKey("code")) == Some(code)
      && Lookup(r, StrKey("file")) == Some(file)
      && Lookup(r, StrKey("line")) == Some(line)
      && Lookup(r, StrKey("trace")) == Some(trace)
  {
    var base := ThrowableRecord(cls, message, code, file, line, trace);
    ThrowableRecordLookups(cls, message, code, file, line, trace);
    LookupAppend(base, tail, StrKey("class"));
    LookupAppend(base, tail, StrKey("message"));
    LookupAppend(base, tail, StrKey("code"));
    LookupAppend(base, tail, StrKey("file"));
    LookupAppend(base, tail, StrKey("line"));
    LookupAppend(base, tail, StrKey("trace"));
  }

  /** Where the worker builds the throwable: its natural file, line and trace. */
  datatype Site = Site(file: string, line: int, trace: seq<Frame>)

  /** `$data[$name] ?? $default` where a string is required; `None` for any other type. */
  function StringField(data: seq<Entry>, name: string, default: string): Option<string> {
    match Field(data, name, VStr(default))
    case VStr(s) => Some(s)
    case _ => None
  }

  /** `$data['line'] ?? 0`, whatever its type. */
  function LineValue(data: seq<Entry>): Value {
    Field(data, "line", VInt(0))
  }

  /**
    The recorded line is written into the exception only when `$line > 0`;
    a value that passes that test but is not an integer cannot be stored in
    the integer property.
   */
  predicate LineAccepted(data: seq<Entry>) {
    !GreaterThanZero(LineValue(data)) || LineValue(data).VInt?
  }

  /** `is_numeric($data['code'] ?? 0) ? (int) $data['code'] : 0`. */
  function DecodeCode(data: seq<Entry>): (code: int)
    ensures Lookup(data, StrKey("code")) == Some(VInt(code)) || code == 0 ||
            (exists s :: Lookup(data, StrKey("code")) == Some(VStr(s)) && IsIntegerString(s) && ParseInteger(s) == code)
  {
    var c := Field(data, "code", VInt(0));
    if IsNumeric(c) then IntCast(c) else 0
  }

  /** The fields of the array have the PHP types the decoder needs. */
  predicate WellTyped(data: seq<Entry>) {
    && StringField(data, "class", GenericClass).Some?
    && StringField(data, "message", "").Some?
    && StringField(data, "file", "").Some?
    && LineAccepted(data)
  }

  /**
    `fromArray($data)`. The recorded class is rebuilt only when `constructible`
    says it exists, is a throwable and its constructor accepts (message, code);
    otherwise a generic `Exception` with the same message and code. The recorded
    file replaces the natural one only when non-empty, the line only when
    positive; a line of another type is ignored when it does not compare
    above zero. Trace and previous are not restored. A field of the wrong
    type that PHP goes on to use makes it throw a type error: `Failure`.
   */
  function FromArray(data: seq<Entry>, constructible: string -> bool, site: Site): (r: Result<Throwable>)
    ensures r.Success? <==> WellTyped(data)
    ensures r.Success? ==>
              var cls := StringField(data, "class", GenericClass).value;
              var file := StringField(data, "file", "").value;
              var line := LineValue(data);
              && r.value.cls == (if constructible(cls) then cls else GenericClass)
              && r.value.message == StringField(data, "message", "").value
              && r.value.code == DecodeCode(data)
              && r.value.file == (if file != "" then file else site.file)
              && r.value.line == (if line.VInt? && line.i > 0 then line.i else site.line)
              && r.value.previous.None?
  {
    if !WellTyped(data) then Failure("TypeError")
    else
      var cls := StringField(data, "class", GenericClass).value;
      var message := StringField(data, "message", "").value;
      var file := StringField(data, "file", "").value;
      var line := LineValue(data);
      var built := if constructible(cls) then cls else GenericClass;
      Success(Throwable(
        built, message, DecodeCode(data),
        if file != "" then file else site.file,
        if line.VInt? && line.i > 0 then line.i else site.line,
        site.trace, None))
  }

  /** A stored string reads back unchanged through the string accessor. */
  lemma StringFieldOf(data: seq<Entry>, name: string, default: string, s: string)
    requires Lookup(data, StrKey(name)) == Some(VStr(s))
    ensures StringField(data, name, default) == Some(s)
  {
  }

  /** A stored integer code is decoded unchanged. */
  lemma DecodeIntCode(data: seq<Entry>, code: int)
    requires Lookup(data, StrKey("code")) == Some(VInt(code))
    ensures DecodeCode(data) == code
  {
  }

  /** A code stored as an integer string decodes to its value. */
  lemma DecodeStringCode(data: seq<Entry>, text: string)
    requires Lookup(data, StrKey("code")) == Some(VStr(text))
    requires IsIntegerString(text)
    ensures DecodeCode(data) == ParseInteger(text)
  {
  }

  /** A code stored as an integer string padded with whitespace decodes to the integer, as PHP 8 casts it. */
  lemma DecodePaddedCode(data: seq<Entry>, before: string, digits: string, after: string)
    requires forall i :: 0 <= i < |before| ==> IsWhitespace(before[i])
    requires forall i :: 0 <= i < |after| ==> IsWhitespace(after[i])
    requires IsSignedDigits(digits)
    requires Lookup(data, StrKey("code")) == Some(VStr(before + digits + after))
    ensures DecodeCode(data) == ParseSigned(digits)
  {
    PaddedIntegerString(before, digits, after);
  }

  /** A string code that is not numeric decodes as 0. */
  lemma DecodeOtherCode(data: seq<Entry>, text: string)
    requires Lookup(data, StrKey("code")) == Some(VStr(text))
    requires !IsIntegerString(text)
    ensures DecodeCode(data) == 0
  {
  }

  /** An array holding a string class, message and file and integer code and line decodes to exactly those. */
  lemma DecodeRecorded(data: seq<Entry>, cls: string, message: string, code: int, file: string, line: int,
                       constructible: string -> bool, site: Site)
    requires Lookup(data, StrKey("class")) == Some(VStr(cls))
    requires Lookup(data, StrKey("message")) == Some(VStr(message))
    requires Lookup(data, StrKey("code")) == Some(VInt(code))
    requires Lookup(data, StrKey("file")) == Some(VStr(file))
    requires Lookup(data, StrKey("line")) == Some(VInt(line))
    ensures FromArray(data, constructible, site) == Success(Throwable(
              if constructible(cls) then cls else GenericClass, message, code,
              if file != "" then file else site.file,
              if line > 0 then line else site.line,
              site.trace, None))
  {
    StringFieldOf(data, "class", GenericClass, cls);
    StringFieldOf(data, "message", "", message);
    StringFieldOf(data, "file", "", file);
    assert LineValue(data) == VInt(line);
    DecodeIntCode(data, code);
  }

  /**
    Encoding then decoding keeps the message and the code exactly, the file
    when it is non-empty and the line when it is positive; the class survives
    when it can be constructed and becomes `Exception` otherwise; the previous
    chain is dropped.
   */
  lemma RoundTrip(e: Throwable, constructible: string -> bool, site: Site)
    ensures FromArray(ToArray(e), constructible, site).Success?
    ensures var d := FromArray(ToArray(e), constructible, site).value;
            && d.message == e.message
            && d.code == e.code
            && d.cls == (if constructible(e.cls) then e.cls else GenericClass)
            && (e.file != "" ==> d.file == e.file)
            && (e.line > 0 ==> d.line == e.line)
            && d.previous.None?
  {
    var data := ToArray(e);
    ToArrayFields(e);
    DecodeRecorded(data, e.cls, e.message, e.code, e.file, e.line, constructible, site);
  }

  /**
    A recorded line that is not an integer and does not compare above zero,
    such as `"0"`, `"-3"`, `""` or `false`, is ignored: the exception keeps
    its natural line. One that does compare above zero is a type error.
   */
  lemma DecodeOtherLine(data: seq<Entry>, cls: string, message: string, file: string, line: Value,
                        constructible: string -> bool, site: Site)
    requires Lookup(data, StrKey("class")) == Some(VStr(cls))
    requires Lookup(data, StrKey("message")) == Some(VStr(message))
    requires Lookup(data, StrKey("file")) == Some(VStr(file))
    requires Lookup(data, StrKey("line")) == Some(line) && !line.VInt? && !line.VNull?
    ensures FromArray(data, constructible, site).Success? <==> !GreaterThanZero(line)
    ensures FromArray(data, constructible, site).Success? ==> FromArray(data, constructible, site).value.line == site.line
  {
    StringFieldOf(data, "class", GenericClass, cls);
    StringFieldOf(data, "message", "", message);
    StringFieldOf(data, "file", "", file);
    assert LineValue(data) == line;
  }

  /** The line values PHP skips and the ones it tries to store. */
  lemma LineComparisons()
    ensures !GreaterThanZero(VStr("0")) && !GreaterThanZero(VStr("-3")) && !GreaterThanZero(VStr(""))
    ensures !GreaterThanZero(VBool(false)) && GreaterThanZero(VStr("abc"))
    ensures GreaterThanZero(VStr(" 7")) && GreaterThanZero(VBool(true))
  {
    assert TrimRight(TrimLeft("-3")) == "-3";
    assert TrimRight(TrimLeft(" 7")) == "7";
  }

  /** An empty array decodes with the documented defaults. */
  lemma DecodeDefaults(constructible: string -> bool, site: Site)
    ensures FromArray([], constructible, site) == Success(Throwable(GenericClass, "", 0, site.file, site.line, site.trace, None))
  {
  }
}
