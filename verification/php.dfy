/**
  PHP values and the byte-string functions of the PHP runtime that the model relies on.
  Strings are byte strings: one `char` per byte, ASCII case rules only.
 */
module Php {
  import opened Wrappers

  /** An array key: PHP arrays are keyed by integers or by strings. */
  datatype Key = IntKey(i: int) | StrKey(s: string)

  /**
    A PHP value. Objects carry their class name and, when the class defines
    `__toString`, the text it yields; resources carry their resource id and
    whether they have been closed (`is_resource` is false for a closed one).
    Floats are not modelled.
   */
  datatype Value =
    | VNull
    | VBool(b: bool)
    | VInt(i: int)
    | VStr(s: string)
    | VArray(entries: seq<Entry>)
    | VObject(cls: string, text: Option<string>)
    | VResource(id: nat, closed: bool)

  /** One key/value pair of an ordered PHP array. */
  datatype Entry = Entry(key: Key, value: Value)

  /** `array_key_exists($k, $a)`. */
  predicate HasKey(entries: seq<Entry>, k: Key) {
    exists i :: 0 <= i < |entries| && entries[i].key == k
  }

  /** `$a[$k]`: the value held under `k`, the first one should the sequence repeat a key. */
  function Lookup(entries: seq<Entry>, k: Key): (r: Option<Value>)
    ensures r.Some? <==> HasKey(entries, k)
    ensures r.Some? ==> exists i :: 0 <= i < |entries| && entries[i] == Entry(k, r.value)
  {
    if |entries| == 0 then None
    else if entries[0].key == k then Some(entries[0].value)
    else
      var r := Lookup(entries[1..], k);
      assert forall i :: 0 < i < |entries| ==> entries[i] == entries[1..][i - 1];
      r
  }

  /** The entry at `i` is the first one under its key, so it is what `$a[$k]` reads. */
  lemma {:induction false} LookupFirst(entries: seq<Entry>, i: nat, k: Key)
    requires i < |entries| && entries[i].key == k
    requires forall j :: 0 <= j < i ==> entries[j].key != k
    ensures Lookup(entries, k) == Some(entries[i].value)
    decreases i
  {
    if i > 0 {
      LookupFirst(entries[1..], i - 1, k);
    }
  }

  /** Looking up in a list that starts with `e` reads `e` when its key matches, else the rest. */
  lemma LookupCons(e: Entry, rest: seq<Entry>, k: Key)
    ensures Lookup([e] + rest, k) == if e.key == k then Some(e.value) else Lookup(rest, k)
  {
    assert ([e] + rest)[1..] == rest;
  }

  /** `$a[$name] ?? $default`: a missing key and a `null` value both give the default. */
  function Field(entries: seq<Entry>, name: string, default: Value): (r: Value)
    ensures Lookup(entries, StrKey(name)) == Some(r) || r == default
    ensures r == VNull ==> default == VNull
  {
    match Lookup(entries, StrKey(name))
    case Some(v) => if v == VNull then default else v
    case None => default
  }

  predicate IsDigit(c: char) {
    '0' <= c <= '9'
  }

  predicate IsLower(c: char) {
    'a' <= c <= 'z'
  }

  predicate IsUpper(c: char) {
    'A' <= c <= 'Z'
  }

  predicate IsLetter(c: char) {
    IsLower(c) || IsUpper(c)
  }

  predicate AllDigits(s: string) {
    forall i :: 0 <= i < |s| ==> IsDigit(s[i])
  }

  /** `strtoupper` on one byte (locale-insensitive since PHP 8). */
  function ToUpper(c: char): char {
    if IsLower(c) then (c as int - 32) as char else c
  }

  /** `ucfirst`: upper-cases the first byte only. */
  function Ucfirst(s: string): (r: string)
    ensures |r| == |s|
    ensures |s| > 0 ==> r[0] == ToUpper(s[0]) && r[1..] == s[1..]
  {
    if |s| == 0 then s else [ToUpper(s[0])] + s[1..]
  }

  /** `str_replace(from, to, s)` for single-byte `from` and `to`. */
  function ReplaceChar(s: string, from: char, to: char): (r: string)
    ensures |r| == |s|
    ensures forall i :: 0 <= i < |s| ==> r[i] == (if s[i] == from then to else s[i])
  {
    seq(|s|, i requires 0 <= i < |s| => if s[i] == from then to else s[i])
  }

  /** `ucfirst(str_replace('_', ' ', $s))`: an identifier turned into a label. */
  function Humanize(s: string): (r: string)
    ensures |r| == |s|
    ensures forall i :: 0 <= i < |r| ==> r[i] != '_'
    ensures forall i :: 0 < i < |s| ==> r[i] == (if s[i] == '_' then ' ' else s[i])
  {
    var spaced := ReplaceChar(s, '_', ' ');
    var r := Ucfirst(spaced);
    assert forall i :: 0 < i < |s| ==> r[i] == spaced[i];
    r
  }

  /** The strings PHP's `empty()` and `?:` treat as false. */
  predicate IsFalsyString(s: string) {
    s == "" || s == "0"
  }

  function DigitChar(d: nat): (c: char)
    requires d < 10
    ensures IsDigit(c)
  {
    (48 + d) as char
  }

  function DigitValue(c: char): (d: nat)
    requires IsDigit(c)
    ensures d < 10 && DigitChar(d) == c
  {
    c as int - 48
  }

  /** Decimal text of a natural number, most significant digit first, no leading zeros. */
  function NatToDecimal(n: nat): (r: string)
    ensures |r| > 0 && AllDigits(r)
    decreases n
  {
    if n < 10 then [DigitChar(n)] else NatToDecimal(n / 10) + [DigitChar(n % 10)]
  }

  /** The number a string of decimal digits denotes. */
  function DigitsValue(s: string): nat
    requires AllDigits(s)
    decreases |s|
  {
    if |s| == 0 then 0 else 10 * DigitsValue(s[..|s| - 1]) + DigitValue(s[|s| - 1])
  }

  lemma {:induction false} NatToDecimalRoundTrip(n: nat)
    ensures DigitsValue(NatToDecimal(n)) == n
    decreases n
  {
    if n >= 10 {
      NatToDecimalRoundTrip(n / 10);
      var s := NatToDecimal(n);
      assert s[..|s| - 1] == NatToDecimal(n / 10);
    }
  }

  /** `(string) $i` for an integer. */
  function IntToDecimal(i: int): (r: string)
    ensures |r| > 0
    ensures forall k :: 0 <= k < |r| ==> IsDigit(r[k]) || r[k] == '-'
  {
    if i < 0 then "-" + NatToDecimal(-i) else NatToDecimal(i)
  }

  /** Optional sign followed by decimal digits. */
  predicate IsSignedDigits(s: string) {
    if |s| > 0 && (s[0] == '-' || s[0] == '+') then |s| > 1 && AllDigits(s[1..])
    else |s| > 0 && AllDigits(s)
  }

  /** The value of a sign-and-digits string. */
  function ParseSigned(s: string): int
    requires IsSignedDigits(s)
  {
    if s[0] == '-' then -(DigitsValue(s[1..]) as int)
    else if s[0] == '+' then DigitsValue(s[1..])
    else DigitsValue(s)
  }

  /** The bytes PHP 8 allows around a numeric string: space, tab, LF, VT, FF and CR. */
  predicate IsWhitespace(c: char) {
    c == ' ' || 9 <= c as int <= 13
  }

  /** The string with its leading whitespace removed. */
  function TrimLeft(s: string): (r: string)
    ensures |r| <= |s|
    ensures |r| > 0 ==> !IsWhitespace(r[0])
    decreases |s|
  {
    if |s| > 0 && IsWhitespace(s[0]) then TrimLeft(s[1..]) else s
  }

  /** The string with its trailing whitespace removed. */
  function TrimRight(s: string): (r: string)
    ensures |r| <= |s|
    ensures |r| > 0 ==> !IsWhitespace(r[|r| - 1])
    decreases |s|
  {
    if |s| > 0 && IsWhitespace(s[|s| - 1]) then TrimRight(s[..|s| - 1]) else s
  }

  /**
    The integer strings PHP 8's `is_numeric` accepts: optional whitespace, an
    optional sign, decimal digits, optional whitespace. Fractions and
    exponents are not modelled.
   */
  predicate IsIntegerString(s: string) {
    IsSignedDigits(TrimRight(TrimLeft(s)))
  }

  /** `(int) $s` for an integer string: the surrounding whitespace is ignored. */
  function ParseInteger(s: string): int
    requires IsIntegerString(s)
  {
    ParseSigned(TrimRight(TrimLeft(s)))
  }

  /** Whitespace in front of text that does not start with whitespace is dropped by `TrimLeft`. */
  lemma {:induction false} TrimLeftPadding(pad: string, s: string)
    requires forall i :: 0 <= i < |pad| ==> IsWhitespace(pad[i])
    requires |s| > 0 && !IsWhitespace(s[0])
    ensures TrimLeft(pad + s) == s
    decreases |pad|
  {
    if |pad| > 0 {
      assert (pad + s)[1..] == pad[1..] + s;
      TrimLeftPadding(pad[1..], s);
    } else {
      assert pad + s == s;
    }
  }

  /** Whitespace after text that does not end in whitespace is dropped by `TrimRight`. */
  lemma {:induction false} TrimRightPadding(s: string, pad: string)
    requires forall i :: 0 <= i < |pad| ==> IsWhitespace(pad[i])
    requires |s| > 0 && !IsWhitespace(s[|s| - 1])
    ensures TrimRight(s + pad) == s
    decreases |pad|
  {
    if |pad| > 0 {
      assert (s + pad)[..|s + pad| - 1] == s + pad[..|pad| - 1];
      TrimRightPadding(s, pad[..|pad| - 1]);
    } else {
      assert s + pad == s;
    }
  }

  /** A sign-and-digits string padded with whitespace on both sides is numeric and casts to its value. */
  lemma PaddedIntegerString(before: string, s: string, after: string)
    requires forall i :: 0 <= i < |before| ==> IsWhitespace(before[i])
    requires forall i :: 0 <= i < |after| ==> IsWhitespace(after[i])
    requires IsSignedDigits(s)
    ensures IsIntegerString(before + s + after) && ParseInteger(before + s + after) == ParseSigned(s)
  {
    assert !IsWhitespace(s[|s| - 1]) by {
      if s[0] == '-' || s[0] == '+' {
        assert s[|s| - 1] == s[1..][|s| - 2];
      }
    }
    TrimLeftPadding(before, s + after);
    assert before + s + after == before + (s + after);
    TrimRightPadding(s, after);
  }

  /** Printing an integer and reading it back gives the integer. */
  lemma IntToDecimalRoundTrip(i: int)
    ensures IsIntegerString(IntToDecimal(i))
    ensures ParseInteger(IntToDecimal(i)) == i
  {
    var d := IntToDecimal(i);
    assert TrimLeft(d) == d by { assert !IsWhitespace(d[0]); }
    assert TrimRight(d) == d by { assert !IsWhitespace(d[|d| - 1]); }
    if i < 0 {
      NatToDecimalRoundTrip(-i);
      assert IntToDecimal(i)[1..] == NatToDecimal(-i);
    } else {
      NatToDecimalRoundTrip(i);
    }
  }

  /** Distinct integers print differently. */
  lemma IntToDecimalInjective(a: int, b: int)
    requires IntToDecimal(a) == IntToDecimal(b)
    ensures a == b
  {
    IntToDecimalRoundTrip(a);
    IntToDecimalRoundTrip(b);
  }

  /** `is_numeric($v)`, restricted to integers and integer strings. */
  predicate IsNumeric(v: Value) {
    v.VInt? || (v.VStr? && IsIntegerString(v.s))
  }

  /** `(int) $v` for a numeric value. */
  function IntCast(v: Value): int
    requires IsNumeric(v)
  {
    if v.VInt? then v.i else ParseInteger(v.s)
  }

  /**
    `$s > "0"` as PHP compares strings that are not numeric: byte by byte,
    a proper extension being greater.
   */
  predicate AboveZeroText(s: string) {
    |s| > 0 && (s[0] > '0' || (s[0] == '0' && |s| > 1))
  }

  /**
    `$v > 0` under PHP 8's comparison rules: a boolean compares as a boolean,
    a numeric string as its number, any other string as text against `"0"`,
    an array or object is greater than any integer and a resource compares
    by its id.
   */
  predicate GreaterThanZero(v: Value) {
    match v
    case VNull => false
    case VBool(b) => b
    case VInt(i) => i > 0
    case VStr(s) => if IsIntegerString(s) then ParseInteger(s) > 0 else AboveZeroText(s)
    case VArray(_) => true
    case VObject(_, _) => true
    case VResource(id, _) => id > 0
  }

  /** `(string) $k` for an array key. */
  function KeyText(k: Key): string {
    match k
    case IntKey(i) => IntToDecimal(i)
    case StrKey(s) => s
  }

  /**
    The text `"{$v}"` interpolates; `None` where PHP throws (an object whose
    class has no `__toString`). Arrays give `"Array"`.
   */
  function Interpolate(v: Value): Option<string> {
    match v
    case VNull => Some("")
    case VBool(b) => Some(if b then "1" else "")
    case VInt(i) => Some(IntToDecimal(i))
    case VStr(s) => Some(s)
    case VArray(_) => Some("Array")
    case VObject(_, text) => text
    case VResource(id, _) => Some("Resource id #" + NatToDecimal(id))
  }
}
