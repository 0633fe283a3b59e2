/**
  Message normalisation of the fingerprint generator: five global regular
  expression replacements applied in order, each written out as a scanner with
  PCRE's leftmost, greedy, non-overlapping semantics for its pattern:

    1. `/[0-9a-f]{8}-[0-9a-f]{4}-[0-9a-f]{4}-[0-9a-f]{4}-[0-9a-f]{12}/i` -> `{uuid}`
    2. `/\b\d{5,}\b/`                                          -> `{id}`
    3. `/\d{4}-\d{2}-\d{2}[T\s]\d{2}:\d{2}:\d{2}/`             -> `{timestamp}`
    4. `/[a-zA-Z0-9._%+-]+@[a-zA-Z0-9.-]+\.[a-zA-Z]{2,}/`      -> `{email}`
    5. `/\d{1,3}\.\d{1,3}\.\d{1,3}\.\d{1,3}/`                  -> `{ip}`

  Each pass works on the output of the previous one. Without the `u` flag,
  `\d`, `\s` and `\b` are ASCII notions.
 */
module Normalizer {
  import opened Wrappers
  import opened Php

  const UuidToken: string := "{uuid}"
  const IdToken: string := "{id}"
  const TimestampToken: string := "{timestamp}"
  const EmailToken: string := "{email}"
  const IpToken: string := "{ip}"

  /** `[0-9a-f]` under the `i` flag. */
  predicate IsHex(c: char) {
    IsDigit(c) || ('a' <= c <= 'f') || ('A' <= c <= 'F')
  }

  /** The bytes a UUID match is made of. */
  predicate IsUuidChar(c: char) {
    IsHex(c) || c == '-'
  }

  /** `\w`: ASCII letters, digits and underscore. */
  predicate IsWordChar(c: char) {
    IsLetter(c) || IsDigit(c) || c == '_'
  }

  /** `\s`: space, tab, line feed, vertical tab, form feed, carriage return. */
  predicate IsSpace(c: char) {
    c == ' ' || c == '\t' || c == '\n' || c == '\r' || c as int == 11 || c as int == 12
  }

  predicate IsLocalChar(c: char) {
    IsLetter(c) || IsDigit(c) || c == '.' || c == '_' || c == '%' || c == '+' || c == '-'
  }

  predicate IsDomainChar(c: char) {
    IsLetter(c) || IsDigit(c) || c == '.' || c == '-'
  }

  /** The length of the longest prefix of `s` whose bytes all satisfy `p`. */
  function LeadingRun(s: string, p: char -> bool): (n: nat)
    ensures n <= |s|
    ensures forall i :: 0 <= i < n ==> p(s[i])
    ensures n < |s| ==> !p(s[n])
    decreases |s|
  {
    if |s| == 0 || !p(s[0]) then 0 else 1 + LeadingRun(s[1..], p)
  }

  /** A matcher reports the length of the match starting at the first byte, if any. */
  ghost predicate ValidMatcher(m: string -> Option<nat>) {
    forall t :: m(t).Some? ==> 0 < m(t).value <= |t|
  }

  /**
    A global replacement of a pattern without look-behind: try a match at the
    current position; on success emit the token and resume after the match,
    otherwise copy one byte and move on.
   */
  function ScanPass(s: string, m: string -> Option<nat>, token: string): string
    requires ValidMatcher(m)
    decreases |s|
  {
    if |s| == 0 then s
    else match m(s)
      case Some(n) => token + ScanPass(s[n..], m, token)
      case None => [s[0]] + ScanPass(s[1..], m, token)
  }

  /** Where the pattern matches at no position, the pass changes nothing. */
  lemma {:induction false} ScanPassIdentity(s: string, m: string -> Option<nat>, token: string)
    requires ValidMatcher(m)
    requires forall i :: 0 <= i <= |s| ==> m(s[i..]).None?
    ensures ScanPass(s, m, token) == s
    decreases |s|
  {
    if |s| > 0 {
      assert m(s[0..]).None? && s[0..] == s;
      forall i | 0 <= i <= |s[1..]|
        ensures m(s[1..][i..]).None?
      {
        assert s[1..][i..] == s[i + 1..];
      }
      ScanPassIdentity(s[1..], m, token);
    }
  }

  // ---- 1. UUIDs ------------------------------------------------------------

  predicate IsUuid(w: string) {
    && |w| == 36
    && forall i :: 0 <= i < 36 ==>
         if i == 8 || i == 13 || i == 18 || i == 23 then w[i] == '-' else IsHex(w[i])
  }

  function UuidMatch(s: string): (r: Option<nat>)
    ensures r.Some? ==> r.value == 36 && 36 <= |s| && IsUuid(s[..36])
  {
    if |s| >= 36 && IsUuid(s[..36]) then Some(36) else None
  }

  function UuidPass(s: string): string {
    ScanPass(s, UuidMatch, UuidToken)
  }

  // ---- 2. Numeric ids ------------------------------------------------------

  /**
    `\b\d{5,}\b`: a maximal run of at least five digits with no word byte on
    either side. `afterWord` tells whether the byte before `s` in the subject
    is a word byte; `\b` looks at the subject, not at the replaced output.
   */
  function IdPass(s: string, afterWord: bool): string
    decreases |s|
  {
    if |s| == 0 then s
    else
      var n := LeadingRun(s, IsDigit);
      if !afterWord && n >= 5 && (n == |s| || !IsWordChar(s[n])) then IdToken + IdPass(s[n..], true)
      else [s[0]] + IdPass(s[1..], IsWordChar(s[0]))
  }

  // ---- 3. Timestamps -------------------------------------------------------

  predicate IsTimestamp(w: string) {
    && |w| == 19
    && IsDigit(w[0]) && IsDigit(w[1]) && IsDigit(w[2]) && IsDigit(w[3]) && w[4] == '-'
    && IsDigit(w[5]) && IsDigit(w[6]) && w[7] == '-'
    && IsDigit(w[8]) && IsDigit(w[9])
    && (w[10] == 'T' || IsSpace(w[10]))
    && IsDigit(w[11]) && IsDigit(w[12]) && w[13] == ':'
    && IsDigit(w[14]) && IsDigit(w[15]) && w[16] == ':'
    && IsDigit(w[17]) && IsDigit(w[18])
  }

  function TimestampMatch(s: string): (r: Option<nat>)
    ensures r.Some? ==> r.value == 19 && 19 <= |s| && IsTimestamp(s[..19])
  {
    if |s| >= 19 && IsTimestamp(s[..19]) then Some(19) else None
  }

  function TimestampPass(s: string): string {
    ScanPass(s, TimestampMatch, TimestampToken)
  }

  // ---- 4. E-mail addresses -------------------------------------------------

  /**
    The backtracking of `[a-zA-Z0-9.-]+\.` settles on the LAST dot of the
    domain run (searching down from `hi`, not below `lo`) that is followed by
    at least two letters.
   */
  function LastTldDot(s: string, lo: nat, hi: nat): (r: Option<nat>)
    requires hi <= |s|
    ensures r.Some? ==> lo <= r.value < hi && s[r.value] == '.' && LeadingRun(s[r.value + 1..], IsLetter) >= 2
    decreases hi
  {
    if hi <= lo then None
    else if s[hi - 1] == '.' && LeadingRun(s[hi..], IsLetter) >= 2 then Some(hi - 1)
    else LastTldDot(s, lo, hi - 1)
  }

  /**
    An e-mail match at the first byte: the local part must run up to an `@`
    (the class excludes `@`, so backtracking cannot help), the domain part is
    at least one byte, and the top-level part takes every letter after the dot.
   */
  function EmailMatch(s: string): (r: Option<nat>)
    ensures r.Some? ==> 0 < r.value <= |s|
    ensures r.Some? ==> exists j :: 0 <= j < |s| && s[j] == '@'
  {
    var l := LeadingRun(s, IsLocalChar);
    if l == 0 || l == |s| || s[l] != '@' then None
    else
      var d := LeadingRun(s[l + 1..], IsDomainChar);
      match LastTldDot(s, l + 2, l + 1 + d)
      case None => None
      case Some(q) =>
        Some(q + 1 + LeadingRun(s[q + 1..], IsLetter))
  }

  function EmailPass(s: string): string {
    ScanPass(s, EmailMatch, EmailToken)
  }

  // ---- 5. IPv4 addresses ---------------------------------------------------

  /**
    `\d{1,3}\.` at the first byte. The greedy `\d{1,3}` is followed by a dot
    only when the digit run is at most three long.
   */
  function OctetDot(s: string): (r: Option<nat>)
    ensures r.Some? ==> 2 <= r.value <= |s| && IsDigit(s[0])
  {
    var k := LeadingRun(s, IsDigit);
    if 1 <= k <= 3 && k < |s| && s[k] == '.' then Some(k + 1) else None
  }

  /** Three octet-and-dot groups and a final run of one to three digits. */
  function IpMatch(s: string): (r: Option<nat>)
    ensures r.Some? ==> 0 < r.value <= |s| && IsDigit(s[0])
  {
    match OctetDot(s)
    case None => None
    case Some(a) =>
      match OctetDot(s[a..])
      case None => None
      case Some(b) =>
        match OctetDot(s[a + b..])
        case None => None
        case Some(c) =>
          var k := LeadingRun(s[a + b + c..], IsDigit);
          if k == 0 then None else Some(a + b + c + Min(k, 3))
  }

  function Min(a: int, b: int): int {
    if a <= b then a else b
  }

  function IpPass(s: string): string {
    ScanPass(s, IpMatch, IpToken)
  }

  // ---- The whole normalisation ---------------------------------------------

  /** The bytes without which none of the five patterns can match. */
  predicate HasTriggerByte(s: string) {
    exists i :: 0 <= i < |s| && (IsDigit(s[i]) || s[i] == '-' || s[i] == '@')
  }

  /** `normalizeMessage`: the five replacements in their fixed order. */
  function Normalize(message: string): (r: string)
    ensures !HasTriggerByte(message) ==> r == message
  {
    var r := IpPass(EmailPass(TimestampPass(IdPass(UuidPass(message), false))));
    if HasTriggerByte(message) then r
    else NormalizeIdentity(message); r
  }

  /** Every pass leaves a message without digits, `-` and `@` untouched. */
  lemma NormalizeIdentity(message: string)
    requires !HasTriggerByte(message)
    ensures IpPass(EmailPass(TimestampPass(IdPass(UuidPass(message), false)))) == message
  {
    var s := message;
    forall i | 0 <= i <= |s|
      ensures UuidMatch(s[i..]).None? && TimestampMatch(s[i..]).None?
      ensures EmailMatch(s[i..]).None? && IpMatch(s[i..]).None?
    {
      var t := s[i..];
      assert |t| >= 36 ==> t[..36][8] == s[i + 8];
      assert |t| >= 19 ==> t[..19][0] == s[i];
      assert |t| > 0 ==> t[0] == s[i];
      assert forall j :: 0 <= j < |t| ==> t[j] == s[i + j];
    }
    ScanPassIdentity(s, UuidMatch, UuidToken);
    IdPassIdentity(s, false);
    ScanPassIdentity(s, TimestampMatch, TimestampToken);
    ScanPassIdentity(s, EmailMatch, EmailToken);
    ScanPassIdentity(s, IpMatch, IpToken);
  }

  /** Without digits there is no numeric id to replace. */
  lemma {:induction false} IdPassIdentity(s: string, afterWord: bool)
    requires forall i :: 0 <= i < |s| ==> !IsDigit(s[i])
    ensures IdPass(s, afterWord) == s
    decreases |s|
  {
    if |s| > 0 {
      IdPassIdentity(s[1..], IsWordChar(s[0]));
    }
  }

  /** Whether a UUID starts at the front of `a + t` is decided inside `a` when `a` ends in a non-UUID byte. */
  lemma UuidMatchBeforeBarrier(a: string, t: string)
    requires |a| > 0 && !IsUuidChar(a[|a| - 1])
    ensures UuidMatch(a + t) == UuidMatch(a)
    ensures UuidMatch(a).Some? ==> |a| > 36
  {
    var s := a + t;
    var last := a[|a| - 1];
    assert |a| <= 36 <= |s| ==> s[..36][|a| - 1] == last;
    assert |a| == 36 ==> a[35] == last;
    assert |a| > 36 ==> s[..36] == a[..36];
  }

  /**
    A UUID window never straddles a byte that cannot occur in a UUID, so the
    pass distributes over a split just after such a byte.
   */
  lemma {:induction false} UuidPassSplit(a: string, t: string)
    requires |a| == 0 || !IsUuidChar(a[|a| - 1])
    ensures UuidPass(a + t) == UuidPass(a) + UuidPass(t)
    decreases |a|
  {
    if |a| == 0 {
      assert a + t == t;
    } else {
      var s := a + t;
      UuidMatchBeforeBarrier(a, t);
      if UuidMatch(a).Some? {
        assert s[36..] == a[36..] + t;
        UuidPassSplit(a[36..], t);
      } else {
        assert s[1..] == a[1..] + t;
        UuidPassSplit(a[1..], t);
      }
    }
  }

  /** A UUID followed by anything is replaced by the UUID token. */
  lemma UuidPassAtUuid(u: string, b: string)
    requires IsUuid(u)
    ensures UuidPass(u + b) == UuidToken + UuidPass(b)
  {
    assert (u + b)[..36] == u;
    assert (u + b)[36..] == b;
  }

  /**
    Messages that differ only in one UUID-shaped substring normalise alike,
    provided the byte before the UUID cannot itself belong to a UUID.
   */
  lemma UuidVariantsNormalizeAlike(a: string, u1: string, u2: string, b: string)
    requires IsUuid(u1) && IsUuid(u2)
    requires |a| == 0 || !IsUuidChar(a[|a| - 1])
    ensures Normalize(a + u1 + b) == Normalize(a + u2 + b)
  {
    UuidPassSplit(a, u1 + b);
    UuidPassSplit(a, u2 + b);
    UuidPassAtUuid(u1, b);
    UuidPassAtUuid(u2, b);
    assert a + u1 + b == a + (u1 + b);
    assert a + u2 + b == a + (u2 + b);
    assert UuidPass(a + u1 + b) == UuidPass(a + u2 + b);
  }
}
