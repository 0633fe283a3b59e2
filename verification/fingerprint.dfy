/**
  The fingerprint generator: a SHA-256 digest of the exception's class, its
  normalised message, its file and its line, joined with `|`. SHA-256 is the
  parameter `hash`; that it yields 64 lower-case hex digits and that it is
  collision-free are stated as hypotheses where a property needs them.
 */
module Fingerprint {
  import opened Php
  import opened Throwables
  import Normalizer

  const Separator: string := "|"
  const ShortLength: nat := 16
  const DigestLength: nat := 64

  predicate IsLowerHex(c: char) {
    IsDigit(c) || ('a' <= c <= 'f')
  }

  /** What `hash('sha256', ...)` returns: 64 lower-case hex digits. */
  predicate IsDigest(s: string) {
    |s| == DigestLength && forall i :: 0 <= i < |s| ==> IsLowerHex(s[i])
  }

  ghost predicate ProducesDigests(hash: string -> string) {
    forall s :: IsDigest(hash(s))
  }

  ghost predicate Injective(hash: string -> string) {
    forall a, b :: hash(a) == hash(b) ==> a == b
  }

  /** The text that is hashed: `implode('|', [class, normalised message, file, (string) line])`. */
  function HashInput(cls: string, message: string, file: string, line: int): string {
    Join4(cls, Normalizer.Normalize(message), file, IntToDecimal(line))
  }

  /** `generate($exception)`. */
  function Generate(hash: string -> string, e: Throwable): (r: string)
    ensures ProducesDigests(hash) ==> IsDigest(r)
  {
    hash(HashInput(e.cls, e.message, e.file, e.line))
  }

  /** `generateShort($exception)`: `substr` of the first 16 bytes of the fingerprint. */
  function GenerateShort(hash: string -> string, e: Throwable): (r: string)
    ensures |r| <= ShortLength && |r| <= |Generate(hash, e)|
    ensures r == Generate(hash, e)[..|r|]
    ensures IsDigest(Generate(hash, e)) ==> |r| == ShortLength && forall i :: 0 <= i < |r| ==> IsLowerHex(r[i])
  {
    var full := Generate(hash, e);
    if |full| <= ShortLength then full else full[..ShortLength]
  }

  /** `createFingerprintData($exception)`: exactly these six fields. */
  datatype FingerprintData = FingerprintData(
    fingerprint: string,
    short: string,
    cls: string,
    message: string,
    file: string,
    line: int)

  function CreateFingerprintData(hash: string -> string, e: Throwable): (d: FingerprintData)
    ensures d.fingerprint == Generate(hash, e) && d.short == GenerateShort(hash, e)
    ensures |d.short| <= |d.fingerprint| && d.short == d.fingerprint[..|d.short|]
    ensures d.message == e.message
    ensures (d.cls, d.file, d.line) == (e.cls, e.file, e.line)
  {
    FingerprintData(Generate(hash, e), GenerateShort(hash, e), e.cls, e.message, e.file, e.line)
  }

  /** Two strings joined at a separator that the left parts do not contain split back uniquely. */
  lemma SplitAtFirstSeparator(x1: string, y1: string, x2: string, y2: string)
    requires forall i :: 0 <= i < |x1| ==> x1[i] != '|'
    requires forall i :: 0 <= i < |x2| ==> x2[i] != '|'
    requires x1 + Separator + y1 == x2 + Separator + y2
    ensures x1 == x2 && y1 == y2
  {
    var s := x1 + Separator + y1;
    assert s[|x1|] == '|' && s[|x2|] == '|';
    assert forall i :: 0 <= i < |x1| ==> s[i] == x1[i];
    assert forall i :: 0 <= i < |x2| ==> s[i] == x2[i];
    assert |x1| == |x2|;
    assert x1 == s[..|x1|] == x2;
    assert y1 == s[|x1| + 1..] == y2;
  }

  /** The mirror image: the right parts do not contain the separator. */
  lemma SplitAtLastSeparator(x1: string, y1: string, x2: string, y2: string)
    requires forall i :: 0 <= i < |y1| ==> y1[i] != '|'
    requires forall i :: 0 <= i < |y2| ==> y2[i] != '|'
    requires x1 + Separator + y1 == x2 + Separator + y2
    ensures x1 == x2 && y1 == y2
  {
    var s := x1 + Separator + y1;
    assert s[|x1|] == '|' && s[|x2|] == '|';
    assert forall i :: |x1| < i < |s| ==> s[i] == y1[i - |x1| - 1];
    assert forall i :: |x2| < i < |s| ==> s[i] == y2[i - |x2| - 1];
    assert |x1| == |x2|;
    assert x1 == s[..|x1|] == x2;
    assert y1 == s[|x1| + 1..] == y2;
  }

  predicate NoSeparator(s: string) {
    forall i :: 0 <= i < |s| ==> s[i] != '|'
  }

  /** Four fields joined with `|`. */
  function Join4(a: string, b: string, c: string, d: string): string {
    a + Separator + b + Separator + c + Separator + d
  }

  /** A `|`-join of four fields splits back uniquely when the first, third and fourth hold no `|`. */
  lemma {:induction false} Join4Injective(a1: string, b1: string, c1: string, d1: string,
                                          a2: string, b2: string, c2: string, d2: string)
    requires NoSeparator(a1) && NoSeparator(a2) && NoSeparator(c1) && NoSeparator(c2)
    requires NoSeparator(d1) && NoSeparator(d2)
    requires Join4(a1, b1, c1, d1) == Join4(a2, b2, c2, d2)
    ensures a1 == a2 && b1 == b2 && c1 == c2 && d1 == d2
  {
    var r1, r2 := b1 + Separator + c1, b2 + Separator + c2;
    assert Join4(a1, b1, c1, d1) == a1 + Separator + (r1 + Separator + d1);
    assert Join4(a2, b2, c2, d2) == a2 + Separator + (r2 + Separator + d2);
    SplitAtFirstSeparator(a1, r1 + Separator + d1, a2, r2 + Separator + d2);
    SplitAtLastSeparator(r1, d1, r2, d2);
    SplitAtLastSeparator(b1, c1, b2, c2);
  }

  /**
    The hashed text determines its four components when neither the class nor
    the file contains `|` (a class name never does; the decimal line never does).
   */
  lemma HashInputDeterminesComponents(cls1: string, m1: string, f1: string, l1: int,
                                      cls2: string, m2: string, f2: string, l2: int)
    requires NoSeparator(cls1) && NoSeparator(cls2) && NoSeparator(f1) && NoSeparator(f2)
    requires HashInput(cls1, m1, f1, l1) == HashInput(cls2, m2, f2, l2)
    ensures cls1 == cls2 && f1 == f2 && l1 == l2
    ensures Normalizer.Normalize(m1) == Normalizer.Normalize(m2)
  {
    var d1, d2 := IntToDecimal(l1), IntToDecimal(l2);
    assert NoSeparator(d1) && NoSeparator(d2);
    Join4Injective(cls1, Normalizer.Normalize(m1), f1, d1, cls2, Normalizer.Normalize(m2), f2, d2);
    IntToDecimalInjective(l1, l2);
  }

  /**
    With a collision-free hash, two exceptions get the same fingerprint exactly
    when they agree on class, normalised message, file and line; so a different
    class, file or line always gives a different fingerprint.
   */
  lemma FingerprintsEqualIffComponentsEqual(hash: string -> string, e1: Throwable, e2: Throwable)
    requires Injective(hash)
    requires NoSeparator(e1.cls) && NoSeparator(e2.cls) && NoSeparator(e1.file) && NoSeparator(e2.file)
    ensures Generate(hash, e1) == Generate(hash, e2) <==>
            (&& e1.cls == e2.cls && e1.file == e2.file && e1.line == e2.line
             && Normalizer.Normalize(e1.message) == Normalizer.Normalize(e2.message))
  {
    if Generate(hash, e1) == Generate(hash, e2) {
      HashInputDeterminesComponents(e1.cls, e1.message, e1.file, e1.line, e2.cls, e2.message, e2.file, e2.line);
    }
  }

  /** Exceptions differing only in one UUID inside the message share a fingerprint. */
  lemma UuidVariantsShareFingerprint(hash: string -> string, e: Throwable, a: string, u1: string, u2: string, b: string)
    requires Normalizer.IsUuid(u1) && Normalizer.IsUuid(u2)
    requires |a| == 0 || !Normalizer.IsUuidChar(a[|a| - 1])
    ensures Generate(hash, e.(message := a + u1 + b)) == Generate(hash, e.(message := a + u2 + b))
  {
    Normalizer.UuidVariantsNormalizeAlike(a, u1, u2, b);
  }
}
