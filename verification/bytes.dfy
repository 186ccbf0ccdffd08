/**
 * PHP strings are byte strings. A byte is modelled as a character whose code
 * is below 256, so that string literals can be written directly.
 */
module ByteStrings {

  type Byte = c: char | c as int < 256 witness 'A'

  type Bytes = seq<Byte>

  /** `prefix` is a prefix of `s`. */
  predicate IsPrefix(prefix: Bytes, s: Bytes) {
    |prefix| <= |s| && s[..|prefix|] == prefix
  }

  /**
   * PHP's `strcmp` ordering: unsigned byte by byte, a proper prefix sorts
   * first. `StrLess(a, b)` holds exactly when `strcmp(a, b) < 0`.
   */
  predicate StrLess(a: Bytes, b: Bytes) {
    if |a| == 0 then |b| > 0
    else if |b| == 0 then false
    else if a[0] != b[0] then a[0] < b[0]
    else StrLess(a[1..], b[1..])
  }

  lemma {:induction false} StrLessIrreflexive(a: Bytes)
    ensures !StrLess(a, a)
  {
    if |a| > 0 {
      StrLessIrreflexive(a[1..]);
    }
  }

  lemma {:induction false} StrLessTransitive(a: Bytes, b: Bytes, c: Bytes)
    requires StrLess(a, b) && StrLess(b, c)
    ensures StrLess(a, c)
  {
    if |a| > 0 && |b| > 0 && |c| > 0 && a[0] == b[0] && b[0] == c[0] {
      StrLessTransitive(a[1..], b[1..], c[1..]);
    }
  }

  lemma {:induction false} StrLessTotal(a: Bytes, b: Bytes)
    requires a != b
    ensures StrLess(a, b) != StrLess(b, a)
  {
    if |a| > 0 && |b| > 0 && a[0] == b[0] {
      assert a == [a[0]] + a[1..] && b == [b[0]] + b[1..];
      StrLessTotal(a[1..], b[1..]);
    }
  }
}
