/**
 * The PHP string built-ins the client relies on: `explode`, `implode`,
 * `end(explode(...))`, `strpos` and the decimal rendering of an integer by
 * `sprintf('%s', $n)`.
 */
module Text {
  import opened Wrappers
  import opened ByteStrings

  /** `explode(d, s)`: the pieces of `s` between occurrences of `d`. */
  function Split(s: Bytes, d: Byte): (r: seq<Bytes>)
    ensures |r| >= 1
    ensures forall i :: 0 <= i < |r| ==> d !in r[i]
    decreases |s|
  {
    if |s| == 0 then [[]]
    else
      var rest := Split(s[1..], d);
      if s[0] == d then [[]] + rest
      else [[s[0]] + rest[0]] + rest[1..]
  }

  /** `implode(d, xs)`: the pieces joined with `d` between them. */
  function Join(xs: seq<Bytes>, d: Byte): Bytes
  {
    if |xs| == 0 then []
    else if |xs| == 1 then xs[0]
    else xs[0] + [d] + Join(xs[1..], d)
  }

  /** Joining the pieces of a split gives back the original string. */
  lemma {:induction false} JoinSplit(s: Bytes, d: Byte)
    ensures Join(Split(s, d), d) == s
  {
    if |s| > 0 {
      var rest := Split(s[1..], d);
      JoinSplit(s[1..], d);
      if s[0] == d {
        assert Split(s, d) == [[]] + rest;
        assert Join([[]] + rest, d) == [] + [d] + Join(rest, d);
      } else if |rest| == 1 {
        assert Split(s, d) == [[s[0]] + rest[0]];
      } else {
        assert Split(s, d) == [[s[0]] + rest[0]] + rest[1..];
        assert Join(rest, d) == rest[0] + [d] + Join(rest[1..], d);
        assert ([[s[0]] + rest[0]] + rest[1..])[1..] == rest[1..];
      }
    }
  }

  lemma {:induction false} SplitWithoutDelimiter(s: Bytes, d: Byte)
    requires d !in s
    ensures Split(s, d) == [s]
  {
    if |s| > 0 {
      SplitWithoutDelimiter(s[1..], d);
      assert [s[0]] + s[1..] == s;
    }
  }

  lemma {:induction false} SplitAfterPiece(a: Bytes, t: Bytes, d: Byte)
    requires d !in a
    ensures Split(a + [d] + t, d) == [a] + Split(t, d)
  {
    var s := a + [d] + t;
    if |a| == 0 {
      assert s[0] == d && s[1..] == t;
    } else {
      assert s[0] == a[0] && s[1..] == a[1..] + [d] + t;
      SplitAfterPiece(a[1..], t, d);
      assert [a[0]] + a[1..] == a;
    }
  }

  /** Splitting a join of pieces that do not contain `d` gives the pieces back. */
  lemma {:induction false} SplitJoin(xs: seq<Bytes>, d: Byte)
    requires |xs| >= 1
    requires forall i :: 0 <= i < |xs| ==> d !in xs[i]
    ensures Split(Join(xs, d), d) == xs
  {
    if |xs| == 1 {
      SplitWithoutDelimiter(xs[0], d);
    } else {
      SplitJoin(xs[1..], d);
      SplitAfterPiece(xs[0], Join(xs[1..], d), d);
      assert [xs[0]] + xs[1..] == xs;
    }
  }

  lemma {:induction false} SeveralPiecesHaveDelimiter(s: Bytes, d: Byte)
    requires |Split(s, d)| >= 2
    ensures d in s
  {
    if s[0] != d {
      SeveralPiecesHaveDelimiter(s[1..], d);
    }
  }

  /** `end(explode(d, s))`: the last piece of `s`. */
  function LastSegment(s: Bytes, d: Byte): Bytes
  {
    var pieces := Split(s, d);
    pieces[|pieces| - 1]
  }

  /**
   * The last piece is the text after the last `d` of `s`, or all of `s`
   * when `s` has no `d`.
   */
  lemma {:induction false} LastSegmentIsTail(s: Bytes, d: Byte)
    ensures var v := LastSegment(s, d);
      && d !in v
      && |v| <= |s|
      && s[|s| - |v|..] == v
      && (|v| == |s| || s[|s| - |v| - 1] == d)
  {
    if |s| > 0 {
      var t := s[1..];
      var rest := Split(t, d);
      var v := LastSegment(s, d);
      if s[0] != d && |rest| == 1 {
        JoinSplit(t, d);
        assert Split(s, d) == [[s[0]] + rest[0]];
        assert v == [s[0]] + t == s;
      } else {
        var w := LastSegment(t, d);
        assert Split(s, d)[|Split(s, d)| - 1] == rest[|rest| - 1];
        assert v == w;
        LastSegmentIsTail(t, d);
        assert s[|s| - |v|..] == t[|t| - |w|..];
        if s[0] != d {
          SeveralPiecesHaveDelimiter(t, d);
          assert |w| < |t|;
          assert s[|s| - |v| - 1] == t[|t| - |w| - 1];
        }
      }
    }
  }

  /** `needle` occurs in `hay` starting at index `j`. */
  predicate OccursAt(hay: Bytes, needle: Bytes, j: nat) {
    j + |needle| <= |hay| && hay[j..j + |needle|] == needle
  }

  /** `needle` occurs somewhere in `hay`. */
  ghost predicate Contains(hay: Bytes, needle: Bytes) {
    exists j: nat :: OccursAt(hay, needle, j)
  }

  function StrPosFrom(hay: Bytes, needle: Bytes, from: nat): (r: Option<nat>)
    requires from <= |hay|
    ensures r.Some? ==> from <= r.value && OccursAt(hay, needle, r.value)
    ensures r.Some? ==> forall j: nat :: from <= j < r.value ==> !OccursAt(hay, needle, j)
    ensures r.None? ==> forall j: nat :: from <= j ==> !OccursAt(hay, needle, j)
    decreases |hay| - from
  {
    if OccursAt(hay, needle, from) then Some(from)
    else if from == |hay| then None
    else StrPosFrom(hay, needle, from + 1)
  }

  /** `strpos(hay, needle)`: the first index at which `needle` occurs. */
  function StrPos(hay: Bytes, needle: Bytes): (r: Option<nat>)
    ensures r.Some? ==> OccursAt(hay, needle, r.value)
    ensures r.Some? ==> forall j: nat :: j < r.value ==> !OccursAt(hay, needle, j)
    ensures r.None? <==> !Contains(hay, needle)
  {
    StrPosFrom(hay, needle, 0)
  }

  /** The ASCII digit for `n`. */
  function Digit(n: nat): (c: Byte)
    requires n < 10
  {
    (('0' as int) + n) as char
  }

  /** `sprintf('%s', $n)` for a non-negative integer: its decimal digits. */
  function DecimalString(n: nat): (r: Bytes)
    ensures |r| >= 1
    decreases n
  {
    if n < 10 then [Digit(n)] else DecimalString(n / 10) + [Digit(n % 10)]
  }

  /** Reading a string of decimal digits back as a number. */
  function DecimalValue(s: Bytes): int
  {
    if |s| == 0 then 0
    else DecimalValue(s[..|s| - 1]) * 10 + (s[|s| - 1] as int - '0' as int)
  }

  lemma {:induction false} DecimalRoundTrip(n: nat)
    ensures DecimalValue(DecimalString(n)) == n
  {
    if n >= 10 {
      DecimalRoundTrip(n / 10);
      var s := DecimalString(n);
      assert s[..|s| - 1] == DecimalString(n / 10);
    }
  }

  /** Different numbers render differently. */
  lemma DecimalStringInjective(n: nat, m: nat)
    requires DecimalString(n) == DecimalString(m)
    ensures n == m
  {
    DecimalRoundTrip(n);
    DecimalRoundTrip(m);
  }
}
