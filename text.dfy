/** String helpers standing for the Python built-ins the monitor relies on:
    `str.lower`, the substring test `needle in hay`, and the decimal text of an
    integer that an f-string produces. */
module Text {

  /** `str.lower` on one character. Only the ASCII letters are mapped. */
  function LowerChar(c: char): char {
    if 'A' <= c <= 'Z' then (c as int - 'A' as int + 'a' as int) as char else c
  }

  /** `s.lower()`: every character lowered, nothing added or removed. */
  function Lower(s: string): (r: string)
    ensures |r| == |s|
    ensures forall k :: 0 <= k < |s| ==> r[k] == LowerChar(s[k])
  {
    if s == [] then [] else [LowerChar(s[0])] + Lower(s[1..])
  }

  /** Lowering a concatenation lowers each part. */
  lemma LowerConcat(x: string, y: string)
    ensures Lower(x + y) == Lower(x) + Lower(y)
  {
    assert forall k :: 0 <= k < |x + y| ==> Lower(x + y)[k] == (Lower(x) + Lower(y))[k];
  }

  /** Lowering twice is the same as lowering once. */
  lemma LowerIdempotent(s: string)
    ensures Lower(Lower(s)) == Lower(s)
  {
    assert forall k :: 0 <= k < |s| ==> Lower(Lower(s))[k] == Lower(s)[k];
  }

  /** Python's `needle in hay` on strings, written as a search from the left. */
  predicate Occurs(needle: string, hay: string)
    decreases |hay|
  {
    needle <= hay || (hay != [] && Occurs(needle, hay[1..]))
  }

  /** `needle` is the slice of `hay` that starts at offset `i`. */
  predicate OccursAt(needle: string, hay: string, i: int) {
    0 <= i && i + |needle| <= |hay| && hay[i..i + |needle|] == needle
  }

  lemma {:induction false} OccursHasOffset(needle: string, hay: string)
    requires Occurs(needle, hay)
    ensures exists i :: OccursAt(needle, hay, i)
    decreases |hay|
  {
    if needle <= hay {
      assert OccursAt(needle, hay, 0);
    } else {
      OccursHasOffset(needle, hay[1..]);
      var i :| OccursAt(needle, hay[1..], i);
      assert hay[1..][i..i + |needle|] == hay[i + 1..i + 1 + |needle|];
      assert OccursAt(needle, hay, i + 1);
    }
  }

  lemma {:induction false} OffsetGivesOccurs(needle: string, hay: string, i: int)
    requires OccursAt(needle, hay, i)
    ensures Occurs(needle, hay)
    decreases i
  {
    if i == 0 {
      assert hay[..|needle|] == needle;
    } else {
      assert hay[1..][i - 1..i - 1 + |needle|] == hay[i..i + |needle|];
      OffsetGivesOccurs(needle, hay[1..], i - 1);
    }
  }

  /** The search agrees with the textbook definition of a substring. */
  lemma OccursIff(needle: string, hay: string)
    ensures Occurs(needle, hay) <==> exists i :: OccursAt(needle, hay, i)
  {
    if Occurs(needle, hay) {
      OccursHasOffset(needle, hay);
    }
    if exists i :: OccursAt(needle, hay, i) {
      var i :| OccursAt(needle, hay, i);
      OffsetGivesOccurs(needle, hay, i);
    }
  }

  /** Whatever is concatenated around a string, the string is still found in the result. */
  lemma OccursInside(x: string, y: string, z: string)
    ensures Occurs(y, x + y + z)
  {
    var hay := x + y + z;
    assert hay[|x|..|x| + |y|] == y;
    OffsetGivesOccurs(y, hay, |x|);
  }

  /** A string is found at the end of anything it is appended to. */
  lemma OccursAtEnd(x: string, y: string)
    ensures Occurs(y, x + y)
  {
    assert (x + y)[|x|..|x| + |y|] == y;
    OffsetGivesOccurs(y, x + y, |x|);
  }

  /** When `pre + x` begins `y`, then `x` sits in `head + y + tail` right after `head + pre`. */
  lemma OccursAfterPrefix(head: string, pre: string, x: string, y: string, tail: string)
    requires pre + x <= y
    ensures OccursAt(x, head + y + tail, |head| + |pre|)
  {
    var s := head + y + tail;
    forall k | 0 <= k < |x|
      ensures x[k] == s[|head| + |pre| + k]
    {
      assert x[k] == (pre + x)[|pre| + k] == y[|pre| + k];
    }
    assert s[|head| + |pre|..|head| + |pre| + |x|] == x;
  }

  /** A substring of a substring is a substring. */
  lemma OccursTransitive(x: string, y: string, z: string)
    requires Occurs(x, y) && Occurs(y, z)
    ensures Occurs(x, z)
  {
    OccursHasOffset(x, y);
    OccursHasOffset(y, z);
    var i :| OccursAt(x, y, i);
    var j :| OccursAt(y, z, j);
    forall k | 0 <= k < |x|
      ensures x[k] == z[j + i + k]
    {
      assert x[k] == y[i..i + |x|][k] == y[i + k];
      assert y[i + k] == z[j..j + |y|][i + k] == z[j + i + k];
    }
    assert z[j + i..j + i + |x|] == x;
    OffsetGivesOccurs(x, z, j + i);
  }

  predicate IsDigit(c: char) { '0' <= c <= '9' }

  function DigitChar(d: nat): (c: char)
    requires d < 10
    ensures IsDigit(c)
  {
    ('0' as int + d) as char
  }

  /** The text `f"{n}"` gives for a non-negative integer: decimal digits, no leading zero. */
  function NatToString(n: nat): (r: string)
    ensures |r| >= 1
    ensures forall k :: 0 <= k < |r| ==> IsDigit(r[k])
    ensures |r| > 1 ==> r[0] != '0'
  {
    if n < 10 then [DigitChar(n)] else NatToString(n / 10) + [DigitChar(n % 10)]
  }

  /** Reading a string of decimal digits back as a number. */
  function DecimalValue(s: string): nat
    requires forall k :: 0 <= k < |s| ==> IsDigit(s[k])
  {
    if s == [] then 0
    else
      assert IsDigit(s[|s| - 1]);
      DecimalValue(s[..|s| - 1]) * 10 + (s[|s| - 1] as int - '0' as int)
  }

  /** The decimal text of a number reads back as that number, so distinct numbers get distinct text. */
  lemma {:induction false} DecimalRoundTrip(n: nat)
    ensures DecimalValue(NatToString(n)) == n
  {
    if n >= 10 {
      DecimalRoundTrip(n / 10);
      var s := NatToString(n);
      assert s[..|s| - 1] == NatToString(n / 10);
    }
  }
}
