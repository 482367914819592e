/** Sequence operations the monitor's list code is built from: slicing a prefix
    (`xs[:n]`), keeping the elements that pass a test (an append loop guarded by
    an `if`), and accumulating numbered pieces of text (`for i, x in enumerate(xs, 1): out += ...`). */
module Lists {
  import opened Text

  /** `s[:n]` in Python. */
  function Take<T>(s: seq<T>, n: nat): (r: seq<T>)
    ensures r <= s
    ensures |r| == if |s| <= n then |s| else n
  {
    if |s| <= n then s else s[..n]
  }

  /** The elements of `s` that satisfy `p`, in their original order. */
  function Filter<T>(s: seq<T>, p: T -> bool): (r: seq<T>)
    ensures |r| <= |s|
    ensures forall x :: x in r ==> x in s && p(x)
  {
    if s == [] then []
    else
      var init := Filter(s[..|s| - 1], p);
      assert forall x :: x in init ==> x in s;
      if p(s[|s| - 1]) then init + [s[|s| - 1]] else init
  }

  /** The indices at which `Filter` finds the elements it keeps. */
  function Positions<T>(s: seq<T>, p: T -> bool): (r: seq<nat>)
    ensures |r| == |Filter(s, p)|
    ensures forall k :: 0 <= k < |r| ==> r[k] < |s| && s[r[k]] == Filter(s, p)[k]
    ensures forall k, l :: 0 <= k < l < |r| ==> r[k] < r[l]
  {
    if s == [] then []
    else
      var init := Positions(s[..|s| - 1], p);
      if p(s[|s| - 1]) then init + [|s| - 1] else init
  }

  lemma {:induction false} FilterAppend<T>(a: seq<T>, b: seq<T>, p: T -> bool)
    ensures Filter(a + b, p) == Filter(a, p) + Filter(b, p)
    decreases |b|
  {
    if b == [] {
      assert a + b == a;
    } else {
      var b' := b[..|b| - 1];
      assert (a + b)[..|a + b| - 1] == a + b';
      FilterAppend(a, b', p);
    }
  }

  /** Nothing is kept when no element passes. */
  lemma FilterNone<T>(s: seq<T>, p: T -> bool)
    requires forall x :: x in s ==> !p(x)
    ensures Filter(s, p) == []
  {
    if Filter(s, p) != [] {
      assert Filter(s, p)[0] in Filter(s, p);
    }
  }

  /** An element that passes the test sits in the filtered list right after
      the ones kept before it. */
  lemma FilterAt<T>(s: seq<T>, p: T -> bool, j: int)
    requires 0 <= j < |s| && p(s[j])
    ensures |Filter(s[..j], p)| < |Filter(s, p)|
    ensures Filter(s, p)[|Filter(s[..j], p)|] == s[j]
  {
    assert s == s[..j] + [s[j]] + s[j + 1..];
    FilterAppend(s[..j] + [s[j]], s[j + 1..], p);
    FilterAppend(s[..j], [s[j]], p);
    assert Filter([s[j]], p) == [s[j]] by {
      assert [s[j]][..0] == [];
    }
  }

  /** `f` maps each element of `x` to an increasing position in `y` holding the same value. */
  ghost predicate Embeds<T>(f: seq<nat>, x: seq<T>, y: seq<T>) {
    && |f| == |x|
    && (forall k :: 0 <= k < |f| ==> f[k] < |y| && x[k] == y[f[k]])
    && (forall k, l :: 0 <= k < l < |f| ==> f[k] < f[l])
  }

  /** `x` is `y` with some elements deleted and the rest left in order. */
  ghost predicate IsSubsequence<T>(x: seq<T>, y: seq<T>) {
    exists f :: Embeds(f, x, y)
  }

  lemma FilterIsSubsequence<T>(s: seq<T>, p: T -> bool)
    ensures IsSubsequence(Filter(s, p), s)
  {
    assert Embeds(Positions(s, p), Filter(s, p), s);
  }

  lemma PrefixIsSubsequence<T>(x: seq<T>, y: seq<T>, n: nat)
    requires IsSubsequence(x, y) && n <= |x|
    ensures IsSubsequence(x[..n], y)
  {
    var f :| Embeds(f, x, y);
    assert Embeds(f[..n], x[..n], y);
  }

  /** A prefix stays a prefix when the same text is put in front and more text after. */
  lemma PrefixInside<T>(head: seq<T>, x: seq<T>, y: seq<T>, tail: seq<T>)
    requires x <= y
    ensures head + x <= head + y + tail
  {
    assert (head + y + tail)[..|head + x|] == head + x;
  }

  /** `f(1, s[0]) + f(2, s[1]) + ... + f(|s|, s[|s| - 1])`: what
      `for i, x in enumerate(s, 1): out += f(i, x)` accumulates, starting from "". */
  function Numbered<T>(s: seq<T>, f: (nat, T) -> string): string {
    if s == [] then "" else Numbered(s[..|s| - 1], f) + f(|s|, s[|s| - 1])
  }

  /** One more step of the accumulating loop. */
  lemma NumberedStep<T>(s: seq<T>, f: (nat, T) -> string, i: nat)
    requires i < |s|
    ensures Numbered(s[..i + 1], f) == Numbered(s[..i], f) + f(i + 1, s[i])
  {
    assert s[..i + 1][..i] == s[..i];
  }

  /** The text for the first `k` elements is a prefix of the text for all of them. */
  lemma {:induction false} NumberedPrefix<T>(s: seq<T>, f: (nat, T) -> string, k: nat)
    requires k <= |s|
    ensures Numbered(s[..k], f) <= Numbered(s, f)
    decreases |s| - k
  {
    if k == |s| {
      assert s[..k] == s;
    } else {
      var init := s[..|s| - 1];
      assert init[..k] == s[..k];
      NumberedPrefix(init, f, k);
    }
  }

  /** The piece for element `k` carries number `k + 1` and comes right after the pieces for
      the elements before it. */
  lemma NumberedEntry<T>(s: seq<T>, f: (nat, T) -> string, k: nat)
    requires k < |s|
    ensures Numbered(s[..k], f) + f(k + 1, s[k]) <= Numbered(s, f)
  {
    assert s[..k + 1][..k] == s[..k];
    NumberedPrefix(s, f, k + 1);
  }

  /** In a page made of a header, the numbered pieces and a footer, the piece for element
      `k` starts right after the header and the pieces before it. */
  lemma NumberedInPage<T>(head: string, s: seq<T>, f: (nat, T) -> string, tail: string, k: nat)
    requires k < |s|
    ensures OccursAt(f(k + 1, s[k]), head + Numbered(s, f) + tail, |head| + |Numbered(s[..k], f)|)
  {
    NumberedEntry(s, f, k);
    OccursAfterPrefix(head, Numbered(s[..k], f), f(k + 1, s[k]), Numbered(s, f), tail);
  }

  /** Text shown inside the piece for element `k` is shown in the whole page. */
  lemma NumberedPieceShows<T>(head: string, s: seq<T>, f: (nat, T) -> string, tail: string, k: nat,
                              x: string)
    requires k < |s| && Occurs(x, f(k + 1, s[k]))
    ensures Occurs(x, head + Numbered(s, f) + tail)
  {
    NumberedInPage(head, s, f, tail, k);
    OffsetGivesOccurs(f(k + 1, s[k]), head + Numbered(s, f) + tail, |head| + |Numbered(s[..k], f)|);
    OccursTransitive(x, f(k + 1, s[k]), head + Numbered(s, f) + tail);
  }

  /** The page up to and including the piece for element `k` is a prefix of the whole page. */
  lemma NumberedPagePrefix<T>(head: string, s: seq<T>, f: (nat, T) -> string, tail: string, k: nat)
    requires k < |s|
    ensures head + Numbered(s[..k], f) + f(k + 1, s[k]) <= head + Numbered(s, f) + tail
  {
    var before, piece, all := Numbered(s[..k], f), f(k + 1, s[k]), Numbered(s, f);
    NumberedEntry(s, f, k);
    PrefixInside(head, before + piece, all, tail);
    assert head + before + piece == head + (before + piece);
  }
}
