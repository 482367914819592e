/** The search for the JSON array in the model's reply:
    `re.search(r'\[.*\]', response_text, re.DOTALL)`. With DOTALL, `.` also matches
    line breaks, so the match starts at the leftmost `[` that has a `]` after it and,
    `.*` being greedy, ends at the last `]` of the text. */
module Extraction {
  import opened Options

  /** The first occurrence of `c` in `s`, if any. */
  function FirstIndexOf(s: string, c: char): (r: Option<nat>)
    ensures r.Some? ==> r.value < |s| && s[r.value] == c
    ensures r.Some? ==> forall k :: 0 <= k < r.value ==> s[k] != c
    ensures r.None? ==> forall k :: 0 <= k < |s| ==> s[k] != c
  {
    if s == [] then None
    else if s[0] == c then Some(0)
    else match FirstIndexOf(s[1..], c)
      case None => None
      case Some(i) => Some(i + 1)
  }

  /** The last occurrence of `c` in `s`, if any. */
  function LastIndexOf(s: string, c: char): (r: Option<nat>)
    ensures r.Some? ==> r.value < |s| && s[r.value] == c
    ensures r.Some? ==> forall k :: r.value < k < |s| ==> s[k] != c
    ensures r.None? ==> forall k :: 0 <= k < |s| ==> s[k] != c
  {
    if s == [] then None
    else if s[|s| - 1] == c then Some(|s| - 1)
    else LastIndexOf(s[..|s| - 1], c)
  }

  /** The regular expression matches `s[i..j + 1]`. */
  ghost predicate IsArrayMatch(s: string, i: int, j: int) {
    0 <= i < j < |s| && s[i] == '[' && s[j] == ']'
  }

  /** The match `re.search` reports: the leftmost start, and from it the longest match. */
  ghost predicate IsLeftmostLongest(s: string, i: int, j: int) {
    && IsArrayMatch(s, i, j)
    && (forall i', j' :: IsArrayMatch(s, i', j') ==> i <= i')
    && (forall j' :: IsArrayMatch(s, i, j') ==> j' <= j)
  }

  /** `json_match.group()` when there is a match, `None` when `re.search` finds nothing. */
  function ExtractArray(s: string): (r: Option<string>)
    ensures r.Some? <==> exists i, j :: IsArrayMatch(s, i, j)
    ensures r.Some? ==> exists i, j :: IsLeftmostLongest(s, i, j) && r.value == s[i..j + 1]
  {
    match FirstIndexOf(s, '[')
    case None => None
    case Some(i) =>
      match LastIndexOf(s, ']')
      case None => None
      case Some(j) =>
        if i < j then
          assert IsLeftmostLongest(s, i, j);
          Some(s[i..j + 1])
        else
          None
  }

  /** What the program relies on: the extracted text runs from the first `[` of the
      reply to its last `]`, both included. */
  lemma ExtractedArrayIsBracketed(s: string)
    requires ExtractArray(s).Some?
    ensures var m := ExtractArray(s).value;
      |m| >= 2 && m[0] == '[' && m[|m| - 1] == ']' && m <= s[FirstIndexOf(s, '[').value..]
  {
    var i, j :| IsLeftmostLongest(s, i, j) && ExtractArray(s).value == s[i..j + 1];
    var first := FirstIndexOf(s, '[').value;
    assert first == i by {
      assert IsArrayMatch(s, first, j);
    }
  }
}
