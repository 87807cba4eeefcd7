/** The JavaScript string operations the form uses on field names:
    `indexOf`, `includes` and `replace` with a string pattern, which
    replaces the first occurrence only. The replacement is inserted
    literally: the `$` patterns JavaScript expands in a replacement string
    are not modelled, and the form's replacements contain none. */
module Strings {
  import opened Wrappers

  /** `pat` occurs in `s` starting at index `i`. */
  predicate OccursAt(s: string, pat: string, i: nat) {
    i + |pat| <= |s| && s[i..i + |pat|] == pat
  }

  /** The first index at or after `from` where `pat` occurs in `s`. */
  function IndexOfFrom(s: string, pat: string, from: nat): (r: Option<nat>)
    decreases |s| - from
    ensures r.Some? ==> from <= r.value && OccursAt(s, pat, r.value)
    ensures forall j: nat :: from <= j && (r.None? || j < r.value) ==> !OccursAt(s, pat, j)
  {
    if from + |pat| > |s| then None
    else if s[from..from + |pat|] == pat then Some(from)
    else IndexOfFrom(s, pat, from + 1)
  }

  /** `s.indexOf(pat)`, with `None` for JavaScript's -1. */
  function IndexOf(s: string, pat: string): (r: Option<nat>)
    ensures r.Some? ==> OccursAt(s, pat, r.value)
    ensures forall j: nat :: (r.None? || j < r.value) ==> !OccursAt(s, pat, j)
  {
    IndexOfFrom(s, pat, 0)
  }

  /** `s.includes(pat)`: a case-sensitive substring test. */
  function Includes(s: string, pat: string): (b: bool)
    ensures b <==> exists j: nat :: OccursAt(s, pat, j)
  {
    IndexOf(s, pat).Some?
  }

  /** `s.replace(pat, rep)` for a `rep` without `$` patterns: only the first
      occurrence of `pat` is replaced. */
  function ReplaceFirst(s: string, pat: string, rep: string): (r: string)
    ensures !Includes(s, pat) ==> r == s
    ensures Includes(s, pat) ==>
      exists i: nat :: OccursAt(s, pat, i) && (forall j: nat :: j < i ==> !OccursAt(s, pat, j))
        && r == s[..i] + rep + s[i + |pat|..]
  {
    match IndexOf(s, pat)
    case None => s
    case Some(i) => s[..i] + rep + s[i + |pat|..]
  }

  /** A pattern longer than the string cannot occur in it. */
  lemma ShorterExcludes(s: string, pat: string)
    requires |s| < |pat|
    ensures !Includes(s, pat)
  {
  }

  /** A string that is exactly the pattern has it at index 0, so replacing yields the replacement. */
  lemma ReplaceWhole(pat: string, rep: string)
    ensures Includes(pat, pat)
    ensures ReplaceFirst(pat, pat, rep) == rep
  {
    assert OccursAt(pat, pat, 0);
    var i := IndexOf(pat, pat).value;
    assert i == 0;
  }

  /** A pattern whose first character never appears in the string does not occur in it. */
  lemma AbsentFirstChar(s: string, pat: string)
    requires |pat| > 0 && forall j :: 0 <= j < |s| ==> s[j] != pat[0]
    ensures !Includes(s, pat)
  {
    forall j: nat ensures !OccursAt(s, pat, j) {
      if j + |pat| <= |s| {
        assert s[j..j + |pat|][0] == s[j] != pat[0];
      }
    }
  }
}
