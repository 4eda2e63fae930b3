/**
 * The JavaScript string operations the portal uses: `indexOf`, `includes`,
 * `replace` with a string pattern (first occurrence only), `toLowerCase`
 * (here on ASCII letters) and the `text || undefined` idiom.
 */
module Text {
  import opened Wrappers

  /** `pat` occurs in `s` starting at position `i`. */
  predicate MatchAt(s: string, pat: string, i: nat)
  {
    i + |pat| <= |s| && s[i..i + |pat|] == pat
  }

  /** The first position at or after `from` where `pat` occurs. */
  function IndexFrom(s: string, pat: string, from: nat): (r: Option<nat>)
    ensures r.Some? ==> from <= r.value && MatchAt(s, pat, r.value)
    ensures r.Some? ==> forall j :: from <= j < r.value ==> !MatchAt(s, pat, j)
    ensures r.None? ==> forall j :: from <= j ==> !MatchAt(s, pat, j)
    decreases |s| - from
  {
    if from + |pat| > |s| then None
    else if s[from..from + |pat|] == pat then Some(from)
    else IndexFrom(s, pat, from + 1)
  }

  /** `s.indexOf(pat)`, with `None` for -1. */
  function IndexOf(s: string, pat: string): (r: Option<nat>)
    ensures r.Some? ==> MatchAt(s, pat, r.value) && forall j :: 0 <= j < r.value ==> !MatchAt(s, pat, j)
    ensures r.None? <==> forall j :: 0 <= j ==> !MatchAt(s, pat, j)
  {
    IndexFrom(s, pat, 0)
  }

  /** `s.includes(pat)`. */
  predicate Contains(s: string, pat: string)
  {
    IndexOf(s, pat).Some?
  }

  /** `s.replace(pat, rep)` for a string pattern: only the first occurrence is replaced. */
  function ReplaceFirst(s: string, pat: string, rep: string): string
  {
    match IndexOf(s, pat)
    case None => s
    case Some(i) => s[..i] + rep + s[i + |pat|..]
  }

  function LowerChar(c: char): (r: char)
    ensures 'A' <= c <= 'Z' ==> 'a' <= r <= 'z'
    ensures !('A' <= c <= 'Z') ==> r == c
  {
    if 'A' <= c <= 'Z' then (c as int + 32) as char else c
  }

  /** `toLowerCase`, on ASCII letters. */
  function Lower(s: string): (r: string)
    ensures |r| == |s|
    ensures forall i :: 0 <= i < |s| ==> r[i] == LowerChar(s[i])
  {
    seq(|s|, i requires 0 <= i < |s| => LowerChar(s[i]))
  }

  /** `text || undefined`: the empty string is stored as absent. */
  function OptText(s: string): (r: Option<string>)
    ensures r.None? <==> s == ""
    ensures r.Some? ==> r.value == s
  {
    if s == "" then None else Some(s)
  }

  /** Every string contains the empty string, at position 0. */
  lemma ContainsEmpty(s: string)
    ensures Contains(s, "")
  {
    assert MatchAt(s, "", 0);
  }

  /**
   * Appending `pat` to a string that does not contain it puts the first
   * occurrence right at the join, provided `pat` starts with a character
   * that occurs nowhere else in it (so no occurrence can straddle the join).
   */
  lemma FirstMatchAtJoin(h: string, pat: string)
    requires |pat| > 0
    requires forall k :: 0 < k < |pat| ==> pat[k] != pat[0]
    requires !Contains(h, pat)
    ensures IndexOf(h + pat, pat) == Some(|h|)
  {
    var s := h + pat;
    assert MatchAt(s, pat, |h|) by {
      assert s[|h|..|h| + |pat|] == pat;
    }
    forall j | 0 <= j < |h| ensures !MatchAt(s, pat, j) {
      if j + |pat| <= |h| {
        assert s[j..j + |pat|] == h[j..j + |pat|];
        assert !MatchAt(h, pat, j);
      } else {
        var k := |h| - j;
        assert 0 < k < |pat|;
        assert s[j + k] == pat[0] != pat[k];
        assert s[j..j + |pat|][k] == s[j + k];
      }
    }
  }

  /** Under the same conditions, replacing the first `pat` in `h + pat` by nothing recovers `h`. */
  lemma StripAppended(h: string, pat: string)
    requires |pat| > 0
    requires forall k :: 0 < k < |pat| ==> pat[k] != pat[0]
    requires !Contains(h, pat)
    ensures ReplaceFirst(h + pat, pat, "") == h
  {
    FirstMatchAtJoin(h, pat);
    var s := h + pat;
    assert s[..|h|] == h;
    assert s[|h| + |pat|..] == [];
  }
}
