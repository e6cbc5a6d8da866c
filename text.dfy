/**
 * The string operations the file listing's search filter is built from:
 * lower-casing (`toLowerCase`) and substring search (`includes`).
 */
module Text {

  predicate IsUpper(c: char) {
    'A' <= c <= 'Z'
  }

  /** Lower-cases one character; only the ASCII letters A-Z are mapped. */
  function Lower(c: char): (r: char)
    ensures !IsUpper(r)
    ensures r == c <==> !IsUpper(c)
    ensures IsUpper(c) ==> r as int == c as int + ('a' as int - 'A' as int)
  {
    if IsUpper(c) then (c as int - 'A' as int + 'a' as int) as char else c
  }

  /** `s.toLowerCase()`: the string of the lower-cased characters of `s`. */
  function LowerString(s: string): (r: string)
    ensures |r| == |s|
    ensures forall i :: 0 <= i < |s| ==> r[i] == Lower(s[i])
    ensures forall i :: 0 <= i < |r| ==> !IsUpper(r[i])
  {
    if s == [] then [] else [Lower(s[0])] + LowerString(s[1..])
  }

  /** Lower-casing twice is lower-casing once. */
  lemma LowerStringIdempotent(s: string)
    ensures LowerString(LowerString(s)) == LowerString(s)
  {
  }

  /** `t` occurs in `s` starting at index `k`. */
  predicate OccursAt(s: string, t: string, k: nat) {
    k + |t| <= |s| && s[k..k + |t|] == t
  }

  /**
   * `s.includes(t)`: scans `s` from the left for a position where `t` starts.
   * The empty string is included in every string.
   */
  function Includes(s: string, t: string): bool
    decreases |s|
  {
    if |t| > |s| then false
    else if s[..|t|] == t then true
    else Includes(s[1..], t)
  }

  /** The scan finds `t` exactly when `t` occurs somewhere in `s`. */
  lemma {:induction false} IncludesIffOccurs(s: string, t: string)
    ensures Includes(s, t) <==> exists k: nat :: OccursAt(s, t, k)
    decreases |s|
  {
    if |t| > |s| {
      forall k: nat ensures !OccursAt(s, t, k) { }
    } else if s[..|t|] == t {
      assert OccursAt(s, t, 0);
    } else {
      IncludesIffOccurs(s[1..], t);
      if Includes(s[1..], t) {
        var k: nat :| OccursAt(s[1..], t, k);
        assert s[k + 1..k + 1 + |t|] == s[1..][k..k + |t|];
        assert OccursAt(s, t, k + 1);
      } else {
        forall k: nat | OccursAt(s, t, k) ensures false {
          assert k != 0;
          assert s[1..][k - 1..k - 1 + |t|] == s[k..k + |t|];
          assert OccursAt(s[1..], t, k - 1);
        }
      }
    }
  }

  /** The search predicate of the listing: `name.toLowerCase().includes(search.toLowerCase())`. */
  predicate Matches(name: string, search: string) {
    Includes(LowerString(name), LowerString(search))
  }

  /**
   * Matching ignores case: it holds exactly when the lower-cased term occurs
   * in the lower-cased name, and lower-casing either side first changes nothing.
   */
  lemma MatchesIgnoresCase(name: string, search: string)
    ensures Matches(name, search) <==> exists k: nat :: OccursAt(LowerString(name), LowerString(search), k)
    ensures Matches(LowerString(name), search) == Matches(name, search)
    ensures Matches(name, LowerString(search)) == Matches(name, search)
  {
    IncludesIffOccurs(LowerString(name), LowerString(search));
    LowerStringIdempotent(name);
    LowerStringIdempotent(search);
  }

  /** An empty search term matches every name. */
  lemma MatchesEmptySearch(name: string)
    ensures Matches(name, "")
  {
  }
}
