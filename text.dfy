/** String helpers that mirror the Python and SQLite string operations of the application. */
module Text {

  /** Index of the last occurrence of `c` in `s`, or -1 when `c` does not occur (Python's `str.rfind`). */
  function RFind(s: string, c: char): (r: int)
    ensures -1 <= r < |s|
    ensures r >= 0 ==> s[r] == c
    ensures forall j :: r < j < |s| ==> s[j] != c
  {
    if s == [] then -1
    else if s[|s| - 1] == c then |s| - 1
    else RFind(s[..|s| - 1], c)
  }

  /** `k` is the position of the last `c` in `s`. */
  ghost predicate IsLast(s: string, c: char, k: int)
  {
    0 <= k < |s| && s[k] == c && forall j :: k < j < |s| ==> s[j] != c
  }

  /** The last occurrence is unique, so RFind finds exactly it. */
  lemma RFindIsLast(s: string, c: char, k: int)
    requires IsLast(s, c, k)
    ensures RFind(s, c) == k
  {
  }

  /** ASCII lower-casing of one character (SQLite's `lower()`). */
  function LowerChar(c: char): char
  {
    if 'A' <= c <= 'Z' then (c as int + 32) as char else c
  }

  /** ASCII lower-casing of a string, character by character. */
  function Lower(s: string): (r: string)
    ensures |r| == |s|
    ensures forall i :: 0 <= i < |s| ==> r[i] == LowerChar(s[i])
  {
    if s == [] then [] else [LowerChar(s[0])] + Lower(s[1..])
  }

  /** `q` occurs in `s` starting at index `i`. */
  ghost predicate OccursAt(s: string, q: string, i: int)
  {
    0 <= i && i + |q| <= |s| && s[i..i + |q|] == q
  }

  /** Substring test, the meaning of SQL `LIKE '%q%'` without wildcards inside `q`. */
  function Contains(s: string, q: string): bool
  {
    if q <= s then true
    else if s == [] then false
    else Contains(s[1..], q)
  }

  /** Contains decides exactly whether `q` occurs somewhere in `s`. */
  lemma {:induction false} ContainsMeaning(s: string, q: string)
    ensures Contains(s, q) <==> exists i :: OccursAt(s, q, i)
  {
    if q <= s {
      assert s[0..|q|] == q;
      assert OccursAt(s, q, 0);
    } else if s == [] {
    } else {
      ContainsMeaning(s[1..], q);
      forall i | OccursAt(s[1..], q, i) ensures OccursAt(s, q, i + 1) {
        OccursAfterFirst(s, q, i);
      }
      assert !OccursAt(s, q, 0);
      forall i | OccursAt(s, q, i) ensures OccursAt(s[1..], q, i - 1) {
        OccursAfterFirst(s, q, i - 1);
      }
    }
  }

  /** An occurrence in the tail is an occurrence one position further on in the whole text. */
  lemma OccursAfterFirst(s: string, q: string, i: int)
    requires s != [] && 0 <= i
    ensures OccursAt(s[1..], q, i) <==> OccursAt(s, q, i + 1)
  {
    if i + |q| <= |s[1..]| {
      assert s[1..][i..i + |q|] == s[i + 1..i + 1 + |q|];
    }
  }

  /** Case-insensitive substring test: SQLAlchemy's `ilike('%q%')` on SQLite, which lower-cases both sides. */
  function ContainsIgnoringCase(s: string, q: string): (r: bool)
    ensures r <==> exists i :: OccursAt(Lower(s), Lower(q), i)
  {
    ContainsIgnoringCaseMeaning(s, q);
    Contains(Lower(s), Lower(q))
  }

  /** The substring test on the lower-cased strings, read as an occurrence at some position. */
  lemma ContainsIgnoringCaseMeaning(s: string, q: string)
    ensures Contains(Lower(s), Lower(q)) <==> exists i :: OccursAt(Lower(s), Lower(q), i)
  {
    ContainsMeaning(Lower(s), Lower(q));
  }

  /** The empty query occurs in every name, so `ilike('%%')` keeps every row. */
  lemma EmptyQueryMatches(s: string)
    ensures ContainsIgnoringCase(s, "")
  {
  }
}
