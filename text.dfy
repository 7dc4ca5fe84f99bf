/**
 * The two string operations the pages rely on: JavaScript's `toLowerCase`
 * (restricted to ASCII letters) and `String.prototype.includes`.
 */
module Text {

  /** Lower-cases one ASCII capital letter; every other character is kept. */
  function LowerChar(c: char): char {
    if 'A' <= c <= 'Z' then (c as int + 32) as char else c
  }

  /** `s.toLowerCase()` over ASCII: the same length, each character lower-cased. */
  function Lower(s: string): (r: string)
    ensures |r| == |s|
    ensures forall i :: 0 <= i < |s| ==> r[i] == LowerChar(s[i])
  {
    if s == [] then [] else [LowerChar(s[0])] + Lower(s[1..])
  }

  /** Lower-casing twice is lower-casing once. */
  lemma LowerIdempotent(s: string)
    ensures Lower(Lower(s)) == Lower(s)
  {
  }

  predicate StartsWith(s: string, prefix: string) {
    |prefix| <= |s| && s[..|prefix|] == prefix
  }

  /** `s.includes(q)`: tries every start position of `s`, from the left. */
  predicate Includes(s: string, q: string)
    decreases |s|
  {
    StartsWith(s, q) || (|s| > 0 && Includes(s[1..], q))
  }

  /** `q` occurs in `s` as a contiguous block starting at position `i`. */
  predicate OccursAt(s: string, q: string, i: int) {
    0 <= i && i + |q| <= |s| && s[i..i + |q|] == q
  }

  /** The reference meaning of substring: some start position holds `q`. */
  ghost predicate IsSubstring(q: string, s: string) {
    exists i :: OccursAt(s, q, i)
  }

  /** When `includes` holds, the query occurs at some start position. */
  lemma {:induction false} IncludesToSubstring(s: string, q: string)
    requires Includes(s, q)
    ensures IsSubstring(q, s)
    decreases |s|
  {
    if StartsWith(s, q) {
      assert OccursAt(s, q, 0);
    } else {
      IncludesToSubstring(s[1..], q);
      var j :| OccursAt(s[1..], q, j);
      assert s[j + 1..j + 1 + |q|] == s[1..][j..j + |q|];
      assert OccursAt(s, q, j + 1);
    }
  }

  /** When the query occurs at position `i`, `includes` finds it. */
  lemma {:induction false} SubstringToIncludes(s: string, q: string, i: int)
    requires OccursAt(s, q, i)
    ensures Includes(s, q)
    decreases i
  {
    if i > 0 {
      assert s[1..][i - 1..i - 1 + |q|] == s[i..i + |q|];
      SubstringToIncludes(s[1..], q, i - 1);
    } else {
      assert StartsWith(s, q);
    }
  }

  /** `Includes` answers exactly the substring question, in both directions. */
  lemma IncludesIsSubstring(s: string, q: string)
    ensures Includes(s, q) <==> IsSubstring(q, s)
  {
    if Includes(s, q) {
      IncludesToSubstring(s, q);
    }
    if IsSubstring(q, s) {
      var i :| OccursAt(s, q, i);
      SubstringToIncludes(s, q, i);
    }
  }

  /** The empty string is included in every string. */
  lemma IncludesEmpty(s: string)
    ensures Includes(s, "")
  {
  }
}
