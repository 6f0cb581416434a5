/** The two string operations the filters use: `toLowerCase` and `includes`. */
module Text {

  /** `toLowerCase` on one character, for the Latin capitals A-Z and the Cyrillic
      capitals U+0410..U+042F and U+0401; every other character is left as it is. */
  function LowerChar(c: char): char {
    if 'A' <= c <= 'Z' then (c as int + 32) as char
    else if '\U{0410}' <= c <= '\U{042F}' then (c as int + 32) as char
    else if c == '\U{0401}' then '\U{0451}'
    else c
  }

  /** `s.toLowerCase()`, character by character. */
  function Lower(s: string): string {
    seq(|s|, i requires 0 <= i < |s| => LowerChar(s[i]))
  }

  /** Lowering twice is lowering once, so a query that is already lower-case is unchanged. */
  lemma LowerIdempotent(s: string)
    ensures Lower(Lower(s)) == Lower(s)
  {
  }

  predicate StartsWith(s: string, prefix: string) {
    |prefix| <= |s| && s[..|prefix|] == prefix
  }

  /** `hay.includes(needle)`: some suffix of `hay` starts with `needle`. */
  predicate Includes(hay: string, needle: string)
    decreases |hay|
  {
    StartsWith(hay, needle) || (|hay| > 0 && Includes(hay[1..], needle))
  }

  /** `needle` occurs in `hay` starting at position `i`. */
  predicate OccursAt(hay: string, needle: string, i: int) {
    0 <= i <= |hay| - |needle| && hay[i..i + |needle|] == needle
  }

  /** `Includes` holds exactly when `needle` occurs at some position of `hay`. */
  lemma {:induction false} IncludesIffOccurs(hay: string, needle: string)
    ensures Includes(hay, needle) <==> exists i :: OccursAt(hay, needle, i)
  {
    if StartsWith(hay, needle) {
      assert OccursAt(hay, needle, 0);
    } else if |hay| > 0 {
      var tail := hay[1..];
      IncludesIffOccurs(tail, needle);
      if i :| OccursAt(tail, needle, i) {
        assert hay[i + 1..i + 1 + |needle|] == tail[i..i + |needle|];
        assert OccursAt(hay, needle, i + 1);
      }
      if j :| OccursAt(hay, needle, j) {
        assert j != 0;
        assert tail[j - 1..j - 1 + |needle|] == hay[j..j + |needle|];
        assert OccursAt(tail, needle, j - 1);
      }
    } else {
      assert forall i :: !OccursAt(hay, needle, i);
    }
  }

  /** `includes` is case-sensitive: "AB" does not include "ab". */
  lemma IncludesIsCaseSensitive()
    ensures Includes("AB", "AB") && !Includes("AB", "ab")
  {
    assert !StartsWith("AB", "ab") by { assert "AB"[..2][0] != "ab"[0]; }
    assert !StartsWith("AB"[1..], "ab");
    assert !Includes("AB"[1..][1..], "ab");
  }
}
