/** Substrings. */
module Texts {
  predicate OccursAt(s: string, sub: string, i: int) {
    0 <= i <= |s| - |sub| && s[i..i + |sub|] == sub
  }

  /** An occurrence is a way to write the text around the substring. */
  lemma OccurrenceSplits(s: string, sub: string, i: int)
    ensures OccursAt(s, sub, i) <==> exists before: string, after: string :: |before| == i && s == before + sub + after
  {
    if OccursAt(s, sub, i) {
      assert s == s[..i] + sub + s[i + |sub|..];
    }
    forall before: string, after: string | |before| == i && s == before + sub + after ensures OccursAt(s, sub, i) {
      assert s[i..i + |sub|] == sub;
    }
  }

  /** strings.Contains; also what matching the unanchored pattern sub.* decides. */
  predicate Contains(s: string, sub: string) {
    exists i :: 0 <= i <= |s| && OccursAt(s, sub, i)
  }
}
