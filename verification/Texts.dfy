/** Searching in strings. */
module Texts {

  predicate OccursAt(text: string, pattern: string, p: nat) {
    p + |pattern| <= |text| && text[p..p + |pattern|] == pattern
  }

  /** strings.Contains and bytes.Contains. */
  predicate Contains(text: string, pattern: string) {
    exists p :: 0 <= p <= |text| && OccursAt(text, pattern, p)
  }

  lemma FoundBetween(a: string, pattern: string, b: string)
    ensures Contains(a + pattern + b, pattern)
  {
    var text := a + pattern + b;
    assert text[|a|..|a| + |pattern|] == pattern;
    assert OccursAt(text, pattern, |a|);
  }

  lemma AroundFound(text: string, pattern: string) returns (a: string, b: string)
    requires Contains(text, pattern)
    ensures text == a + pattern + b
  {
    var p :| 0 <= p <= |text| && OccursAt(text, pattern, p);
    a, b := text[..p], text[p + |pattern|..];
  }
}
