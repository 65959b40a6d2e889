/** The two string operations the core uses from Go's `strings` package. */
module Strings {

  /** `strings.HasPrefix(s, prefix)`: the leading `|prefix|` characters of `s`
      are `prefix`, which is exactly sequence-prefix order. */
  function HasPrefix(s: string, prefix: string): (b: bool)
    ensures b <==> prefix <= s
  {
    |prefix| <= |s| && s[..|prefix|] == prefix
  }

  /** `strings.TrimPrefix(s, prefix)`: `s` without a leading `prefix`, or `s`
      unchanged when it does not start with `prefix`. */
  function TrimPrefix(s: string, prefix: string): (r: string)
    ensures HasPrefix(s, prefix) ==> prefix + r == s
    ensures !HasPrefix(s, prefix) ==> r == s
  {
    if HasPrefix(s, prefix) then s[|prefix|..] else s
  }

  /** An empty prefix is a no-op. */
  lemma TrimEmptyPrefix(s: string)
    ensures TrimPrefix(s, "") == s
  {
  }

  /** Trimming is undone by putting the prefix back, so two paths that both
      carry the prefix never collide after trimming. */
  lemma TrimPrefixInjective(s: string, t: string, prefix: string)
    requires HasPrefix(s, prefix) && HasPrefix(t, prefix)
    requires TrimPrefix(s, prefix) == TrimPrefix(t, prefix)
    ensures s == t
  {
    assert s == prefix + TrimPrefix(s, prefix);
  }
}
