/** C strings: text up to its terminator. */
module CStrings {
  const NUL: char := '\0'

  /** The text before the first NUL. */
  function BeforeNul(s: string): (r: string)
    ensures r <= s && NUL !in r
    ensures |r| < |s| ==> s[|r|] == NUL
  {
    if s == "" || s[0] == NUL then "" else [s[0]] + BeforeNul(s[1..])
  }

  lemma {:induction false} BeforeNulOf(s: string, t: string)
    requires NUL !in s
    ensures BeforeNul(s + [NUL] + t) == s
  {
    if s != "" {
      assert (s + [NUL] + t)[1..] == s[1..] + [NUL] + t;
      BeforeNulOf(s[1..], t);
    }
  }

  lemma {:induction false} TerminatorAddsNothing(s: string)
    ensures BeforeNul(s + [NUL]) == BeforeNul(s)
  {
    if s != "" && s[0] != NUL {
      assert (s + [NUL])[1..] == s[1..] + [NUL];
      TerminatorAddsNothing(s[1..]);
    }
  }
}
