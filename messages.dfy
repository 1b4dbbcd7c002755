/**
 * Reading ids back out of the exception messages: a rendered integer has no
 * space in it, so it is the space-delimited word at its place in a message.
 */
module Messages {
  import opened Decimal

  predicate NoSpace(s: string) {
    forall i :: 0 <= i < |s| ==> s[i] != ' '
  }

  /** The longest prefix of `s` without a space: how a rendered number is read back out of a message. */
  function Word(s: string): (w: string)
    ensures |w| <= |s| && w == s[..|w|]
    ensures NoSpace(w)
    ensures |w| < |s| ==> s[|w|] == ' '
  {
    if s == [] || s[0] == ' ' then [] else [s[0]] + Word(s[1..])
  }

  /** A space-free word followed by a space (or nothing) is exactly the leading word. */
  lemma {:induction false} WordOfSplit(a: string, rest: string)
    requires NoSpace(a)
    requires rest == [] || rest[0] == ' '
    ensures Word(a + rest) == a
    decreases |a|
  {
    if a != [] {
      assert (a + rest)[1..] == a[1..] + rest;
      WordOfSplit(a[1..], rest);
    }
  }

  /** A rendered integer contains no space. */
  lemma IntToStringNoSpace(n: int)
    ensures NoSpace(IntToString(n))
  {
  }

  /** Where the two fields sit in a message made of text, field, text, field. */
  lemma MessageLayout(p: string, a: string, q: string, b: string)
    ensures (p + a + q + b)[..|p|] == p
    ensures (p + a + q + b)[|p|..] == a + (q + b)
    ensures (p + a + q + b)[|p| + |a| + |q|..] == b
  {
    var m := p + a + q + b;
    assert m == p + (a + (q + b));
  }
}
