/** String helpers with the meaning of the `java.lang.String` methods the plugin calls. */
module Strings {

  predicate HasPrefix(s: string, p: string)
  {
    |p| <= |s| && s[..|p|] == p
  }

  predicate HasSuffix(s: string, x: string)
  {
    |x| <= |s| && s[|s| - |x|..] == x
  }

  lemma PrefixOfConcat(a: string, b: string)
    ensures HasPrefix(a + b, a)
  {
    assert (a + b)[..|a|] == a;
  }

  lemma SuffixOfConcat(a: string, b: string)
    ensures HasSuffix(a + b, b)
  {
    assert (a + b)[|a + b| - |b|..] == b;
  }

  /** `s.contains(t)`: some position of `s` starts an occurrence of `t`. */
  predicate Contains(s: string, t: string)
    decreases |s|
  {
    HasPrefix(s, t) || (|s| > 0 && Contains(s[1..], t))
  }

  /** `s.replace(t, r)`: every occurrence of `t`, scanned left to right without
      overlap, is replaced by `r`. */
  function ReplaceAll(s: string, t: string, r: string): string
    requires |t| > 0
    decreases |s|
  {
    if |s| < |t| then s
    else if s[..|t|] == t then r + ReplaceAll(s[|t|..], t, r)
    else [s[0]] + ReplaceAll(s[1..], t, r)
  }

  /** A string without the token comes back unchanged. */
  lemma {:induction false} ReplaceAllWithoutToken(s: string, t: string, r: string)
    requires |t| > 0
    requires !Contains(s, t)
    ensures ReplaceAll(s, t, r) == s
    decreases |s|
  {
    if |s| >= |t| {
      assert s[..|t|] != t;
      ReplaceAllWithoutToken(s[1..], t, r);
      assert [s[0]] + s[1..] == s;
    }
  }

  /** Only occurrences of the token are touched: putting the token back in place
      of itself gives the original string. */
  lemma {:induction false} ReplaceAllBySelf(s: string, t: string)
    requires |t| > 0
    ensures ReplaceAll(s, t, t) == s
    decreases |s|
  {
    if |s| >= |t| {
      if s[..|t|] == t {
        ReplaceAllBySelf(s[|t|..], t);
        assert s[..|t|] + s[|t|..] == s;
      } else {
        ReplaceAllBySelf(s[1..], t);
        assert [s[0]] + s[1..] == s;
      }
    }
  }

  /** A token at the front of the string is always replaced. */
  lemma {:induction false} ReplaceAllFront(t: string, rest: string, r: string)
    requires |t| > 0
    ensures ReplaceAll(t + rest, t, r) == r + ReplaceAll(rest, t, r)
  {
    var s := t + rest;
    assert s[..|t|] == t;
    assert s[|t|..] == rest;
  }
}
