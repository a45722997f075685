/**
 * The first whitespace-separated token of a line, as Python's
 * `l.split()[0]` computes it: leading whitespace is skipped and the token
 * runs up to the next whitespace character or the end of the line.
 */
module Tokens {

  /** The characters Python's `str.split()` treats as whitespace. */
  predicate IsSpace(c: char)
  {
    ('\U{0009}' <= c <= '\U{000D}') || ('\U{001C}' <= c <= '\U{0020}') ||
    c == '\U{0085}' || c == '\U{00A0}' || c == '\U{1680}' ||
    ('\U{2000}' <= c <= '\U{200A}') || c == '\U{2028}' || c == '\U{2029}' ||
    c == '\U{202F}' || c == '\U{205F}' || c == '\U{3000}'
  }

  /** `s` without its leading whitespace. */
  function TrimLeft(s: string): (r: string)
    ensures |r| <= |s| && r == s[|s| - |r|..]
    ensures forall k :: 0 <= k < |s| - |r| ==> IsSpace(s[k])
    ensures r == [] || !IsSpace(r[0])
  {
    if s != [] && IsSpace(s[0]) then TrimLeft(s[1..]) else s
  }

  /** The longest prefix of `s` free of whitespace. */
  function TakeToken(s: string): (r: string)
    ensures |r| <= |s| && r == s[..|r|]
    ensures forall k :: 0 <= k < |r| ==> !IsSpace(r[k])
    ensures |r| == |s| || IsSpace(s[|r|])
  {
    if s != [] && !IsSpace(s[0]) then [s[0]] + TakeToken(s[1..]) else []
  }

  /** `l.split()` has an element 0: the line is not all whitespace. */
  predicate HasToken(l: string)
  {
    TrimLeft(l) != []
  }

  /** `l.split()[0]`. */
  function FirstToken(l: string): (t: string)
    requires HasToken(l)
    ensures t != []
  {
    TakeToken(TrimLeft(l))
  }

  /** A non-empty piece of text with no whitespace in it: an attribute name. */
  predicate IsWord(w: string)
  {
    w != [] && forall k :: 0 <= k < |w| ==> !IsSpace(w[k])
  }

  /** Leading whitespace in front of a non-space is exactly what TrimLeft drops. */
  lemma {:induction false} TrimLeftOf(lead: string, t: string)
    requires forall k :: 0 <= k < |lead| ==> IsSpace(lead[k])
    requires t == [] || !IsSpace(t[0])
    ensures TrimLeft(lead + t) == t
  {
    if lead == [] {
      assert lead + t == t;
    } else {
      assert (lead + t)[1..] == lead[1..] + t;
      TrimLeftOf(lead[1..], t);
    }
  }

  /** A word followed by the end or a space is exactly what TakeToken keeps. */
  lemma {:induction false} TakeTokenOf(w: string, rest: string)
    requires forall k :: 0 <= k < |w| ==> !IsSpace(w[k])
    requires rest == [] || IsSpace(rest[0])
    ensures TakeToken(w + rest) == w
  {
    if w == [] {
      assert w + rest == rest;
    } else {
      assert (w + rest)[1..] == w[1..] + rest;
      TakeTokenOf(w[1..], rest);
      assert w == [w[0]] + w[1..];
    }
  }

  /** Leading spaces, then a word, then the end or a space: the word is the first token. */
  lemma FirstTokenOf(lead: string, w: string, rest: string)
    requires forall k :: 0 <= k < |lead| ==> IsSpace(lead[k])
    requires IsWord(w)
    requires rest == [] || IsSpace(rest[0])
    ensures HasToken(lead + w + rest)
    ensures FirstToken(lead + w + rest) == w
  {
    assert lead + w + rest == lead + (w + rest);
    TrimLeftOf(lead, w + rest);
    TakeTokenOf(w, rest);
  }

  /** The leading whitespace of `l`. */
  function Leading(l: string): (lead: string)
    ensures forall k :: 0 <= k < |lead| ==> IsSpace(lead[k])
  {
    l[..|l| - |TrimLeft(l)|]
  }

  /**
   * Every line with a token decomposes like that around its first token:
   * its leading whitespace, the token, then the end or whitespace.
   */
  lemma FirstTokenSplits(l: string)
    requires HasToken(l)
    ensures IsWord(FirstToken(l))
    ensures l == Leading(l) + FirstToken(l) + l[|Leading(l)| + |FirstToken(l)|..]
    ensures |Leading(l)| + |FirstToken(l)| == |l| || IsSpace(l[|Leading(l)| + |FirstToken(l)|])
  {
  }
}
