/**
 * The parsing step of `packages`: the evaluator's text output is cut at
 * every '\n' and the pieces are collected into a set, exactly as Python's
 * `set(output.split('\n'))` does. Empty pieces, including the one after a
 * trailing newline, are kept.
 */
module Lines {

  /** Index of the first '\n' in `s`. */
  function FirstNewline(s: string): (i: nat)
    requires '\n' in s
    ensures i < |s| && s[i] == '\n'
    ensures '\n' !in s[..i]
  {
    if s[0] == '\n' then 0
    else
      assert '\n' in s[1..];
      var j := FirstNewline(s[1..]);
      assert s[..j + 1] == [s[0]] + s[1..][..j];
      j + 1
  }

  /** A newline at `k` with none before it is the first one. */
  lemma FirstNewlineAt(s: string, k: nat)
    requires k < |s| && s[k] == '\n' && '\n' !in s[..k]
    ensures FirstNewline(s) == k
  {
  }

  /** Python's `str.split('\n')`: never empty, and no piece holds a newline. */
  function Split(s: string): (r: seq<string>)
    ensures |r| >= 1
    ensures forall k :: 0 <= k < |r| ==> '\n' !in r[k]
    decreases |s|
  {
    if '\n' !in s then [s]
    else
      var i := FirstNewline(s);
      [s[..i]] + Split(s[i + 1..])
  }

  /** Python's `'\n'.join(pieces)`, the inverse of Split. */
  function Join(pieces: seq<string>): string
    requires |pieces| >= 1
  {
    if |pieces| == 1 then pieces[0] else pieces[0] + "\n" + Join(pieces[1..])
  }

  /** The set `packages` returns for the evaluator output `output`. */
  function Packages(output: string): set<string>
  {
    set l | l in Split(output)
  }

  /** Joining the pieces gives back the output: splitting loses nothing. */
  lemma {:induction false} JoinSplit(s: string)
    ensures Join(Split(s)) == s
    decreases |s|
  {
    if '\n' in s {
      var i := FirstNewline(s);
      var rest := Split(s[i + 1..]);
      assert Split(s) == [s[..i]] + rest;
      assert (Split(s))[1..] == rest;
      JoinSplit(s[i + 1..]);
      assert s == s[..i] + "\n" + s[i + 1..];
    }
  }

  /** Splitting a join of newline-free pieces gives back the pieces. */
  lemma {:induction false} SplitJoin(pieces: seq<string>)
    requires |pieces| >= 1
    requires forall k :: 0 <= k < |pieces| ==> '\n' !in pieces[k]
    ensures Split(Join(pieces)) == pieces
  {
    if |pieces| > 1 {
      var head, tail := pieces[0], Join(pieces[1..]);
      var s := head + "\n" + tail;
      assert s[|head|] == '\n';
      assert s[..|head|] == head;
      FirstNewlineAt(s, |head|);
      var i := FirstNewline(s);
      assert s[i + 1..] == tail;
      SplitJoin(pieces[1..]);
      assert pieces == [head] + pieces[1..];
    }
  }

  /**
   * Every line of the output is an element: a stretch `s[i..j]` with no
   * newline in it, preceded by the start or a newline and followed by the
   * end or a newline.
   */
  lemma {:induction false} LineIsElement(s: string, i: nat, j: nat)
    requires i <= j <= |s|
    requires i == 0 || s[i - 1] == '\n'
    requires j == |s| || s[j] == '\n'
    requires '\n' !in s[i..j]
    ensures s[i..j] in Packages(s)
    decreases |s|
  {
    if i == 0 {
      FirstLineIsElement(s, j);
    } else {
      assert '\n' in s by { assert s[i - 1] in s; }
      var k := FirstNewline(s);
      var rest := s[k + 1..];
      assert rest[i - k - 1..j - k - 1] == s[i..j];
      LineIsElement(rest, i - k - 1, j - k - 1);
      SplitTailIsElement(s, s[i..j]);
    }
  }

  /** The first line, up to the first newline or the end, is an element. */
  lemma FirstLineIsElement(s: string, j: nat)
    requires j <= |s|
    requires j == |s| || s[j] == '\n'
    requires '\n' !in s[..j]
    ensures s[..j] in Packages(s)
  {
    if j == |s| {
      assert s[..j] == s;
      assert Split(s)[0] == s;
    } else {
      FirstNewlineAt(s, j);
      assert Split(s)[0] == s[..j];
    }
  }

  /** Elements of the lines after the first newline are elements of the whole. */
  lemma SplitTailIsElement(s: string, l: string)
    requires '\n' in s
    requires l in Packages(s[FirstNewline(s) + 1..])
    ensures l in Packages(s)
  {
    var rest := Split(s[FirstNewline(s) + 1..]);
    assert l in rest;
    assert Split(s) == [s[..FirstNewline(s)]] + rest;
    assert l in Split(s);
  }

  /** No element of the parsed set contains a newline. */
  lemma ElementsHaveNoNewline(s: string, l: string)
    requires l in Packages(s)
    ensures '\n' !in l
  {
  }

  /**
   * A trailing newline contributes the empty line "" to the set; it is not
   * dropped. The same holds for an empty output.
   */
  lemma TrailingNewlineKeepsEmptyLine(s: string)
    requires s == [] || s[|s| - 1] == '\n'
    ensures "" in Packages(s)
  {
    LineIsElement(s, |s|, |s|);
    assert s[|s|..|s|] == "";
  }
}
