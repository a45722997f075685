/**
 * `differences(old, new)`: the symmetric difference of two sets of
 * evaluator lines, each surviving line projected to its attribute name (its
 * first token). Python raises IndexError when a surviving line has no token;
 * here that is the result None.
 */
module Differ {
  import opened Wrappers
  import opened Tokens
  import Lines

  /** Python's `old ^ new`. */
  function SymDiff(a: set<string>, b: set<string>): set<string>
  {
    (a - b) + (b - a)
  }

  /** `{l.split()[0] for l in raw}`, over the lines that have a first token. */
  function Names(raw: set<string>): set<string>
  {
    set l | l in raw && HasToken(l) :: FirstToken(l)
  }

  function Differences(before: set<string>, after: set<string>): Option<set<string>>
  {
    var raw := SymDiff(before, after);
    if forall l :: l in raw ==> HasToken(l) then Some(Names(raw)) else None
  }

  /** The lines of `s` that name attribute `n`. */
  function LinesNamed(s: set<string>, n: string): set<string>
  {
    set l | l in s && HasToken(l) && FirstToken(l) == n
  }

  /** An evaluator line: attribute name, a space, the derivation path. */
  function Entry(name: string, drv: string): string
  {
    name + " " + drv
  }

  /** Python raises exactly when a line in one set but not the other is blank. */
  lemma DefinedIff(before: set<string>, after: set<string>)
    ensures Differences(before, after).None? <==>
            exists l :: (l in before) != (l in after) && !HasToken(l)
  {
  }

  /** Comparing a set with itself never fails and finds nothing. */
  lemma SelfIsEmpty(a: set<string>)
    ensures Differences(a, a) == Some({})
  {
    assert SymDiff(a, a) == {};
    assert Names({}) == {};
  }

  /** The order of the two sets does not matter, failure included. */
  lemma Symmetric(a: set<string>, b: set<string>)
    ensures Differences(a, b) == Differences(b, a)
  {
    assert SymDiff(a, b) == SymDiff(b, a);
  }

  /**
   * A name is reported exactly when the lines carrying that name differ
   * between the two sets.
   */
  lemma NameChangedIff(before: set<string>, after: set<string>, n: string)
    requires Differences(before, after).Some?
    ensures n in Differences(before, after).value <==> LinesNamed(before, n) != LinesNamed(after, n)
  {
    var raw := SymDiff(before, after);
    if n in Differences(before, after).value {
      var l :| l in raw && HasToken(l) && FirstToken(l) == n;
      assert (l in LinesNamed(before, n)) != (l in LinesNamed(after, n));
    }
    if LinesNamed(before, n) != LinesNamed(after, n) {
      var l :| (l in LinesNamed(before, n)) != (l in LinesNamed(after, n));
      assert l in raw;
      assert n in Names(raw);
    }
  }

  /** Equal entries give equal derivation paths. */
  lemma EntryInjective(name: string, p1: string, p2: string)
    requires Entry(name, p1) == Entry(name, p2)
    ensures p1 == p2
  {
    assert p1 == Entry(name, p1)[|name| + 1..];
    assert p2 == Entry(name, p2)[|name| + 1..];
  }

  /**
   * An attribute listed once on each side is reported exactly when its
   * derivation path changed.
   */
  lemma PathChanged(before: set<string>, after: set<string>, name: string, p1: string, p2: string)
    requires Differences(before, after).Some?
    requires LinesNamed(before, name) == {Entry(name, p1)}
    requires LinesNamed(after, name) == {Entry(name, p2)}
    ensures name in Differences(before, after).value <==> p1 != p2
  {
    NameChangedIff(before, after, name);
    if Entry(name, p1) == Entry(name, p2) {
      EntryInjective(name, p1, p2);
    }
  }

  /** An attribute present on one side only is reported. */
  lemma AddedOrRemoved(before: set<string>, after: set<string>, name: string)
    requires Differences(before, after).Some?
    requires (LinesNamed(before, name) == {}) != (LinesNamed(after, name) == {})
    ensures name in Differences(before, after).value
  {
  }

  /**
   * The old and the new line of a changed attribute both survive the
   * symmetric difference but yield one name: dropping either line changes
   * nothing in the result.
   */
  lemma CollapsesToOne(before: set<string>, after: set<string>, l1: string, l2: string)
    requires Differences(before, after).Some?
    requires l1 in SymDiff(before, after) && l2 in SymDiff(before, after) && l1 != l2
    requires FirstToken(l1) == FirstToken(l2)
    ensures FirstToken(l1) in Differences(before, after).value
    ensures Differences(before, after).value == Names(SymDiff(before, after) - {l2})
  {
    var raw := SymDiff(before, after);
    assert FirstToken(l1) in Names(raw);
    forall n | n in Names(raw) ensures n in Names(raw - {l2}) {
      var l :| l in raw && HasToken(l) && FirstToken(l) == n;
      if l == l2 {
        assert l1 in raw - {l2};
      } else {
        assert l in raw - {l2};
      }
    }
  }

  /** A line present in both sets, blank or not, has no effect. */
  lemma SharedLineCancels(before: set<string>, after: set<string>, l: string)
    ensures Differences(before + {l}, after + {l}) == Differences(before - {l}, after - {l})
  {
    assert SymDiff(before + {l}, after + {l}) == SymDiff(before - {l}, after - {l});
  }

  /**
   * Two evaluator outputs that both end in a newline both contain the empty
   * line "", which then neither fails the comparison nor adds a name.
   */
  lemma TrailingNewlinesCancel(beforeOutput: string, afterOutput: string)
    requires beforeOutput == [] || beforeOutput[|beforeOutput| - 1] == '\n'
    requires afterOutput == [] || afterOutput[|afterOutput| - 1] == '\n'
    ensures Differences(Lines.Packages(beforeOutput), Lines.Packages(afterOutput)) ==
            Differences(Lines.Packages(beforeOutput) - {""}, Lines.Packages(afterOutput) - {""})
  {
    var a, b := Lines.Packages(beforeOutput), Lines.Packages(afterOutput);
    Lines.TrailingNewlineKeepsEmptyLine(beforeOutput);
    Lines.TrailingNewlineKeepsEmptyLine(afterOutput);
    assert a + {""} == a && b + {""} == b;
    SharedLineCancels(a, b, "");
  }

  /** The worked example: "bar" changed path, "baz" is new, "foo" is unchanged. */
  lemma Example()
    ensures Differences({"foo /nix/a", "bar /nix/b"},
                        {"foo /nix/a", "bar /nix/c", "baz /nix/d"}) == Some({"bar", "baz"})
  {
    ExampleSymDiff();
    ExampleTokens();
    var raw := {"bar /nix/b", "bar /nix/c", "baz /nix/d"};
    NamesOfThree("bar /nix/b", "bar /nix/c", "baz /nix/d");
    assert Names(raw) == {"bar", "baz"};
    assert forall l :: l in raw ==> HasToken(l);
  }

  lemma NamesOfThree(a: string, b: string, c: string)
    requires HasToken(a) && HasToken(b) && HasToken(c)
    ensures Names({a, b, c}) == {FirstToken(a), FirstToken(b), FirstToken(c)}
  {
  }

  lemma ExampleSymDiff()
    ensures SymDiff({"foo /nix/a", "bar /nix/b"}, {"foo /nix/a", "bar /nix/c", "baz /nix/d"})
            == {"bar /nix/b", "bar /nix/c", "baz /nix/d"}
  {
    assert "bar /nix/b"[9] != "bar /nix/c"[9] && "bar /nix/b"[9] != "baz /nix/d"[9];
    assert "foo /nix/a"[0] != "bar /nix/b"[0] && "foo /nix/a"[0] != "bar /nix/c"[0];
    assert "foo /nix/a"[0] != "baz /nix/d"[0];
  }

  lemma ExampleTokens()
    ensures HasToken("bar /nix/b") && FirstToken("bar /nix/b") == "bar"
    ensures HasToken("bar /nix/c") && FirstToken("bar /nix/c") == "bar"
    ensures HasToken("baz /nix/d") && FirstToken("baz /nix/d") == "baz"
  {
    assert IsWord("bar") && IsWord("baz");
    FirstTokenOf("", "bar", " /nix/b");
    FirstTokenOf("", "bar", " /nix/c");
    FirstTokenOf("", "baz", " /nix/d");
    assert "" + "bar" + " /nix/b" == "bar /nix/b";
    assert "" + "bar" + " /nix/c" == "bar /nix/c";
    assert "" + "baz" + " /nix/d" == "baz /nix/d";
  }
}
