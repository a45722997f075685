/**
 * The three subcommands, `revs`, `wip` and `pr`: which two attribute sets
 * are compared and where the changed attributes are built.
 */
module Review {
  import opened Wrappers
  import opened World
  import Lines
  import Differ
  import Build

  /**
   * `packages_for_sha(sha)`: the parsed evaluator output of the mirror at
   * `sha`. Whether it comes from the cache or from a fresh checkout and
   * evaluation, it depends on its argument alone (for `revs`, an
   * unresolved revision name).
   */
  function PackagesForSha(env: Env, sha: string): Result<set<string>, Error>
  {
    match env.evalRev(sha)
    case None => Err(EvaluationFailed(sha))
    case Some(output) => Ok(Lines.Packages(output))
  }

  /** `packages(path)` for a path outside the mirror. */
  function PackagesIn(env: Env, path: string): Result<set<string>, Error>
  {
    match env.evalPath(path)
    case None => Err(EvaluationFailed(path))
    case Some(output) => Ok(Lines.Packages(output))
  }

  /** The outcome of a review: the changed attribute names and what the build step did. */
  datatype Outcome = Outcome(changed: set<string>, report: Build.BuildReport, calls: seq<Call>)

  /**
   * The review, once both attribute sets are known, compares `reference`
   * (the old side) with `current` and builds the changes in the mirror at
   * `sha`.
   */
  ghost predicate ReviewedInMirror(env: Env, reference: set<string>, current: set<string>, sha: string,
                                   r: Result<Outcome, Error>)
  {
    match Differ.Differences(reference, current)
    case None => r == Err(UntokenisedLine)
    case Some(changed) =>
      if !env.checkout(sha) then r == Err(CheckoutFailed(sha))
      else
        r.Ok? && r.value.changed == changed && |r.value.calls| >= 1 &&
        r.value.calls[0] == Call(["git", "checkout", sha], Some(env.mirror)) &&
        Build.BuildsIn(env, changed, env.mirror, r.value.report, r.value.calls[1..])
  }

  /**
   * `revs current_rev reference_rev`: the packages of the reference
   * revision are the old side, those of the current revision the new side,
   * and the build happens in the mirror at the current revision. Both
   * revisions are used as given, without `to_sha`.
   */
  method Revs(env: Env, currentRev: string, referenceRev: string) returns (r: Result<Outcome, Error>)
    ensures PackagesForSha(env, referenceRev).Err? ==> r == Err(PackagesForSha(env, referenceRev).error)
    ensures PackagesForSha(env, referenceRev).Ok? && PackagesForSha(env, currentRev).Err? ==>
              r == Err(PackagesForSha(env, currentRev).error)
    ensures PackagesForSha(env, referenceRev).Ok? && PackagesForSha(env, currentRev).Ok? ==>
              ReviewedInMirror(env, PackagesForSha(env, referenceRev).value,
                               PackagesForSha(env, currentRev).value, currentRev, r)
  {
    var reference := PackagesForSha(env, referenceRev);
    if reference.Err? { return Err(reference.error); }
    var current := PackagesForSha(env, currentRev);
    if current.Err? { return Err(current.error); }
    var attrs := Differ.Differences(reference.value, current.value);
    if attrs.None? { return Err(UntokenisedLine); }
    var built := Build.BuildSha(env, attrs.value, currentRev);
    if built.Err? { return Err(built.error); }
    return Ok(Outcome(attrs.value, built.value.0, built.value.1));
  }

  /**
   * `wip --against <rev>`: the working tree is compared with the resolved
   * revision and the changes are built in ".". The code passes the working
   * tree as the first (old) argument; by symmetry the result is that of
   * comparing the revision (old) with the working tree (new).
   */
  method Wip(env: Env, against: string) returns (r: Result<Outcome, Error>)
    ensures PackagesIn(env, ".").Err? ==> r == Err(PackagesIn(env, ".").error)
    ensures PackagesIn(env, ".").Ok? && env.revParse(against).None? ==> r == Err(RevisionNotFound(against))
    ensures PackagesIn(env, ".").Ok? && env.revParse(against).Some? ==>
              var sha := env.revParse(against).value;
              (PackagesForSha(env, sha).Err? ==> r == Err(PackagesForSha(env, sha).error)) &&
              (PackagesForSha(env, sha).Ok? ==>
                 match Differ.Differences(PackagesForSha(env, sha).value, PackagesIn(env, ".").value)
                 case None => r == Err(UntokenisedLine)
                 case Some(changed) =>
                   r.Ok? && r.value.changed == changed &&
                   Build.BuildsIn(env, changed, ".", r.value.report, r.value.calls))
  {
    var tree := PackagesIn(env, ".");
    if tree.Err? { return Err(tree.error); }
    var sha := env.revParse(against);
    if sha.None? { return Err(RevisionNotFound(against)); }
    var reference := PackagesForSha(env, sha.value);
    if reference.Err? { return Err(reference.error); }
    var attrs := Differ.Differences(tree.value, reference.value);
    Differ.Symmetric(tree.value, reference.value);
    if attrs.None? { return Err(UntokenisedLine); }
    var report, calls := Build.BuildInPath(env, attrs.value, ".");
    return Ok(Outcome(attrs.value, report, calls));
  }

  /**
   * `pr <number>`: the merge base of the pull request's head and base is
   * the old side and the head the new side (the base itself is never
   * evaluated), and the build happens in the mirror at the head. The code
   * passes the head first; by symmetry the result is that of comparing the
   * merge base with the head.
   */
  method ReviewPr(env: Env, pr: int) returns (r: Result<Outcome, Error>)
    ensures env.fetchPr(pr).None? ==> r == Err(NetworkFailed(pr))
    ensures env.fetchPr(pr).Some? ==>
              var head, base := env.fetchPr(pr).value.head, env.fetchPr(pr).value.base;
              (env.mergeBase(head, base).None? ==> r == Err(NoMergeBase(head, base))) &&
              (env.mergeBase(head, base).Some? ==>
                 var root := env.mergeBase(head, base).value;
                 (PackagesForSha(env, head).Err? ==> r == Err(PackagesForSha(env, head).error)) &&
                 (PackagesForSha(env, head).Ok? && PackagesForSha(env, root).Err? ==>
                    r == Err(PackagesForSha(env, root).error)) &&
                 (PackagesForSha(env, head).Ok? && PackagesForSha(env, root).Ok? ==>
                    ReviewedInMirror(env, PackagesForSha(env, root).value,
                                     PackagesForSha(env, head).value, head, r)))
  {
    var payload := env.fetchPr(pr);
    if payload.None? { return Err(NetworkFailed(pr)); }
    var head, base := payload.value.head, payload.value.base;
    var root := env.mergeBase(head, base);
    if root.None? { return Err(NoMergeBase(head, base)); }
    var tip := PackagesForSha(env, head);
    if tip.Err? { return Err(tip.error); }
    var ancestor := PackagesForSha(env, root.value);
    if ancestor.Err? { return Err(ancestor.error); }
    var attrs := Differ.Differences(tip.value, ancestor.value);
    Differ.Symmetric(tip.value, ancestor.value);
    if attrs.None? { return Err(UntokenisedLine); }
    var built := Build.BuildSha(env, attrs.value, head);
    if built.Err? { return Err(built.error); }
    return Ok(Outcome(attrs.value, built.value.0, built.value.1));
  }
}
