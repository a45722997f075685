/**
 * The external collaborators of `nox/review.py`, as total functions of
 * their arguments: git in the current directory and in the mirror clone,
 * the nix evaluator, nix-build, the pull-request API, the mirror location,
 * path resolution and the fresh result directory. A failing external
 * command is a `None` (or `false`), which the model turns into an `Error`.
 */
module World {
  import opened Wrappers

  /** Pull-request metadata: `title`, `head.sha` and `base.sha`. */
  datatype PullRequest = PullRequest(title: string, head: string, base: string)

  datatype Env = Env(
    /** `git rev-parse --verify <rev>` in the current directory. */
    revParse: string -> Option<string>,
    /** Whether `git checkout <sha>` succeeds in the mirror. */
    checkout: string -> bool,
    /**
     * What `packages_for_sha` evaluates: the `nix-env -qaP --drv-path` output
     * of the mirror with `<sha>` checked out (None: the checkout or the
     * evaluation failed).
     */
    evalRev: string -> Option<string>,
    /** `nix-env -qaP --drv-path` output for a path outside the mirror. */
    evalPath: string -> Option<string>,
    /** `git merge-base <head> <base>` in the mirror, stripped. */
    mergeBase: (string, string) -> Option<string>,
    /** The pull-request API's answer for a number. */
    fetchPr: int -> Option<PullRequest>,
    /** What `get_nixpkgs()` returns: the mirror's path. */
    mirror: string,
    /** `str(Path(p).resolve())`. */
    resolve: string -> string,
    /** The directory `tempfile.mkdtemp(prefix='nox-review-')` creates. */
    resultDir: string,
    /** Whether nix-build, given this argument vector, exits with status 0. */
    buildOk: seq<string> -> bool
  )

  /** One external process: its argument vector and its working directory (None: inherited). */
  datatype Call = Call(argv: seq<string>, cwd: Option<string>)

  /** The failures that abort a review. */
  datatype Error =
    | RevisionNotFound(rev: string)        // git rev-parse failed
    | CheckoutFailed(sha: string)          // git checkout in the mirror failed
    | EvaluationFailed(at: string)         // nix-env failed for a sha or a path
    | UntokenisedLine                      // IndexError from l.split()[0]
    | NoMergeBase(head: string, base: string)
    | NetworkFailed(pr: int)
}
