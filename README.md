# nox review: change detection and build dispatch

A Dafny model of the logic in `nox/review.py` of nox, a tool for reviewing a
change to nixpkgs. nox lists every attribute nixpkgs can build before and
after the change. `nix-env -qaP --drv-path` prints one line per attribute:
the attribute path first, then further whitespace-separated fields,
including the derivation path. nox takes the symmetric difference of the two
sets of lines and keeps the first token of each surviving line. Then it runs
`nix-build` on those attribute names only.

Modules:

- `Wrappers`: `Option` and `Result`.
- `Lines`: the parsing in `packages`, i.e. `set(output.split('\n'))`. `Split`
  and its inverse `Join`, with both round trips proved. Every line of the
  output is an element, no element holds a newline, and a trailing newline
  adds the empty line `""`.
- `Tokens`: `l.split()[0]` with Python's whitespace set. `FirstTokenOf` and
  `FirstTokenSplits` state exactly which word it returns.
- `Differ`: `differences`. An IndexError from a line with no token is `None`.
  Properties proved: comparing a set with itself, symmetry, when the result is
  defined, exact membership per attribute name, changed derivation paths,
  the collapse of a changed attribute's two lines into one name, cancellation
  of lines the two sets share, and a worked example.
- `World`: the external collaborators (git, nix-env, nix-build, the
  pull-request API, the mirror location, path resolution, the temporary
  directory) as total functions in an `Env` value, plus the `Error` kinds.
- `Build`: `build_in_path` as a method whose loop builds the argument vector
  while it iterates over the attribute set, and `build_sha`. Each returns
  what it reports and the processes it starts.
- `Review`: the subcommands `revs`, `wip` and `pr`, as straight-line methods.
  Their contracts say which two attribute sets are compared, in which
  orientation, and where the build runs.

Three behaviours of the code that a reader might not expect are modelled as
written:

- `packages` does not drop the empty line after a trailing newline. The model
  keeps it. `Differ.TrailingNewlinesCancel` shows that it is harmless when
  both outputs end with a newline.
- `revs` passes both revision names to `packages_for_sha` and `build_sha` as
  given. It does not resolve them with `to_sha`, unlike `wip`.
- A failed nix-build does not make `revs`, `wip` or `pr` fail. The failure is
  reported in red, and the command still ends normally after `ls -l`. The
  model returns `Ok` with `report.failed` set.

## Model

| member | source | states |
|---|---|---|
| `Lines.Packages` | nox/review.py:17-21 | definition of the parsing in `packages`: the set of the pieces of `Split`; specified by `ElementsHaveNoNewline`, `LineIsElement` and `TrailingNewlineKeepsEmptyLine` |
| `Lines.Split` | nox/review.py:21 | `split('\n')` always yields at least one piece, and no piece contains a newline |
| `Lines.JoinSplit` | nox/review.py:21 | joining the pieces with newlines gives back the evaluator's output exactly |
| `Lines.SplitJoin` | nox/review.py:21 | splitting a newline-join of newline-free pieces gives back those pieces |
| `Lines.LineIsElement` | nox/review.py:21 | every maximal newline-free stretch of the output, empty ones included, is an element of the parsed set |
| `Lines.ElementsHaveNoNewline` | nox/review.py:21 | no element of the parsed set contains a newline |
| `Lines.TrailingNewlineKeepsEmptyLine` | nox/review.py:21 | an output ending in a newline (or an empty output) yields the empty line `""` as an element, and it is not dropped |
| `Tokens.TrimLeft` | nox/review.py:99 | the result is the suffix of the line after its leading whitespace, and it starts with a non-space or is empty |
| `Tokens.TakeToken` | nox/review.py:99 | the result is the longest whitespace-free prefix |
| `Tokens.FirstToken` | nox/review.py:99 | `l.split()[0]` is non-empty whenever the line is not all whitespace |
| `Tokens.FirstTokenOf` | nox/review.py:99 | for leading whitespace, then a word, then the end or a whitespace character, the first token is that word |
| `Tokens.FirstTokenSplits` | nox/review.py:99 | each line with a token is its leading whitespace, then its first token (a word), then either nothing or text starting with whitespace |
| `Differ.Differences` | nox/review.py:95-99 | definition of `differences`: the first tokens of the lines in `old ^ new`, or None where `l.split()[0]` raises; specified by `DefinedIff`, `SelfIsEmpty`, `Symmetric` and `NameChangedIff` |
| `Differ.DefinedIff` | nox/review.py:97-99 | `differences` fails exactly when some all-whitespace line is in one set and not the other |
| `Differ.SelfIsEmpty` | nox/review.py:97-99 | comparing a set with itself succeeds and reports no attribute |
| `Differ.Symmetric` | nox/review.py:97 | swapping the two sets changes neither the result nor whether it fails |
| `Differ.NameChangedIff` | nox/review.py:97-99 | a name is reported if and only if the lines carrying that name differ between the two sets |
| `Differ.EntryInjective` | nox/review.py:99 | two `name drv` lines for the same name are equal only when their derivation paths are equal |
| `Differ.PathChanged` | nox/review.py:97-99 | an attribute listed once on each side, as a single-space `name drv` line, is reported if and only if its derivation path changed. Any other textual change to a line also reports its name (see `NameChangedIff`) |
| `Differ.AddedOrRemoved` | nox/review.py:97-99 | an attribute that is listed on one side only is reported |
| `Differ.CollapsesToOne` | nox/review.py:99 | when a changed attribute's old and new lines both survive, its name is reported, and dropping one of the two lines leaves the result the same |
| `Differ.SharedLineCancels` | nox/review.py:97 | a line present in both sets, blank or not, affects neither the result nor whether it fails |
| `Differ.TrailingNewlinesCancel` | nox/review.py:21-99 | when both evaluator outputs end in a newline, the empty line they both contain cancels out |
| `Differ.Example` | nox/review.py:95-99 | {foo a, bar b} against {foo a, bar c, baz d} reports exactly {bar, baz} |
| `Build.CommandShape` | nox/review.py:42-46 | the command has length 2 + 2n: "nix-build", then "-A" and the i-th attribute for each i in iteration order, then the path |
| `Build.BuildInPath` | nox/review.py:32-53 | no attributes: reports "nothing changed" and starts no process. Otherwise the attribute order enumerates the set exactly once, nix-build runs once in the result directory on the resolved path, a failure is reported but not fatal, and `ls -l` of the result directory follows regardless |
| `Build.BuildSha` | nox/review.py:56-60 | a failed checkout aborts. Otherwise the first process checks the sha out in the mirror and the rest is a build in the mirror |
| `Review.PackagesForSha` | nox/review.py:24-29 | definition of `packages_for_sha`: the parsed evaluator output of the mirror at the given revision, or `EvaluationFailed`; used by the contracts of `Revs`, `Wip` and `ReviewPr` |
| `Review.PackagesIn` | nox/review.py:17-21 | definition of `packages(path)` outside the mirror: the parsed evaluator output, or `EvaluationFailed`; used by the contract of `Wip` |
| `Review.Revs` | nox/review.py:108-116 | evaluation errors propagate in the code's order. The reference revision is the old side, the current revision the new side, and the build runs in the mirror at the current revision |
| `Review.Wip` | nox/review.py:119-126 | the result equals comparing the resolved `against` revision (old) with the working tree (new), although the code passes them the other way round, and the build runs in "." |
| `Review.ReviewPr` | nox/review.py:129-145 | a network failure or a missing merge base aborts. The result equals comparing the merge base (old) with the head (new), never the base, and the build runs in the mirror at the head |

## Left out

- Every external process (`git rev-parse`, `checkout`, `init`, `remote`, `fetch`, `merge-base`, `nix-env`, `nix-build`, `ls`), the HTTP request and its JSON access are functions in `World.Env`. Their behaviour is not modelled, and `ls -l` is assumed to succeed.
- `get_nixpkgs` (nox/review.py:63-92): directory creation and the git command sequence with its swallowed failure. It is file-system and git plumbing. The model takes its result as the fixed path `Env.mirror` and assumes it succeeds.
- The dogpile cache on `packages_for_sha`, from `nox/cache.py`, which is not part of this model. `Review.PackagesForSha` is a function of its argument (a sha, or for `revs` an unresolved name). Property that repeated lookups do not re-evaluate: not modelled.
- `tempfile.mkdtemp` and `Path.resolve`: OS calls, given as `Env.resultDir` and `Env.resolve`. That every call gets a fresh directory is not modelled. `Env.buildOk` depends on the argument vector alone, so building the same attributes in the mirror at two revisions has the same outcome in the model; no contract relies on this.
- click registration, `echo`/`secho`/`style` output and the pull-request title message: user interface. The `--against` default of `HEAD` is CLI wiring; `Review.Wip` takes `against` as a parameter.
- `universal_newlines=True` newline translation: the evaluator output is taken as the text after that translation.
- Build.BuildInPath: Python's concrete set iteration order is not modelled. The method returns the order it used, which is some enumeration of the set.
- Review.Revs, Review.Wip, Review.ReviewPr: the returned call list holds only the build step's processes. It leaves out the processes started before the build: the checkouts and `nix-env` runs of `packages_for_sha`, `nix-env -f .` and `git rev-parse` in `wip`, and `git merge-base` and the HTTP GET in `pr`.
- Review.Revs: revision names are treated as stable identifiers. In the code (nox/review.py:24-29, 56-60, 113-116) they are unresolved names that `git checkout` interprets in the mirror, whose HEAD each checkout moves, and the cache stores the result under the name. So `revs HEAD HEAD~1` may compare a commit with itself, and a name looked up in an earlier run returns that run's cached set. The model cannot show either effect.
- Build.BuildInPath: nix-build has two outcomes here, exit status zero or not. If nix-build cannot be started at all, the code raises an OSError that `except subprocess.CalledProcessError` does not catch, so `ls -l` never runs. The model does not represent that case.
