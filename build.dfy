/** `build_in_path` and `build_sha`: running nix-build on the changed attributes. */
module Build {
  import opened Wrappers
  import opened World

  /** The `-A <attr>` pairs for the attributes in `order`, appended one attribute at a time. */
  function Flags(order: seq<string>): seq<string>
  {
    if order == [] then [] else Flags(order[..|order| - 1]) + ["-A", order[|order| - 1]]
  }

  /** The nix-build argument vector for attributes taken in `order`. */
  function CommandFor(order: seq<string>, path: string): seq<string>
  {
    ["nix-build"] + Flags(order) + [path]
  }

  /** `order` lists every element of `attrs` exactly once: one iteration of the set. */
  predicate Enumerates(order: seq<string>, attrs: set<string>)
  {
    |order| == |attrs| &&
    (forall a :: a in attrs ==> a in order) &&
    (forall i :: 0 <= i < |order| ==> order[i] in attrs) &&
    (forall i, j :: 0 <= i < j < |order| ==> order[i] != order[j])
  }

  /**
   * The command starts with "nix-build", then "-A" and the i-th attribute
   * for every i in iteration order, and ends with the path.
   */
  lemma {:induction false} CommandShape(order: seq<string>, path: string)
    ensures |CommandFor(order, path)| == 2 + 2 * |order|
    ensures CommandFor(order, path)[0] == "nix-build"
    ensures CommandFor(order, path)[1 + 2 * |order|] == path
    ensures forall i :: 0 <= i < |order| ==>
              CommandFor(order, path)[1 + 2 * i] == "-A" && CommandFor(order, path)[2 + 2 * i] == order[i]
  {
    FlagsShape(order);
  }

  lemma {:induction false} FlagsShape(order: seq<string>)
    ensures |Flags(order)| == 2 * |order|
    ensures forall i :: 0 <= i < |order| ==> Flags(order)[2 * i] == "-A" && Flags(order)[2 * i + 1] == order[i]
  {
    if order != [] {
      var init := order[..|order| - 1];
      FlagsShape(init);
      assert forall i :: 0 <= i < |init| ==> order[i] == init[i];
    }
  }

  /** What one call of build_in_path does with `attrs` and `path`. */
  ghost predicate BuildsIn(env: Env, attrs: set<string>, path: string, report: BuildReport, calls: seq<Call>)
  {
    if attrs == {} then
      report == NothingChanged && calls == []
    else
      report.Built? &&
      Enumerates(report.order, attrs) &&
      report.command == CommandFor(report.order, env.resolve(path)) &&
      report.resultDir == env.resultDir &&
      report.failed == !env.buildOk(report.command) &&
      calls == [Call(report.command, Some(env.resultDir)), Call(["ls", "-l", env.resultDir], None)]
  }

  /** What the user is told: nothing changed, or the command, its result directory and whether it failed. */
  datatype BuildReport =
    | NothingChanged
    | Built(order: seq<string>, command: seq<string>, resultDir: string, failed: bool)

  /**
   * `build_in_path(attrs, path)`: with no attributes it starts no process;
   * otherwise it runs nix-build once in the result directory and lists that
   * directory afterwards, whether or not the build failed.
   */
  method BuildInPath(env: Env, attrs: set<string>, path: string)
    returns (report: BuildReport, calls: seq<Call>)
    ensures BuildsIn(env, attrs, path, report, calls)
  {
    if attrs == {} {
      return NothingChanged, [];
    }
    var canonicalPath := env.resolve(path);
    var resultDir := env.resultDir;
    var command := ["nix-build"];
    var order := [];
    var rest := attrs;
    while rest != {}
      invariant rest <= attrs
      invariant forall a :: a in attrs <==> a in rest || a in order
      invariant forall a :: a in order ==> a !in rest
      invariant forall i, j :: 0 <= i < j < |order| ==> order[i] != order[j]
      invariant |order| + |rest| == |attrs|
      invariant command == ["nix-build"] + Flags(order)
      decreases |rest|
    {
      var a :| a in rest;
      command := command + ["-A"];
      command := command + [a];
      assert (order + [a])[..|order|] == order;
      order := order + [a];
      rest := rest - {a};
    }
    command := command + [canonicalPath];
    var failed := !env.buildOk(command);
    calls := [Call(command, Some(resultDir)), Call(["ls", "-l", resultDir], None)];
    report := Built(order, command, resultDir, failed);
  }

  /** `build_sha(attrs, sha)`: check `sha` out in the mirror, then build there. */
  method BuildSha(env: Env, attrs: set<string>, sha: string)
    returns (r: Result<(BuildReport, seq<Call>), Error>)
    ensures !env.checkout(sha) ==> r == Err(CheckoutFailed(sha))
    ensures env.checkout(sha) ==>
              r.Ok? && |r.value.1| >= 1 &&
              r.value.1[0] == Call(["git", "checkout", sha], Some(env.mirror)) &&
              BuildsIn(env, attrs, env.mirror, r.value.0, r.value.1[1..])
  {
    if !env.checkout(sha) {
      return Err(CheckoutFailed(sha));
    }
    var report, calls := BuildInPath(env, attrs, env.mirror);
    var all := [Call(["git", "checkout", sha], Some(env.mirror))] + calls;
    assert all[1..] == calls;
    return Ok((report, all));
  }
}
