/**
 * `utils/build.py`: dispatch of a package's build procedure by the name its record stores, the
 * no-op `build_pkg_linux`, and the commands and progress lines of `build_pkg_example_package`.
 */
module BuildTasks {
  import opened Wrappers
  import opened Strings
  import opened Logging
  import opened PackageStore
  import opened Effects

  /** `BuildFunctionNotFound`, with its message. */
  datatype BuildError = BuildFunctionNotFound(message: string)

  function NotFoundMessage(packageName: string): string {
    "Build function for package \"" + packageName + "\" was not found"
  }

  /**
   * `buildPackage`: the record's build function name is looked up among the names the class
   * `BuildFunctions` answers to (`registry`); a missing name raises, a present one is invoked once
   * with the package.
   */
  function BuildPackage(registry: set<string>, p: PackageInfo, r: Dict): (d: Result<Invocation, BuildError>)
    requires HasShape(r)
    ensures d.Failure? <==> Fields(r).buildFunctionName !in registry
    ensures d.Failure? ==> d.error.message == NotFoundMessage(p.name)
    ensures d.Success? ==> d.value.procedure == Fields(r).buildFunctionName && d.value.package == p
  {
    var task := Fields(r).buildFunctionName;
    if task !in registry then Failure(BuildFunctionNotFound(NotFoundMessage(p.name)))
    else Success(Invocation(task, p))
  }

  /**
   * Dispatch reads the build function name and nothing else of the record: two records with the
   * same build function name dispatch alike, and a successful dispatch invokes exactly that name.
   */
  lemma BuildReadsOnlyItsName(registry: set<string>, p: PackageInfo, r1: Dict, r2: Dict)
    requires HasShape(r1) && HasShape(r2)
    requires Fields(r1).buildFunctionName == Fields(r2).buildFunctionName
    ensures BuildPackage(registry, p, r1) == BuildPackage(registry, p, r2)
    ensures BuildPackage(registry, p, r1).Success? ==>
              BuildPackage(registry, p, r1).value.procedure == Fields(r2).buildFunctionName
  {
  }

  /** The not-found message quotes the package name right after its fixed opening words. */
  lemma NotFoundMessageNamesPackage(packageName: string)
    ensures var head := "Build function for package \"";
            var m := NotFoundMessage(packageName);
            && m[..|head|] == head
            && m[|head|..|head| + |packageName|] == packageName
  {
    var head := "Build function for package \"";
    assert NotFoundMessage(packageName) == head + packageName + "\" was not found";
  }

  /** `build_pkg_linux`: returns at once, logging nothing and running nothing. */
  method BuildPkgLinux(p: PackageInfo) returns (lines: seq<string>, commands: seq<Command>)
    ensures lines == [] && commands == []
  {
    return [], [];
  }

  // ---------------------------------------------------------------------------
  // build_pkg_example_package

  const BuildTitle := "BUILD"
  const BuildMaximum := 4
  const BuildMessages := ["Building package...", "Done building...", "Moving packages...", "Done!"]

  /** The `cp` that copies the built files matching `pattern` into the internal repository. */
  function CopyBuilt(cwd: string, r: Dict, pattern: string): Command
    requires HasShape(r)
  {
    Command(cwd, ["cp", "--recursive", "--update", "--verbose", "--parents",
                  PackageBuildPath(cwd, r) + pattern, InternalRepositoryPath(cwd, r)])
  }

  /** One progress line of `build_pkg_example_package`: the `k`-th message, with counter `k + 1` out of 4. */
  method LogBuildStep(packageName: string, k: nat, count: int, lines: seq<string>) returns (lines': seq<string>, count': int)
    requires k < |BuildMessages| && count == k + 1
    requires lines == LogSeries(BuildTitle, packageName, 1, BuildMaximum, BuildMessages[..k])
    ensures count' == k + 2
    ensures lines' == LogSeries(BuildTitle, packageName, 1, BuildMaximum, BuildMessages[..k + 1])
  {
    lines', count' := Emit(BuildTitle, packageName, count, BuildMaximum, BuildMessages[k], lines);
    LogSeriesNext(BuildTitle, packageName, 1, BuildMaximum, BuildMessages, k);
  }

  /**
   * `build_pkg_example_package` run from directory `cwd`: `makepkg --sign` in the package's
   * PKGBUILD directory, then the copies of the packages and of their signatures into the internal
   * repository; four progress lines with counters 1 to 4 out of 4.
   */
  method BuildPkgExamplePackage(db: Database, p: PackageInfo, cwd: string) returns (lines: seq<string>, commands: seq<Command>)
    requires db.Valid() && db.WellFormed() && p.name in db.packageInfo
    ensures lines == LogSeries(BuildTitle, p.name, 1, BuildMaximum, BuildMessages)
    ensures var r := db.packageInfo[p.name];
            commands == [Command(PackageBuildPath(cwd, r), ["makepkg", "--sign"]),
                         CopyBuilt(cwd, r, "/*.pkg.tar.zst"),
                         CopyBuilt(cwd, r, "/*.pkg.tar.zst.sig")]
  {
    var count := 1;
    lines := [];
    assert BuildMessages[..0] == [];
    lines, count := LogBuildStep(p.name, 0, count, lines);
    var buildDirectory := PackageBuildPath(cwd, db.Record(p));
    commands := [Command(buildDirectory, ["makepkg", "--sign"])];
    lines, count := LogBuildStep(p.name, 1, count, lines);
    lines, count := LogBuildStep(p.name, 2, count, lines);
    commands := commands + [CopyBuilt(cwd, db.Record(p), "/*.pkg.tar.zst"), CopyBuilt(cwd, db.Record(p), "/*.pkg.tar.zst.sig")];
    lines, count := LogBuildStep(p.name, 3, count, lines);
    assert BuildMessages[..4] == BuildMessages;
  }

  /**
   * The two `cp` argument lists of the example package's build: both name the internal repository
   * path as their target, the archive pattern starts with the directory `makepkg` ran in, and the
   * signature pattern is the archive pattern followed by `.sig`. The patterns are passed as they are
   * (no shell expands the `*`).
   */
  lemma ExampleCopiesFollowBuild(cwd: string, r: Dict)
    requires HasShape(r)
    ensures var zst := CopyBuilt(cwd, r, "/*.pkg.tar.zst");
            var sig := CopyBuilt(cwd, r, "/*.pkg.tar.zst.sig");
            && zst.argv[6] == sig.argv[6] == InternalRepositoryPath(cwd, r)
            && zst.argv[5][..|PackageBuildPath(cwd, r)|] == PackageBuildPath(cwd, r)
            && sig.argv[5] == zst.argv[5] + ".sig"
  {
    var dir := PackageBuildPath(cwd, r);
    assert (dir + "/*.pkg.tar.zst")[..|dir|] == dir;
    assert dir + "/*.pkg.tar.zst.sig" == (dir + "/*.pkg.tar.zst") + ".sig";
  }
}
