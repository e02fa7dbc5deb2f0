/**
 * `utils/prepare.py`: dispatch of a package's prepare procedure by the name its record stores,
 * and the string work of `prepare_pkg_linux` (download URL, archive name, the `make` that generates
 * the kernel configuration, the `cp` of it, the two PKGBUILD edits and the removal of the
 * preparation directory) together with the progress lines it logs.
 */
module PrepareTasks {
  import opened Wrappers
  import opened Strings
  import opened Logging
  import opened PackageStore
  import opened Effects

  /** `PrepareBuildFunctionNotFound`, with its message. */
  datatype PrepareError = PrepareBuildFunctionNotFound(message: string)

  function NotFoundMessage(packageName: string): string {
    "Prepare function for package \"" + packageName + "\" was not found"
  }

  /**
   * `preparePackage`: the record's prepare function name is looked up among the names the class
   * `PrepareBuildFunctions` answers to (`registry`); a missing name raises, a present one is invoked
   * once with the package.
   */
  function PreparePackage(registry: set<string>, p: PackageInfo, r: Dict): (d: Result<Invocation, PrepareError>)
    requires HasShape(r)
    ensures d.Failure? <==> Fields(r).prepareFunctionName !in registry
    ensures d.Failure? ==> d.error.message == NotFoundMessage(p.name)
    ensures d.Success? ==> d.value.procedure == Fields(r).prepareFunctionName && d.value.package == p
  {
    var task := Fields(r).prepareFunctionName;
    if task !in registry then Failure(PrepareBuildFunctionNotFound(NotFoundMessage(p.name)))
    else Success(Invocation(task, p))
  }

  /**
   * Dispatch reads the prepare function name and nothing else of the record: two records with the
   * same prepare function name (whatever their build function name or build flag) dispatch alike,
   * and a successful dispatch invokes exactly that name.
   */
  lemma PrepareReadsOnlyItsName(registry: set<string>, p: PackageInfo, r1: Dict, r2: Dict)
    requires HasShape(r1) && HasShape(r2)
    requires Fields(r1).prepareFunctionName == Fields(r2).prepareFunctionName
    ensures PreparePackage(registry, p, r1) == PreparePackage(registry, p, r2)
    ensures PreparePackage(registry, p, r1).Success? ==>
              PreparePackage(registry, p, r1).value.procedure == Fields(r2).prepareFunctionName
  {
  }

  /** The not-found message quotes the package name right after its fixed opening words. */
  lemma NotFoundMessageNamesPackage(packageName: string)
    ensures var head := "Prepare function for package \"";
            var m := NotFoundMessage(packageName);
            && m[..|head|] == head
            && m[|head|..|head| + |packageName|] == packageName
  {
    var head := "Prepare function for package \"";
    assert NotFoundMessage(packageName) == head + packageName + "\" was not found";
  }

  // ---------------------------------------------------------------------------
  // prepare_pkg_linux

  const PrepareTitle := "PREPARE"
  const PrepareMaximum := 11
  const PrepareMessages := [
    "Starting package preparations...",
    "Creating temporary directory...",
    "Downloading Linux Kernel...",
    "Linux Kernel downloaded...",
    "Extracting Linux Kernel...",
    "Linux Kernel extracted...",
    "Generating Kernel configuration file for AArch64...",
    "Kernel configuration file generated...",
    "Modifying PKGBUILD...",
    "Cleaning up...",
    "Done!"]
  const PreparationDirectory := "./temp"
  const ChecksumTemplate := "{x} SKIP {x}"
  /** What Python's `str` gives for the `IndexError` of indexing an empty string. */
  const EmptyVersionError := "string index out of range"

  /** The values `prepare_pkg_linux` computes and hands to downloads, commands and `sed`. */
  datatype Preparation = Preparation(
    downloadURL: string,      // fetched by `urlretrieve`
    archive: string,          // the file it is saved as
    configure: Command,       // `make ARCH=arm64 defconfig` in the extracted kernel tree
    configCopy: Command,      // the `cp` of the generated `.config` into the PKGBUILD directory
    versionEdit: string,      // the shell line that rewrites `pkgver=` in the PKGBUILD
    checksumEdit: string,     // the shell line that rewrites `sha256sums=` in the PKGBUILD
    cleanup: Command)         // the `rm` of the preparation directory

  /** `_pkgbuildModifyVersionKey(newVersion, path)`. */
  function VersionEdit(newVersion: string, path: string): string {
    "sed --in-place 's|^pkgver=.*|pkgver=" + newVersion + "|g' " + path + "/PKGBUILD"
  }

  /** `_pkgbuildModifySha256CheckSumKey(newCheckSum, path)`. */
  function ChecksumEdit(newCheckSum: string, path: string): string {
    "sed --in-place 's|^sha256sums=.*|sha256sums=( " + newCheckSum + " )|g' " + path + "/PKGBUILD"
  }

  /** `"{x} SKIP {x}"` with its first, then its next `{x}` replaced by the two digests. */
  function Checksums(tarSum: string, configSum: string): string {
    ReplaceFirst(ReplaceFirst(ChecksumTemplate, Placeholder, tarSum), Placeholder, configSum)
  }

  /**
   * The checksum value is the archive digest, " SKIP ", then the configuration digest, as long as
   * the archive digest holds no '{' (a hexadecimal digest never does).
   */
  lemma ChecksumsJoin(tarSum: string, configSum: string)
    requires '{' !in tarSum
    ensures Checksums(tarSum, configSum) == tarSum + " SKIP " + configSum
  {
    var rest := " SKIP " + Placeholder;
    assert ChecksumTemplate == "" + Placeholder + rest;
    ReplaceFirstAfterPrefix("", rest, tarSum);
    var once := ReplaceFirst(ChecksumTemplate, Placeholder, tarSum);
    assert once == "" + tarSum + rest;
    var prefix := tarSum + " SKIP ";
    assert '{' !in prefix;
    assert once == prefix + Placeholder + "";
    ReplaceFirstAfterPrefix(prefix, "", configSum);
    assert Checksums(tarSum, configSum) == prefix + configSum + "";
  }

  /**
   * With a kernel-style source template `a{x}b{x}c` (no '{' in `a` or `b`), the download URL puts
   * the first character of the version in the first placeholder and the whole version in the second.
   */
  lemma DownloadURLUsesMajorDigit(a: string, b: string, c: string, version: string)
    requires '{' !in a && '{' !in b && |version| >= 1 && version[0] != '{'
    ensures FillTemplate(a + Placeholder + b + Placeholder + c, [version[..1], version]) == a + version[..1] + b + version + c
  {
    assert version[..1] == [version[0]];
    FillTwoPlaceholders(a, b, c, version[..1], version);
  }

  /** One progress line of `prepare_pkg_linux`: the `k`-th message, with counter `k + 1` out of 11. */
  method LogPrepareStep(packageName: string, k: nat, count: int, lines: seq<string>) returns (lines': seq<string>, count': int)
    requires k < |PrepareMessages| && count == k + 1
    requires lines == LogSeries(PrepareTitle, packageName, 1, PrepareMaximum, PrepareMessages[..k])
    ensures count' == k + 2
    ensures lines' == LogSeries(PrepareTitle, packageName, 1, PrepareMaximum, PrepareMessages[..k + 1])
  {
    lines', count' := Emit(PrepareTitle, packageName, count, PrepareMaximum, PrepareMessages[k], lines);
    LogSeriesNext(PrepareTitle, packageName, 1, PrepareMaximum, PrepareMessages, k);
  }

  /**
   * `prepare_pkg_linux` run from directory `cwd`, with the SHA-256 digests of the downloaded archive
   * and of the generated configuration given as `tarSum` and `configSum`. An empty version raises
   * `IndexError` after the first two progress lines; otherwise all eleven lines are logged, with
   * counters 1 to 11 out of 11, and the computed values are returned.
   */
  method PreparePkgLinux(db: Database, p: PackageInfo, cwd: string, tarSum: string, configSum: string)
    returns (lines: seq<string>, result: Result<Preparation, string>)
    requires db.Valid() && db.WellFormed() && p.name in db.packageInfo
    ensures var f := Fields(db.packageInfo[p.name]);
            f.version == [] ==>
              && lines == LogSeries(PrepareTitle, p.name, 1, PrepareMaximum, PrepareMessages[..2])
              && result == Failure(EmptyVersionError)
    ensures var r := db.packageInfo[p.name];
            var v := Fields(r).version;
            var buildPath := PackageBuildPath(cwd, r);
            v != [] ==>
              && lines == LogSeries(PrepareTitle, p.name, 1, PrepareMaximum, PrepareMessages)
              && result == Success(Preparation(
                   FillTemplate(Fields(r).sourceURL, [v[..1], v]),
                   "linux-" + v + ".tar.xz",
                   Command(cwd + "/temp/linux-" + v, ["make", "ARCH=arm64", "defconfig"]),
                   Command(cwd, ["cp", "--recursive", "--update", "--verbose",
                                 PreparationDirectory + "/linux-" + v + "/.config", buildPath + "/config"]),
                   VersionEdit(v + ".aarch64", buildPath),
                   ChecksumEdit(Checksums(tarSum, configSum), buildPath),
                   Command(cwd, ["rm", "--recursive", "--force", PreparationDirectory])))
  {
    var count := 1;
    lines := [];
    assert PrepareMessages[..0] == [];
    lines, count := LogPrepareStep(p.name, 0, count, lines);
    lines, count := LogPrepareStep(p.name, 1, count, lines);
    var version := Fields(db.Record(p)).version;
    if version == [] {
      return lines, Failure(EmptyVersionError);
    }
    var major := [version[0]];
    lines, count := LogPrepareStep(p.name, 2, count, lines);
    assert major == version[..1];
    var downloadURL := GetSourceURL(Fields(db.Record(p)).sourceURL, Some([major, version]));
    var archive := "linux-" + version + ".tar.xz";
    lines, count := LogPrepareStep(p.name, 3, count, lines);
    lines, count := LogPrepareStep(p.name, 4, count, lines);
    lines, count := LogPrepareStep(p.name, 5, count, lines);
    lines, count := LogPrepareStep(p.name, 6, count, lines);
    // `os.chdir` into `./temp`, then into the extracted tree
    var configure := Command(cwd + "/temp/linux-" + version, ["make", "ARCH=arm64", "defconfig"]);
    lines, count := LogPrepareStep(p.name, 7, count, lines);
    lines, count := LogPrepareStep(p.name, 8, count, lines);
    var buildPath := PackageBuildPath(cwd, db.Record(p));
    var configCopy := Command(cwd, ["cp", "--recursive", "--update", "--verbose",
                                    PreparationDirectory + "/linux-" + version + "/.config", buildPath + "/config"]);
    var versionEdit := VersionEdit(Fields(db.Record(p)).version + ".aarch64", buildPath);
    var checksumEdit := ChecksumEdit(Checksums(tarSum, configSum), buildPath);
    lines, count := LogPrepareStep(p.name, 9, count, lines);
    var cleanup := Command(cwd, ["rm", "--recursive", "--force", PreparationDirectory]);
    lines, count := LogPrepareStep(p.name, 10, count, lines);
    assert PrepareMessages[..11] == PrepareMessages;
    result := Success(Preparation(downloadURL, archive, configure, configCopy, versionEdit, checksumEdit, cleanup));
  }
}
