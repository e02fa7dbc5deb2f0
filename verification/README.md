# ALARM package database scripts, modelled in Dafny

This project models the Python scripts that keep the package list of an ARM Linux package repository:

- **The package database** (`scripts/utils/db.py`). This is one JSON document:
  - a `packages` list of names;
  - a `package_info` map from each name to a record with its version, URLs, paths and build information.

  The database is loaded into memory, and the whole document is written back after every successful change. Here it is the class `PackageStore.Database`:
  - the fields `packages` and `packageInfo`, plus a ghost `persisted` copy of the file;
  - the invariant `Valid()`: names are unique, they are exactly the keys of the map, and the file holds the in-memory document;
  - `WellFormed()`: every record follows the schema.

  Records stay JSON objects (`Dict`), so a key-path update adds keys or fails exactly as the Python dictionary assignment does.
- **The version sync script** (`scripts/sync_package_database.py`, module `VersionSync`). For every package except `example-package` it:
  - logs a line;
  - reads the version element of the upstream page;
  - with the intended type check (see Findings) cleans it with the regular expression `content="[^"]*"` and the filtered word `.arch1-1`;
  - then either clears the build flag (same version) or sets it and stores the new version.

  As written, the type check skips every package after its first line, so the script never changes the store; both versions are modelled.

  The run is a pure specification (`SyncStep`, `SyncRun`, `SyncMain`), and the methods on the database are proved to follow it.
- **The preparation and build scripts** (`scripts/prepare_packages.py`, `scripts/build_packages.py`). They share one loop, in module `Batch`:
  - visit every record in store order;
  - skip a record that is not marked for build;
  - dispatch the others by the procedure name stored in the record (`scripts/utils/prepare.py`, `scripts/utils/build.py`);
  - log an exception from dispatch or from the procedure, and go on.

  The loop never writes to the store. The procedures `prepare_pkg_linux`, `build_pkg_linux` and `build_pkg_example_package` are modelled by:
  - the values they compute;
  - the subprocess commands they start (`make`, `cp`, `rm`, `makepkg`) and the `sed` lines they build;
  - the lines they log (`PrepareTasks`, `BuildTasks`).
- **The progress logger** (`scripts/utils/logging.py`, module `Logging`) and **the interactive tool** (`scripts/cli.py`, module `Cli`).
  - The tool reads a line, lower-cases it and parses it as `command(arg, arg, ...)`. The commands `get`, `new` and `remove` print a record, add one and delete one.
  - `new` creates the repository directory under `/packages/<repo>/os/aarch64/<name>`. The record it stores points to `/aarch64/<repo>/os/<name>`, which `get` and `remove` then use. The model keeps both paths as the code writes them.

Things the scripts do outside the program become values:

- printed lines become returned `seq<string>`;
- subprocess calls become `Effects.Command` values (the calls in `prepare_pkg_linux` that are not subprocesses are listed under Left out);
- file writes in the tool become `Cli.FileEffect` values;
- the page download and HTML lookup become a function parameter `fetch`;
- the procedures the batch loop invokes become a parameter `run` that says whether they raise;
- the working directory becomes a parameter `cwd`.

`Strings` writes out the Python `str` operations the scripts use, on `seq<char>`. `Wrappers` holds `Option`, `Result` and `Outcome`.

## Model

| member | source | states |
|---|---|---|
| Logging.Log | scripts/utils/logging.py:23-40 | prints `[title @ package][current/maximum] message` and returns `current + 1`; no bound between counter and maximum is checked |
| Logging.LogLineFields | scripts/utils/logging.py:35-37 | the line opens with the bracketed title and package, and its counter field is the decimal rendering of `current`, which parses back to `current` |
| Logging.LogSeriesNext | scripts/utils/logging.py:23-40 | logging the next message of a series under one title appends exactly that message's line, with the next counter |
| Logging.Emit | scripts/utils/logging.py:23-40 | one logging call appends its line to the lines so far and advances the counter by one |
| Strings.ReplaceFirstSpec | scripts/utils/db.py:55-56 | `replace(pat, rep, 1)` leaves a string without `pat` unchanged and otherwise replaces exactly the leftmost occurrence |
| Strings.JoinSplit | scripts/cli.py:257 | splitting on ", " loses nothing: joining the pieces with ", " gives back the argument text |
| Strings.SplitPieces | scripts/cli.py:257 | no argument piece contains the separator, and every character of a piece comes from the split text |
| Strings.ReplaceAllChars | scripts/sync_package_database.py:146-154 | `replace` introduces no character that is in neither the string nor the replacement |
| Strings.ReplaceAllRemovesChar | scripts/sync_package_database.py:149 | `replace('"', "")` leaves no double quote |
| Strings.ReplaceAllCharByChar | scripts/utils/db.py:372-373 | `replace("-", "_")` keeps the length and changes exactly the positions holding `-` |
| Strings.LowerProperties | scripts/cli.py:247 | a lowered line has no upper-case letter, and lowering keeps every character that is not a letter |
| Strings.IntToStringRoundTrip | scripts/utils/logging.py:36 | the decimal rendering of an integer is an integer literal that parses back to it |
| PackageStore.GetSourceURL | scripts/utils/db.py:40-59 | no list or an empty list gives the raw template; otherwise each word fills the leftmost remaining `{x}`, in order |
| PackageStore.FillTemplateWithoutPlaceholder | scripts/utils/db.py:52-56 | a template without `{x}` comes back unchanged whatever the words |
| PackageStore.ReplaceFirstAfterPrefix | scripts/utils/db.py:56 | the leftmost `{x}` after a prefix without `{` is the one right after the prefix |
| PackageStore.FillTwoPlaceholders | scripts/utils/db.py:52-56 | with two placeholders, each of the two words lands in its own placeholder, in order |
| PackageStore.TaskNameSpec | scripts/utils/db.py:372-373 | a derived procedure name is the prefix, then the package name with every `-` turned into `_` and nothing else changed, and it holds no `-` |
| PackageStore.NewRecordFields | scripts/utils/db.py:378-391 | the record `addPackage` stores follows the schema, returns every argument through its getter, is marked for build and carries the derived procedure names |
| PackageStore.SplitAtOnlySeparator | scripts/utils/db.py:335 | a key path with one `/` splits into its two sides |
| PackageStore.SplitWithoutSeparator | scripts/utils/db.py:335 | a key path without `/` splits into itself |
| PackageStore.SetMarkedForBuild | scripts/utils/db.py:335-341 | writing a boolean at `buildInfo/markedForBuild` succeeds on a schema record and changes the build flag and nothing else |
| PackageStore.SetVersion | scripts/utils/db.py:335-339 | writing a string at `version` succeeds on a schema record and changes the version and nothing else |
| PackageStore.RemoveFirst | scripts/utils/db.py:417 | `list.remove` needs the name to be listed (the guard at db.py:411 ensures it; Python raises `ValueError` otherwise) and leaves one name fewer |
| PackageStore.RemoveFirstCount | scripts/utils/db.py:417 | `list.remove` drops exactly one copy of the name and keeps every other name as often as before |
| PackageStore.RemoveFirstAt | scripts/utils/db.py:417 | `list.remove` cuts out exactly the first occurrence of the name |
| PackageStore.AddKeepsConsistent | scripts/utils/db.py:376-391 | appending a fresh name with its record keeps names unique and equal to the record keys |
| PackageStore.CutKeepsNoDuplicates | scripts/utils/db.py:417 | cutting one entry out of a duplicate-free list leaves exactly the other names, once each |
| PackageStore.DeleteKeepsConsistent | scripts/utils/db.py:417-420 | deleting a present name removes it from list and map, keeps the other names in order and keeps the document consistent |
| PackageStore.Views | scripts/utils/db.py:291-311 | one view per listed name, in list order |
| PackageStore.Database.constructor | scripts/utils/db.py:261-268 | a store built from a consistent loaded document is valid and holds that document |
| PackageStore.Database.GetPackage | scripts/utils/db.py:270-289 | fails with `PackageNotFound(name)` exactly when the name is not listed; otherwise gives a view of that name, which has a record |
| PackageStore.Database.GetAllPackages | scripts/utils/db.py:291-311 | one view per listed package, in list order, each with a record |
| PackageStore.Database.ModifyPackage | scripts/utils/db.py:313-348 | an unknown name fails and changes nothing; otherwise the record becomes the key-path update, or the store is unchanged when the nested assignment raises; the file is rewritten exactly on success |
| PackageStore.Database.AddPackage | scripts/utils/db.py:350-398 | a listed name raises the duplicate error and changes nothing; otherwise the name is appended, its new record is stored and the file rewritten; validity and the schema are kept |
| PackageStore.Database.DeletePackage | scripts/utils/db.py:400-427 | an unknown name fails and changes nothing; otherwise its first occurrence leaves the list and its record leaves the map, and the file is rewritten; validity and the schema are kept |
| VersionSync.PrefixFrom | scripts/sync_package_database.py:143-147 | the leftmost case-insensitive `content="` at or after a position, and none before it |
| VersionSync.QuoteFrom | scripts/sync_package_database.py:32 | the first double quote at or after a position, and none before it |
| VersionSync.FirstMatchIsLeftmost | scripts/sync_package_database.py:143-147 | `findall(...)[0]` is a match of the pattern, no match starts further left, and there is none only when the pattern matches nowhere |
| VersionSync.MatchEndUnique | scripts/sync_package_database.py:32 | a match starting at a given index has a single end |
| VersionSync.RemoveWordsChars | scripts/sync_package_database.py:153-154 | removing the filtered words adds no character |
| VersionSync.CleanVersionStringSpec | scripts/sync_package_database.py:132-157 | cleaning fails (the `[0]` raises) exactly when the pattern matches nowhere; otherwise it is the leftmost match with `content="`, the quotes and the filtered words removed |
| VersionSync.CleanVersionHasNoQuote | scripts/sync_package_database.py:146-150 | a cleaned version holds no double quote |
| VersionSync.ArchTextChars | scripts/sync_package_database.py:31 | a version followed by `.arch1-1` has no double quote when the version has none |
| VersionSync.WholeStringMatches | scripts/sync_package_database.py:32 | in `content="<w>"` with no quote in `w`, the first match is the whole string |
| VersionSync.StripContentPrefix | scripts/sync_package_database.py:148 | removing `content="` from the element leaves the quoted rest |
| VersionSync.FirstQuoteIsLast | scripts/sync_package_database.py:149 | in `<w>"` with no quote in `w`, the first quote is the closing one |
| VersionSync.StripClosingQuote | scripts/sync_package_database.py:149 | removing the quotes from `<w>"` leaves `w` |
| VersionSync.StripArchSuffix | scripts/sync_package_database.py:153-154 | removing `.arch1-1` from `<v>.arch1-1` leaves `v` when `v` has no letter `a` |
| VersionSync.CleanArchVersion | scripts/sync_package_database.py:132-157 | for a version `v` with no double quote and no letter `a`, the page element `content="<v>.arch1-1"` cleans to the bare version `v` |
| VersionSync.CleanVersionExample | scripts/sync_package_database.py:31-32 | `content="6.2.arch1-1"` cleans to `6.2` |
| VersionSync.Decide | scripts/sync_package_database.py:94-118 | the decision sets the build flag exactly when the versions differ, stores the upstream version and keeps the schema |
| VersionSync.DecideTwice | scripts/sync_package_database.py:94-118 | syncing twice against the same upstream version leaves the package marked "do not build" at that version |
| VersionSync.StepFrame | scripts/sync_package_database.py:54-127 | one iteration keeps the package set and the schema, changes no other record, and changes nothing for the example package or after the run stopped |
| VersionSync.RunFrame | scripts/sync_package_database.py:54-127 | a whole run keeps the package set and the schema and changes neither unvisited records nor the example package |
| VersionSync.AsWrittenStep | scripts/sync_package_database.py:86-88 | with the guard as written, one iteration changes no record |
| VersionSync.RunExtends | scripts/sync_package_database.py:54 | the run over one more package is one more iteration |
| VersionSync.StepSkipsExample | scripts/sync_package_database.py:56-58 | the example package is skipped without a line |
| VersionSync.StepUnavailable | scripts/sync_package_database.py:61-83 | a page that cannot be read stops the run right after the package's first line |
| VersionSync.StepAsWrittenSkips | scripts/sync_package_database.py:86-88 | with the guard as written, a readable package is skipped after its first line and the run goes on |
| VersionSync.StepNoMatch | scripts/sync_package_database.py:91 | with the intended guard, a version element the pattern does not match stops the run |
| VersionSync.IntendedStepDecides | scripts/sync_package_database.py:91-127 | with the intended guard, a readable version is decided and stored, and the second line carries the decision message |
| VersionSync.AsWrittenNeverUpdates | scripts/sync_package_database.py:86-88 | the script as written never changes a record |
| VersionSync.StoppedRunStaysStopped | scripts/sync_package_database.py:54-127 | once an exception has stopped the run, the remaining packages change nothing |
| VersionSync.LoopExit | scripts/sync_package_database.py:47-54 | a loop that has seen every package or stopped has reached the state of `main()` |
| VersionSync.GuardCounterexample | scripts/sync_package_database.py:86-88 | a package with a newer upstream version: as written it is left unchanged, while the intended guard marks it for build with the new version |
| VersionSync.StoreFlag | scripts/sync_package_database.py:96-98 | `modifyPackage(name, "buildInfo/markedForBuild", b)` sets that record's flag and nothing else, keeping validity |
| VersionSync.StoreVersion | scripts/sync_package_database.py:118 | `modifyPackage(name, "version", v)` sets that record's version and nothing else, keeping validity |
| VersionSync.ApplyVersion | scripts/sync_package_database.py:94-127 | the two-branch update stores `Decide` of the record, and the logged message reads the version back from the updated record |
| VersionSync.VisitAsWritten | scripts/sync_package_database.py:54-88 | one iteration with the guard as written logs what `SyncStep` gives and changes no record |
| VersionSync.SyncAsWritten | scripts/sync_package_database.py:39-127 | `main()` as written logs the lines of `SyncMain` and, with no `modifies` clause, writes nothing to the store |
| VersionSync.VisitIntended | scripts/sync_package_database.py:54-127 | one iteration with the intended guard stores the records and logs the lines `SyncStep` gives |
| VersionSync.Sync | scripts/sync_package_database.py:39-127 | `main()` with the intended guard leaves the store and the log as `SyncMain` says, keeping the package list, validity and the schema |
| PrepareTasks.PreparePackage | scripts/utils/prepare.py:302-334 | dispatch fails exactly when the record's prepare procedure name is not one the procedure class answers to, with the not-found message; otherwise it invokes the procedure of that name on the package |
| PrepareTasks.PrepareReadsOnlyItsName | scripts/utils/prepare.py:307-324 | dispatch depends on the prepare procedure name alone, and a successful one invokes exactly that name |
| PrepareTasks.NotFoundMessageNamesPackage | scripts/utils/prepare.py:313-314 | the not-found message quotes the package name right after its fixed opening words |
| PrepareTasks.ChecksumsJoin | scripts/utils/prepare.py:204-232 | the checksum value is the archive digest, ` SKIP `, then the configuration digest |
| PrepareTasks.DownloadURLUsesMajorDigit | scripts/utils/prepare.py:104-119 | the download URL puts the first character of the version in the first placeholder and the whole version in the second |
| PrepareTasks.LogPrepareStep | scripts/utils/prepare.py:76-255 | each progress line is the next message with the next counter out of 11 |
| PrepareTasks.PreparePkgLinux | scripts/utils/prepare.py:58-256 | an empty version raises `IndexError` after two lines; otherwise all eleven lines are logged, and the download URL, archive name, the `make ARCH=arm64 defconfig` in the extracted tree, the configuration copy, both PKGBUILD edits and the removal of `./temp` are those the code computes |
| BuildTasks.BuildPackage | scripts/utils/build.py:168-200 | dispatch fails exactly when the record's build procedure name is not registered, with the not-found message; otherwise it invokes the procedure of that name on the package |
| BuildTasks.BuildReadsOnlyItsName | scripts/utils/build.py:173-190 | dispatch depends on the build procedure name alone, and a successful one invokes exactly that name |
| BuildTasks.NotFoundMessageNamesPackage | scripts/utils/build.py:179-180 | the not-found message quotes the package name right after its fixed opening words |
| BuildTasks.BuildPkgLinux | scripts/utils/build.py:143-150 | the Linux build returns at once, logging and running nothing |
| BuildTasks.LogBuildStep | scripts/utils/build.py:73-141 | each progress line is the next message with the next counter out of 4 |
| BuildTasks.BuildPkgExamplePackage | scripts/utils/build.py:57-141 | four progress lines; `makepkg --sign` in the PKGBUILD directory, then the copies of the packages and their signatures into the internal repository |
| BuildTasks.ExampleCopiesFollowBuild | scripts/utils/build.py:111-133 | both `cp` argument lists name the internal repository path as target; the archive pattern starts with the directory `makepkg` ran in, and the signature pattern is the archive pattern plus `.sig` |
| Batch.DispatchSpec | scripts/prepare_packages.py:83-85 | a stage's dispatch succeeds exactly when the record's task name for that stage is registered, and then invokes that name on the package |
| Batch.VisitSpec | scripts/prepare_packages.py:50-95 | one iteration adds the record's call exactly when it is dispatched, and logs two lines plus one more when an exception is caught |
| Batch.BatchRunSpec | scripts/build_packages.py:48-93 | the loop calls exactly the dispatched records' procedures in store order, and logs two lines per package plus one per caught exception |
| Batch.VisitLines | scripts/prepare_packages.py:50-95 | one iteration appends exactly the package's lines: the check line, the skip or execute line, and for a caught exception the error line carrying its message (dispatch's not-found text or what the procedure raised), numbered on from the lines before |
| Batch.BatchRunLines | scripts/build_packages.py:48-93 | the whole loop logs, package by package in store order, exactly those lines, with the counter running on across packages |
| Batch.UnmarkedNeverCalled | scripts/prepare_packages.py:60-72 | a record not marked for build is never handed to a procedure, whatever the registry and the procedures do |
| Batch.ExpectedCallsDispatched | scripts/build_packages.py:58-84 | every expected call is for a listed, marked, registered record, under its task name |
| Batch.BatchRunExtends | scripts/prepare_packages.py:50 | the loop over one more package is one more iteration |
| Batch.VisitPackage | scripts/build_packages.py:48-93 | one iteration over the store logs the lines and makes the calls `Visit` gives |
| Batch.RunBatch | scripts/prepare_packages.py:35-95 | `main()` of either script produces the lines and calls of `BatchMain` and, with no `modifies` clause, never writes the store |
| Cli.ParsePromptSpec | scripts/cli.py:247-261 | a line parses exactly when it holds `(`; the command holds no `(` and no upper-case letter; no argument holds an upper-case letter; command, `(`, the arguments joined by ", " and the dropped `)` give back the lowered line |
| Cli.EmptyArguments | scripts/cli.py:250-257 | `command()` parses to that command with the single argument `""`, which the commands treat as missing |
| Cli.Get | scripts/cli.py:37-89 | `GetDone`: no name gives the missing-parameter text, an unknown name the not-found text, both printing nothing; a known name prints its five-block report and returns "" |
| Cli.New | scripts/cli.py:91-164 | `NewDone`: no name gives the missing-parameter text; fewer than six arguments raise `IndexError` before any effect; otherwise the directories and files are created, then the package is added (the duplicate case gives the database-error text and leaves the store alone), and the new record's report is printed |
| Cli.NewRecordReport | scripts/cli.py:113-155 | the record `new` stores returns each argument through its getter, the stored paths and derived procedure names; its PKGBUILD directory is the one `new` created |
| Cli.Remove | scripts/cli.py:166-220 | `RemoveDone`: no name or an unknown name changes nothing; otherwise both directories are removed, then the first occurrence of the name leaves the list and its record the map, and the deletion is printed |
| Cli.NewThenGet | scripts/cli.py:144-164 | a `new` with a fresh name and six arguments returns "", and what it printed is what `get` of that name prints on the store it leaves |
| Cli.RemoveThenGet | scripts/cli.py:188-220 | a `remove` that returns "" deleted a listed name; the store stays consistent and `get` of the name then reports it as not found |
| Cli.RunCommand | scripts/cli.py:268-273 | `CommandDone`: `get`, `new` or `remove`, as named, does to the store, the printed lines, the return value and the files what `GetDone`, `NewDone` or `RemoveDone` says; only `new` can raise, with `IndexError` |
| Cli.Execute | scripts/cli.py:271-274 | `LineDone`: the opening rule, the lines the command prints, its return value and the closing rule are printed, and the store and files change as `CommandDone` says; an `IndexError` from `new` ends the loop after the opening rule |
| Cli.HandleLine | scripts/cli.py:242-274 | an unparsable line or an unknown command prints `Invalid command!` and changes nothing; a parsed `get`, `new` or `remove` ends as `LineDone` says for the parsed command and arguments |

## Left out

- Network, HTML parsing, downloads, `subprocess` and file I/O are not executed. Page lookups are the parameter `fetch`. Subprocess commands and the tool's file writes are returned as values. Loading the database file is outside the model; the constructor takes the loaded document.
- PackageStore.Database.constructor: requires the loaded document to be consistent. A `db.json` with a duplicated name, or with a name that has no record, is outside the model; on such a file `getPackage` raises `KeyError` for the orphan name and `deletePackage` removes only the first copy of a duplicate.
- The backup `cp ./db/db.json ./db/db.old.json` at the start of the version sync is not modelled.
- The procedures the batch loop invokes are abstracted as `run`, which says whether a call raises. The lines a procedure prints between the loop's own lines are not interleaved into the loop's log.
- PrepareTasks.PreparePkgLinux: the `os.mkdir("./temp")`, the `urlretrieve` download, the tar extraction and the reading of the two files it hashes are not returned as effects; the download is represented by its URL and file name, and the `os.chdir` calls only by the directory each command runs in. On the empty-version failure the directory `./temp` has already been created and entered (prepare.py:98-101) before the `IndexError` (prepare.py:105); the model returns only the two lines and the message, so it does not capture that `./temp` stays behind, that the `rm` at prepare.py:246 never runs, or that the process keeps working inside `./temp` after the loop catches the error.
- `PrepareTasks.PreparePkgLinux` models one failure, the `IndexError` of an empty version. Failures of `os.mkdir`, the download, `make`, the checksum files and `sed` are not modelled. The SHA-256 digests are parameters.
- `hasattr` on the procedure classes and on `Functions` is a set of names, `registry` or `attributes`. A name in `attributes` other than `get`, `new` and `remove` (Python's own dunder attributes, `_db`) is reported as `OutsideModel` and not run.
- `str.lower()` lowers the ASCII letters only. Other Unicode case mappings are not modelled.
- `PrepareTasks.ChecksumsJoin` requires no `{` in the archive digest, where no `{x}` would do. A hexadecimal digest never has either.
- VersionSync.SyncStep, Batch.Visit: a name without a record that follows the schema is left alone. The Python code would raise a `KeyError` there. A valid, well-formed store never has such a name.
- VersionSync.Sync, VersionSync.VisitIntended: a page that cannot be read or a version element the pattern does not match stops the run. The Python loop has no `try`, so these exceptions end the script. The packages after such a package are not visited.
- The interactive loop's banner lines and the endless `while True` are not modelled; `Cli.HandleLine` models one pass.

## Findings

| source | as written | input that shows it | evidently intended | confidence | as-written member | corrected member |
|---|---|---|---|---|---|---|
| scripts/sync_package_database.py:86 | `not pkgVersionRaw is str` compares the decoded string with the type object `str` by identity. That is true for every string, so every package is skipped and the store is never updated. | a record at version `6.1` whose upstream page's version element is `content="6.2.arch1-1"` | `not isinstance(pkgVersionRaw, str)`: the package is marked for build and its version becomes `6.2` | not executed | VersionSync.GuardCounterexample | VersionSync.Sync |
