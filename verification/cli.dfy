/**
 * `cli.py`: the per-line handling of the interactive database tool. A line is lower-cased and parsed
 * as `command(arg, arg, ...)`; the commands `get`, `new` and `remove` check their arguments, derive
 * paths from them and call the store. Printing is modelled as the returned lines, and the shell
 * commands and file writes as returned effects.
 */
module Cli {
  import opened Wrappers
  import opened Strings
  import opened PackageStore
  import opened Effects

  const MissingName := "Missing parameters: { str } packageName - The name of the package in the database"
  /** `new`'s reply without a name: a heading, then one line per parameter it reads. */
  const MissingNewParameters :=
    "Missing parameters:"
      + ParameterDoc("packageName", "The name of the package")
      + ParameterDoc("packageVersion", "The version of the package")
      + ParameterDoc("packageURLType", "The URL type of the package's source")
      + ParameterDoc("packageSourceURL", "The URL of the package's source")
      + ParameterDoc("packageUpstreamURL", "The URL of the package's upstream source")
      + ParameterDoc("packageRepository", "Which repository is the package under")
  const NotFoundReply := "Function error: Package was not found"
  const DatabaseErrorReply := "Function error: Database error"
  const InvalidCommand := "Invalid command!"
  /** What Python's `str` gives for the `IndexError` of reading past the end of a list. */
  const ListIndexError := "list index out of range"
  const ArgumentSeparator := ", "

  /** One parameter line of a missing-parameter reply. */
  function ParameterDoc(name: string, description: string): string {
    "\n   { str } " + name + " - " + description
  }

  /** A parsed line: the command name and its argument list. */
  datatype Prompt = Prompt(command: string, arguments: seq<string>)

  /** A file-system effect of a command. */
  datatype FileEffect =
    | Run(command: Command)              // a subprocess (`mkdir`, `rm`)
    | Append(path: string, text: string) // `open(path, "a+").write(text)`
    | Touch(path: string)                // `open(path, "a").close()`

  /** What a command hands back to the loop: its return value, or an exception it does not catch. */
  datatype Reply = Text(text: string) | Raised(error: string)

  // ---------------------------------------------------------------------------
  // Parsing

  /** Python's `s.removesuffix(suffix)`. */
  function RemoveSuffix(s: string, suffix: string): string {
    if |suffix| <= |s| && s[|s| - |suffix|..] == suffix then s[..|s| - |suffix|] else s
  }

  /**
   * The parse in `main()`: the command is the lower-cased line up to its first `(`, the arguments
   * are what follows that `(` in the line without one trailing `)`, split on ", ". A line without
   * `(` makes the second step raise, which the loop reports as an invalid command (`None`).
   */
  function ParsePrompt(raw: string): Option<Prompt> {
    var prompt := Lower(raw);
    var command := match Find(prompt, "(") case None => prompt case Some(j) => prompt[..j];
    var body := RemoveSuffix(prompt, ")");
    match Find(body, "(")
    case None => None
    case Some(i) => Some(Prompt(command, Split(body[i + 1..], ArgumentSeparator)))
  }

  /** A one-character pattern occurs exactly where the character is. */
  lemma OccursAtChar(s: string, c: char, i: nat)
    ensures OccursAt(s, [c], i) <==> i < |s| && s[i] == c
  {
    if i < |s| && s[i] == c {
      assert s[i..i + 1] == [c];
    }
  }

  /** `Find` of a character finds its first position, and nothing when the character is absent. */
  lemma FindChar(s: string, c: char)
    ensures Find(s, [c]).None? <==> c !in s
    ensures Find(s, [c]).Some? ==> Find(s, [c]).value < |s| && s[Find(s, [c]).value] == c && c !in s[..Find(s, [c]).value]
  {
    var f := Find(s, [c]);
    if f.Some? {
      OccursAtChar(s, c, f.value);
      forall k | 0 <= k < f.value ensures s[k] != c {
        OccursAtChar(s, c, k);
      }
    } else if c in s {
      var k :| 0 <= k < |s| && s[k] == c;
      OccursAtChar(s, c, k);
    }
  }

  /**
   * When the lower-cased line holds a `(`, its first `(` is also the first `(` of the line without
   * its trailing `)`, and that shorter line is the command, the `(` and the text after it.
   */
  lemma FirstParenthesis(prompt: string)
    requires '(' in prompt
    ensures var body := RemoveSuffix(prompt, ")");
            && Find(body, "(").Some? && Find(prompt, "(") == Find(body, "(")
            && body == prompt[..Find(prompt, "(").value] + "(" + body[Find(body, "(").value + 1..]
            && '(' !in prompt[..Find(prompt, "(").value]
  {
    var body := RemoveSuffix(prompt, ")");
    var closed := |prompt| > 0 && prompt[|prompt| - 1] == ')';
    assert prompt == body + (if closed then ")" else "") by {
      if closed { assert prompt[|prompt| - 1..] == ")"; }
    }
    FindChar(body, '(');
    FindChar(prompt, '(');
    assert '(' in body;
    var i := Find(body, "(").value;
    var j := Find(prompt, "(").value;
    assert body[i] == '(' && prompt[i] == '(';
    assert i == j;
    assert body[..i] == prompt[..j];
    assert body == body[..i] + [body[i]] + body[i + 1..];
  }

  /**
   * A line parses exactly when it holds a `(`. The command holds no `(` and, like every argument,
   * no upper-case letter, and gluing command, `(`, the arguments joined with ", " and the `)` that
   * was dropped gives back the lower-cased line.
   */
  lemma ParsePromptSpec(raw: string)
    ensures ParsePrompt(raw).None? <==> '(' !in Lower(raw)
    ensures ParsePrompt(raw).Some? ==>
              var p := ParsePrompt(raw).value;
              && '(' !in p.command
              && NoUpper(p.command)
              && (forall a :: a in p.arguments ==> NoUpper(a))
              && Lower(raw) == p.command + "(" + Join(p.arguments, ArgumentSeparator)
                               + (if |Lower(raw)| > 0 && Lower(raw)[|Lower(raw)| - 1] == ')' then ")" else "")
  {
    var prompt := Lower(raw);
    var body := RemoveSuffix(prompt, ")");
    LowerProperties(raw, '(');
    if '(' !in prompt {
      FindChar(body, '(');
    } else {
      FirstParenthesis(prompt);
      var i := Find(body, "(").value;
      var command := prompt[..i];
      var rest := body[i + 1..];
      var arguments := Split(rest, ArgumentSeparator);
      assert ParsePrompt(raw) == Some(Prompt(command, arguments));
      JoinSplit(rest, ArgumentSeparator);
      assert prompt == body + (if |prompt| > 0 && prompt[|prompt| - 1] == ')' then ")" else "") by {
        if |prompt| > 0 && prompt[|prompt| - 1] == ')' { assert prompt[|prompt| - 1..] == ")"; }
      }
      forall c | c in command ensures !IsUpper(c) {
        var k :| 0 <= k < |command| && command[k] == c;
        assert prompt[k] == c;
      }
      SplitPieces(rest, ArgumentSeparator);
      forall a, c | a in arguments && c in a ensures !IsUpper(c) {
        var k :| 0 <= k < |rest| && rest[k] == c;
        assert body[i + 1 + k] == c;
        assert prompt[i + 1 + k] == c;
      }
    }
  }

  /** Lower-casing leaves a string without upper-case letters as it is. */
  lemma LowerKeeps(s: string)
    requires NoUpper(s)
    ensures Lower(s) == s
  {
    forall k | 0 <= k < |s| ensures Lower(s)[k] == s[k] {
      assert s[k] in s;
    }
  }

  /** The first `(` of `command + rest` is the one right after `command` when `command` has none. */
  lemma ParenthesisAfter(command: string, rest: string)
    requires '(' !in command
    ensures Find(command + "(" + rest, "(") == Some(|command|)
  {
    var s := command + "(" + rest;
    OccursAtChar(s, '(', |command|);
    forall j: nat | j < |command| ensures !OccursAt(s, "(", j) {
      OccursAtChar(s, '(', j);
      assert s[j] == command[j];
    }
    FindAt(s, "(", |command|);
  }

  /** An empty argument list still parses as one empty argument: `get()` is `get` with `[""]`. */
  lemma EmptyArguments(command: string)
    requires '(' !in command && NoUpper(command)
    ensures ParsePrompt(command + "()") == Some(Prompt(command, [""]))
  {
    var raw := command + "()";
    assert NoUpper(raw) by {
      forall c | c in raw ensures !IsUpper(c) {
        if c != '(' && c != ')' {
          var k :| 0 <= k < |raw| && raw[k] == c;
          assert raw[k] == command[k];
        }
      }
    }
    LowerKeeps(raw);
    var body := command + "(";
    assert RemoveSuffix(raw, ")") == body by {
      assert raw[|raw| - 1..] == ")";
    }
    ParenthesisAfter(command, ")");
    ParenthesisAfter(command, "");
    assert raw == command + "(" + ")" && body == command + "(" + "";
    assert raw[..|command|] == command;
    assert body[|command| + 1..] == [];
    assert Split([], ArgumentSeparator) == [[]] by {
      assert !Contains([], ArgumentSeparator);
    }
  }

  // ---------------------------------------------------------------------------
  // get

  function BoolText(b: bool): string {
    if b then "True" else "False"
  }

  /** The five blocks `get` prints for a record, run from directory `cwd`. */
  function Report(cwd: string, name: string, r: Dict): seq<string>
    requires HasShape(r)
  {
    var f := Fields(r);
    [ "Package Name: " + name,
      "Package Version: " + f.version,
      "Package URLS:\n\tType: " + f.sourceType + "\n\tSource URL: " + f.sourceURL + "\n\tUpstream URL: " + f.upstreamURL,
      "Package Paths:\n\tRepo: " + InternalRepositoryPath(cwd, r) + "\n\tPKGBUILD: " + PackageBuildPath(cwd, r),
      "Package Build:\n\tMarked For Build: " + BoolText(f.markedForBuild) + "\n\tBuild Function Name: "
        + f.buildFunctionName + "\n\tPrepare Function Name: " + f.prepareFunctionName ]
  }

  /** The first argument, when there is a non-empty one. */
  predicate HasName(inputs: seq<string>) {
    |inputs| > 0 && inputs[0] != ""
  }

  /**
   * What `get` does on store `d`: no name gives the missing-parameter text, an unknown name the
   * not-found text, both printing nothing; a known name prints the record's report and returns "".
   */
  predicate GetDone(d: Document, cwd: string, inputs: seq<string>, printed: seq<string>, reply: Reply) {
    if !HasName(inputs) then printed == [] && reply == Text(MissingName)
    else if inputs[0] !in d.packages then printed == [] && reply == Text(NotFoundReply)
    else
      && inputs[0] in d.packageInfo && HasShape(d.packageInfo[inputs[0]])
      && printed == Report(cwd, inputs[0], d.packageInfo[inputs[0]])
      && reply == Text("")
  }

  /** `Functions.get`, which reads the store and changes nothing. */
  method Get(db: Database, cwd: string, inputs: seq<string>) returns (printed: seq<string>, reply: Reply)
    requires db.Valid() && db.WellFormed()
    ensures GetDone(db.Doc(), cwd, inputs, printed, reply)
  {
    if |inputs| == 0 || inputs[0] == "" {
      return [], Text(MissingName);
    }
    var packageName := inputs[0];
    var found := db.GetPackage(packageName);
    if found.Failure? {
      return [], Text(NotFoundReply);
    }
    printed := Report(cwd, found.value.name, db.Record(found.value));
    reply := Text("");
  }

  // ---------------------------------------------------------------------------
  // new

  /** `n` dashes. */
  function Dashes(n: nat): string {
    seq(n, _ => '-')
  }

  /** Each line followed by a newline. */
  function Lines(lines: seq<string>): string {
    if lines == [] then "" else lines[0] + "\n" + Lines(lines[1..])
  }

  /** The PKGBUILD `new` writes for a package. */
  function PkgbuildTemplate(name: string): string {
    Lines([ "# Package Information",
            "# " + Dashes(12),
            "# PKGBUILD for " + name + " package",
            "#",
            "# Maintainer: Your Name <example@email.com>",
            "# " + Dashes(66) ])
  }

  /** The repository path `new` stores in the record. */
  function StoredRepositoryPath(repository: string, name: string): string {
    "/aarch64/" + repository + "/os/" + name
  }

  /** The PKGBUILD path `new` stores in the record. */
  function StoredPkgbuildPath(name: string): string {
    "/pkgbuild/" + name
  }

  /** The repository directory `new` creates, from directory `cwd`. */
  function RepositoryDirectory(cwd: string, repository: string, name: string): string {
    ReplaceAll(cwd, "/scripts", "/packages/" + repository + "/os/aarch64/" + name)
  }

  /** The PKGBUILD directory `new` creates, from directory `cwd`. */
  function PkgbuildDirectory(cwd: string, name: string): string {
    ReplaceAll(cwd, "/scripts", StoredPkgbuildPath(name))
  }

  /** The directories `new` creates and the files it writes, in that order. */
  function NewPackageFiles(cwd: string, name: string, repository: string): seq<FileEffect> {
    [ Run(Command(cwd, ["mkdir", "--parents", RepositoryDirectory(cwd, repository, name)])),
      Run(Command(cwd, ["mkdir", "--parents", PkgbuildDirectory(cwd, name)])),
      Append(PkgbuildDirectory(cwd, name) + "/PKGBUILD", PkgbuildTemplate(name)),
      Touch(RepositoryDirectory(cwd, repository, name) + "/.gitkeep") ]
  }

  /**
   * The store after a successful `new` with arguments `inputs`: `after` is `before` with the new
   * record under the first argument, and `printed` is that record's report.
   */
  predicate Created(before: map<string, Dict>, after: map<string, Dict>, printed: seq<string>, cwd: string, inputs: seq<string>)
  {
    && |inputs| >= 6
    && var name := inputs[0];
       var r := NewRecord(name, inputs[1], inputs[2], inputs[3], inputs[4],
                          StoredRepositoryPath(inputs[5], name), StoredPkgbuildPath(name));
       && after == before[name := r]
       && HasShape(r)
       && printed == Report(cwd, name, r)
  }

  /**
   * What `new` does to store `d`, giving `d'`: no name gives the missing-parameter text, and fewer
   * than six arguments raise `IndexError`, both before anything is done. Otherwise the first six
   * arguments are the name, version, URL type, source URL, upstream URL and repository (further
   * ones are ignored): the directories and files are created first and the package is added after,
   * a refused addition (a name already present) giving the database-error text and a successful
   * one printing the new record's report.
   */
  predicate NewDone(d: Document, d': Document, cwd: string, inputs: seq<string>,
                    printed: seq<string>, reply: Reply, effects: seq<FileEffect>)
  {
    if !HasName(inputs) then
      d' == d && printed == [] && effects == [] && reply == Text(MissingNewParameters)
    else if |inputs| < 6 then
      d' == d && printed == [] && effects == [] && reply == Raised(ListIndexError)
    else
      && effects == NewPackageFiles(cwd, inputs[0], inputs[5])
      && (inputs[0] in d.packages ==> d' == d && printed == [] && reply == Text(DatabaseErrorReply))
      && (inputs[0] !in d.packages ==>
            && d'.packages == d.packages + [inputs[0]]
            && Created(d.packageInfo, d'.packageInfo, printed, cwd, inputs)
            && reply == Text(""))
  }

  /** `Functions.new`, which writes the store through `addPackage`. */
  method New(db: Database, cwd: string, inputs: seq<string>) returns (printed: seq<string>, reply: Reply, effects: seq<FileEffect>)
    requires db.Valid() && db.WellFormed()
    modifies db
    ensures db.Valid() && db.WellFormed()
    ensures NewDone(old(db.Doc()), db.Doc(), cwd, inputs, printed, reply, effects)
  {
    if |inputs| == 0 || inputs[0] == "" {
      return [], Text(MissingNewParameters), [];
    }
    if |inputs| < 6 {
      return [], Raised(ListIndexError), [];
    }
    var name := inputs[0];
    effects := NewPackageFiles(cwd, name, inputs[5]);
    var repo, pkgbuild := StoredRepositoryPath(inputs[5], name), StoredPkgbuildPath(name);
    var added := db.AddPackage(name, inputs[1], inputs[2], inputs[3], inputs[4], repo, pkgbuild);
    if added.Fail? {
      return [], Text(DatabaseErrorReply), effects;
    }
    NewRecordFields(name, inputs[1], inputs[2], inputs[3], inputs[4], repo, pkgbuild);
    printed, reply := Get(db, cwd, [name]);
  }

  /**
   * The record `new` stores, read back through the getters: every argument verbatim, the stored
   * paths, marked for build, task names derived from the name; and the PKGBUILD directory the record
   * points to (relative to `cwd`) is the one `new` created and wrote the template into.
   */
  lemma NewRecordReport(cwd: string, name: string, version: string, urlType: string, sourceURL: string,
                        upstreamURL: string, repository: string)
    ensures var r := NewRecord(name, version, urlType, sourceURL, upstreamURL,
                               StoredRepositoryPath(repository, name), StoredPkgbuildPath(name));
            && HasShape(r)
            && Fields(r) == PackageFields(version, urlType, sourceURL, upstreamURL,
                                          "/aarch64/" + repository + "/os/" + name, "/pkgbuild/" + name, true,
                                          TaskName("build_pkg_", name), TaskName("prepare_pkg_", name))
            && PackageBuildPath(cwd, r) == PkgbuildDirectory(cwd, name)
  {
    NewRecordFields(name, version, urlType, sourceURL, upstreamURL,
                    StoredRepositoryPath(repository, name), StoredPkgbuildPath(name));
  }

  // ---------------------------------------------------------------------------
  // remove

  /**
   * What `remove` does to store `d`, giving `d'`: no name gives the missing-parameter text, an
   * unknown name the not-found text, both leaving the store and the files alone; a known name has
   * its PKGBUILD and repository directories removed first, is then deleted from the store (the first
   * occurrence from the list, the record from the map) and the deletion is printed.
   */
  predicate RemoveDone(d: Document, d': Document, cwd: string, inputs: seq<string>,
                       printed: seq<string>, reply: Reply, effects: seq<FileEffect>)
  {
    if !HasName(inputs) then
      d' == d && printed == [] && effects == [] && reply == Text(MissingName)
    else if inputs[0] !in d.packages then
      d' == d && printed == [] && effects == [] && reply == Text(NotFoundReply)
    else
      var name := inputs[0];
      && name in d.packageInfo && HasShape(d.packageInfo[name])
      && var r := d.packageInfo[name];
         && effects == [Run(Command(cwd, ["rm", "--recursive", "--force", PackageBuildPath(cwd, r)])),
                        Run(Command(cwd, ["rm", "--recursive", "--force", InternalRepositoryPath(cwd, r)]))]
         && d' == Document(RemoveFirst(d.packages, name), d.packageInfo - {name})
         && printed == ["Package \"" + name + "\" was deleted!"]
         && reply == Text("")
  }

  /** `Functions.remove`, which writes the store through `deletePackage`. */
  method Remove(db: Database, cwd: string, inputs: seq<string>) returns (printed: seq<string>, reply: Reply, effects: seq<FileEffect>)
    requires db.Valid() && db.WellFormed()
    modifies db
    ensures db.Valid() && db.WellFormed()
    ensures RemoveDone(old(db.Doc()), db.Doc(), cwd, inputs, printed, reply, effects)
  {
    if |inputs| == 0 || inputs[0] == "" {
      return [], Text(MissingName), [];
    }
    var packageName := inputs[0];
    var found := db.GetPackage(packageName);
    if found.Failure? {
      return [], Text(NotFoundReply), [];
    }
    var r := db.Record(found.value);
    effects := [Run(Command(cwd, ["rm", "--recursive", "--force", PackageBuildPath(cwd, r)])),
                Run(Command(cwd, ["rm", "--recursive", "--force", InternalRepositoryPath(cwd, r)]))];
    var _ := db.DeletePackage(packageName);
    printed := ["Package \"" + packageName + "\" was deleted!"];
    reply := Text("");
  }

  /** A created record is stored under the new name, follows the schema, and is what was printed. */
  lemma CreatedReport(before: map<string, Dict>, after: map<string, Dict>, printed: seq<string>,
                      cwd: string, inputs: seq<string>)
    requires Created(before, after, printed, cwd, inputs)
    ensures inputs[0] in after && HasShape(after[inputs[0]])
    ensures printed == Report(cwd, inputs[0], after[inputs[0]])
  {
  }

  /**
   * A `new` with a fresh name and all six arguments returns "", and what it printed is what `get` of
   * the new name prints on the store it leaves.
   */
  lemma NewThenGet(d: Document, d': Document, cwd: string, inputs: seq<string>,
                   printed: seq<string>, reply: Reply, effects: seq<FileEffect>)
    requires HasName(inputs) && |inputs| >= 6 && inputs[0] !in d.packages
    requires NewDone(d, d', cwd, inputs, printed, reply, effects)
    ensures reply == Text("")
    ensures GetDone(d', cwd, [inputs[0]], printed, Text(""))
  {
    CreatedReport(d.packageInfo, d'.packageInfo, printed, cwd, inputs);
  }

  /**
   * `remove` returns "" exactly when it deleted a listed package; on a consistent store the store
   * it leaves is consistent and `get` of that name then reports it as not found.
   */
  lemma RemoveThenGet(d: Document, d': Document, cwd: string, inputs: seq<string>,
                      printed: seq<string>, effects: seq<FileEffect>)
    requires Consistent(d)
    requires RemoveDone(d, d', cwd, inputs, printed, Text(""), effects)
    ensures HasName(inputs) && inputs[0] in d.packages
    ensures Consistent(d')
    ensures GetDone(d', cwd, [inputs[0]], [], Text(NotFoundReply))
  {
    DeleteKeepsConsistent(d, inputs[0]);
  }

  // ---------------------------------------------------------------------------
  // One line of the input loop

  /** How the loop goes on after a line. */
  datatype Continuation =
    | NextLine                      // read the next line
    | Stopped(error: string)        // an exception left the loop and ended the program
    | OutsideModel(attribute: string) // a `Functions` attribute other than the three commands

  /**
   * What the command named `command` does to store `d`, giving `d'`; `get` leaves the store and the
   * files alone.
   */
  predicate CommandDone(command: string, d: Document, d': Document, cwd: string, inputs: seq<string>,
                        printed: seq<string>, reply: Reply, effects: seq<FileEffect>)
  {
    if command == "get" then d' == d && effects == [] && GetDone(d, cwd, inputs, printed, reply)
    else if command == "new" then NewDone(d, d', cwd, inputs, printed, reply, effects)
    else command == "remove" && RemoveDone(d, d', cwd, inputs, printed, reply, effects)
  }

  /** Runs one of the three commands on its parsed arguments. */
  method RunCommand(db: Database, cwd: string, command: string, arguments: seq<string>)
    returns (shown: seq<string>, reply: Reply, effects: seq<FileEffect>)
    requires db.Valid() && db.WellFormed() && command in {"get", "new", "remove"}
    modifies db
    ensures db.Valid() && db.WellFormed()
    ensures CommandDone(command, old(db.Doc()), db.Doc(), cwd, arguments, shown, reply, effects)
    ensures reply.Raised? ==> command == "new" && reply == Raised(ListIndexError)
    ensures command == "get" ==> unchanged(db)
  {
    if command == "get" {
      shown, reply := Get(db, cwd, arguments);
      effects := [];
    } else if command == "new" {
      shown, reply, effects := New(db, cwd, arguments);
    } else {
      shown, reply, effects := Remove(db, cwd, arguments);
    }
  }

  const OpeningRule := "\n----------"
  const ClosingRule := "----------"

  /**
   * What one executed prompt line prints around the command's own output: the opening rule, the
   * command's lines, its return value and the closing rule; or, when the command raised, the
   * opening rule alone and the end of the loop.
   */
  predicate LineDone(command: string, d: Document, d': Document, cwd: string, arguments: seq<string>,
                     printed: seq<string>, effects: seq<FileEffect>, next: Continuation)
  {
    && (next.NextLine? || next.Stopped?)
    && (next.NextLine? ==>
          && |printed| >= 3 && printed[0] == OpeningRule && printed[|printed| - 1] == ClosingRule
          && CommandDone(command, d, d', cwd, arguments, printed[1..|printed| - 2], Text(printed[|printed| - 2]), effects))
    && (next.Stopped? ==>
          && command == "new" && next == Stopped(ListIndexError) && printed == [OpeningRule]
          && CommandDone(command, d, d', cwd, arguments, [], Raised(ListIndexError), effects))
  }

  /**
   * Lines 272-274 of the loop: the opening rule, then the command runs on its arguments, printing
   * its own lines, then its return value and the closing rule are printed. An exception it raises is
   * printed by nobody and ends the program after the opening rule.
   */
  method Execute(db: Database, cwd: string, command: string, arguments: seq<string>)
    returns (printed: seq<string>, effects: seq<FileEffect>, next: Continuation)
    requires db.Valid() && db.WellFormed() && command in {"get", "new", "remove"}
    modifies db
    ensures db.Valid() && db.WellFormed()
    ensures LineDone(command, old(db.Doc()), db.Doc(), cwd, arguments, printed, effects, next)
    ensures command == "get" ==> unchanged(db)
  {
    var shown, reply;
    shown, reply, effects := RunCommand(db, cwd, command, arguments);
    printed := [OpeningRule] + shown;
    if reply.Raised? {
      return printed, effects, Stopped(reply.error);
    }
    printed := printed + [reply.text, ClosingRule];
    assert printed[1..|printed| - 2] == shown && Text(printed[|printed| - 2]) == reply;
    next := NextLine;
  }

  /**
   * One pass of the `while True` loop for input line `raw`; `attributes` are the names `Functions`
   * answers to, which include `get`, `new` and `remove`. A line that does not parse, or names no
   * attribute, prints the invalid-command text and changes nothing. Otherwise the command runs on
   * the parsed arguments: the lines it prints and then its return value are printed between the two
   * rules; an exception it raises is printed by nobody and ends the program after the opening rule.
   */
  method HandleLine(db: Database, attributes: set<string>, cwd: string, raw: string)
    returns (printed: seq<string>, effects: seq<FileEffect>, next: Continuation)
    requires db.Valid() && db.WellFormed()
    modifies db
    ensures db.Valid() && db.WellFormed()
    ensures ParsePrompt(raw).None? ==> unchanged(db) && printed == [InvalidCommand] && effects == [] && next == NextLine
    ensures ParsePrompt(raw).Some? && ParsePrompt(raw).value.command !in attributes ==>
              unchanged(db) && printed == [InvalidCommand] && effects == [] && next == NextLine
    ensures ParsePrompt(raw).Some? && ParsePrompt(raw).value.command in attributes * {"get", "new", "remove"} ==>
              LineDone(ParsePrompt(raw).value.command, old(db.Doc()), db.Doc(), cwd, ParsePrompt(raw).value.arguments,
                       printed, effects, next)
    ensures ParsePrompt(raw).Some? && ParsePrompt(raw).value.command == "get" ==> unchanged(db)
    ensures next.OutsideModel? ==>
              ParsePrompt(raw).Some? && next.attribute == ParsePrompt(raw).value.command
              && next.attribute in attributes - {"get", "new", "remove"} && unchanged(db) && printed == [] && effects == []
  {
    var prompt := ParsePrompt(raw);
    if prompt.None? || prompt.value.command !in attributes {
      return [InvalidCommand], [], NextLine;
    }
    var command := prompt.value.command;
    if command !in {"get", "new", "remove"} {
      return [], [], OutsideModel(command);
    }
    printed, effects, next := Execute(db, cwd, command, prompt.value.arguments);
  }
}
