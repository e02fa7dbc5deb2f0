/**
 * The version sync script: for every package except the example one, read the upstream
 * version from the package page, and either mark the package "do not build" (same version)
 * or mark it for build and store the new version.
 *
 * The page download and HTML lookup are a parameter, `fetch`, from the upstream URL to what
 * the lookup produced. The script's guard `pkgVersionRaw == None or not pkgVersionRaw is str`
 * compares the decoded string with the type object `str` by identity, so it holds for every
 * string and the script as written skips every package after logging it; `Guard` selects
 * between that test and the intended `isinstance` test.
 */
module VersionSync {
  import opened Wrappers
  import opened Strings
  import opened Logging
  import opened PackageStore

  const FilteredWords: seq<string> := [".arch1-1"]
  const ContentPrefix := "content=\""
  const ExamplePackage := "example-package"
  const SyncTitle := "PACKAGE SYNC"
  const PullingMessage := "Pulling package info..."

  // ---------------------------------------------------------------------------
  // The version regular expression `content="[^"]*"`, matched ignoring case

  /** `a` and `b` are equal up to the case of ASCII letters. */
  predicate SameIgnoringCase(a: string, b: string) {
    |a| == |b| && forall k :: 0 <= k < |a| ==> LowerChar(a[k]) == LowerChar(b[k])
  }

  /** The case-insensitive `content="` starts at index `i`. */
  predicate PrefixAt(s: string, i: nat) {
    i + |ContentPrefix| <= |s| && SameIgnoringCase(s[i..i + |ContentPrefix|], ContentPrefix)
  }

  /** The pattern matches exactly `s[i..j]`: the prefix, then no quote, then a closing quote. */
  predicate MatchAt(s: string, i: nat, j: nat) {
    && PrefixAt(s, i)
    && i + |ContentPrefix| < j <= |s|
    && (forall k :: i + |ContentPrefix| <= k < j - 1 ==> s[k] != '"')
    && s[j - 1] == '"'
  }

  /** Leftmost start of the prefix at or after `from`. */
  function PrefixFrom(s: string, from: nat): (r: Option<nat>)
    requires from <= |s|
    decreases |s| - from
    ensures r.Some? ==> from <= r.value && PrefixAt(s, r.value)
    ensures forall i: nat :: from <= i && (r.None? || i < r.value) ==> !PrefixAt(s, i)
  {
    if PrefixAt(s, from) then Some(from)
    else if from == |s| then None
    else PrefixFrom(s, from + 1)
  }

  /** First index at or after `from` holding a double quote. */
  function QuoteFrom(s: string, from: nat): (r: Option<nat>)
    decreases |s| - from
    ensures r.Some? ==> from <= r.value < |s| && s[r.value] == '"'
    ensures forall k :: from <= k < |s| && (r.None? || k < r.value) ==> s[k] != '"'
  {
    if from >= |s| then None
    else if s[from] == '"' then Some(from)
    else QuoteFrom(s, from + 1)
  }

  /**
   * `findall(...)[0]`: the first match, as the bounds `(i, j)` of `s[i..j]`. A match starts at
   * every occurrence of the prefix whose quoted value is closed, so the first match starts at
   * the first occurrence of the prefix, or there is none at all.
   */
  function FirstMatch(s: string): Option<(nat, nat)> {
    match PrefixFrom(s, 0)
    case None => None
    case Some(i) =>
      match QuoteFrom(s, i + |ContentPrefix|)
      case None => None
      case Some(k) => Some((i, k + 1))
  }

  /** `FirstMatch` finds the leftmost match, and finds one whenever the pattern matches anywhere. */
  lemma FirstMatchIsLeftmost(s: string)
    ensures FirstMatch(s).Some? ==> MatchAt(s, FirstMatch(s).value.0, FirstMatch(s).value.1)
    ensures FirstMatch(s).Some? ==> forall i: nat, j: nat :: i < FirstMatch(s).value.0 ==> !MatchAt(s, i, j)
    ensures FirstMatch(s).None? ==> forall i: nat, j: nat :: !MatchAt(s, i, j)
  {
  }

  /** A match starting at a given index has a single end: the first quote after the prefix. */
  lemma MatchEndUnique(s: string, i: nat, j1: nat, j2: nat)
    requires MatchAt(s, i, j1) && MatchAt(s, i, j2)
    ensures j1 == j2
  {
  }

  /** `out = out.replace(word, "")` for each filtered word in turn. */
  function RemoveWords(s: string, words: seq<string>): string
    requires forall k :: 0 <= k < |words| ==> words[k] != []
    decreases |words|
  {
    if words == [] then s
    else RemoveWords(ReplaceAll(s, words[0], ""), words[1..])
  }

  /** Removing words adds no character. */
  lemma {:induction false} RemoveWordsChars(s: string, words: seq<string>, c: char)
    requires forall k :: 0 <= k < |words| ==> words[k] != []
    requires c in RemoveWords(s, words)
    ensures c in s
    decreases |words|
  {
    if words != [] {
      var t := ReplaceAll(s, words[0], "");
      RemoveWordsChars(t, words[1..], c);
      ReplaceAllChars(s, words[0], "", c);
    }
  }

  /** The text of a match with every `content="` and every quote removed. */
  function Unquote(m: string): string {
    ReplaceAll(ReplaceAll(m, ContentPrefix, ""), "\"", "")
  }

  /**
   * `_cleanVersionString`: `None` when the pattern does not match (`findall(...)[0]` raises);
   * otherwise the first match with the prefix and the quotes removed, then the filtered words.
   */
  function CleanVersionString(raw: string): Option<string> {
    match FirstMatch(raw)
    case None => None
    case Some((i, j)) => Some(RemoveWords(Unquote(raw[i..j]), FilteredWords))
  }

  /**
   * The cleaning fails exactly when the pattern matches nowhere; otherwise it cleans the
   * leftmost match.
   */
  lemma CleanVersionStringSpec(raw: string)
    ensures CleanVersionString(raw).None? <==> forall i: nat, j: nat :: !MatchAt(raw, i, j)
    ensures CleanVersionString(raw).Some? ==>
      exists i: nat, j: nat ::
        && MatchAt(raw, i, j)
        && (forall i': nat, j': nat :: i' < i ==> !MatchAt(raw, i', j'))
        && CleanVersionString(raw).value == RemoveWords(Unquote(raw[i..j]), FilteredWords)
  {
    FirstMatchIsLeftmost(raw);
  }

  /** A cleaned version never holds a double quote. */
  lemma CleanVersionHasNoQuote(raw: string)
    requires CleanVersionString(raw).Some?
    ensures '"' !in CleanVersionString(raw).value
  {
    var (i, j) := FirstMatch(raw).value;
    var u := Unquote(raw[i..j]);
    ReplaceAllRemovesChar(ReplaceAll(raw[i..j], ContentPrefix, ""), '"');
    if '"' in CleanVersionString(raw).value {
      RemoveWordsChars(u, FilteredWords, '"');
    }
  }

  /** A version without a double quote keeps none once `.arch1-1` is appended. */
  lemma ArchTextChars(v: string)
    requires '"' !in v
    ensures forall k :: 0 <= k < |v + ".arch1-1"| ==> (v + ".arch1-1")[k] != '"'
  {
    var w := v + ".arch1-1";
    forall k | 0 <= k < |w| ensures w[k] != '"' {
      if k < |v| { assert w[k] == v[k]; }
    }
  }

  /** The first match in `content="<w>"` is the whole string when `w` holds no quote. */
  lemma WholeStringMatches(w: string)
    requires forall k :: 0 <= k < |w| ==> w[k] != '"'
    ensures FirstMatch(ContentPrefix + w + "\"") == Some((0, |ContentPrefix + w + "\""|))
  {
    var m := ContentPrefix + w + "\"";
    assert m[0..|ContentPrefix|] == ContentPrefix;
    assert PrefixFrom(m, 0) == Some(0);
    forall k | |ContentPrefix| <= k < |m| - 1 ensures m[k] != '"' {
      assert m[k] == w[k - |ContentPrefix|];
    }
    assert m[|m| - 1] == '"';
    var q := QuoteFrom(m, |ContentPrefix|);
    assert q.Some? && q.value == |m| - 1;
  }

  /** Removing `content="` from `content="<v>.arch1-1"` leaves the rest. */
  lemma StripContentPrefix(v: string)
    requires '"' !in v
    ensures ReplaceAll(ContentPrefix + (v + ".arch1-1\""), ContentPrefix, "") == v + ".arch1-1\""
  {
    var t := v + ".arch1-1\"";
    var m := ContentPrefix + t;
    ArchTextChars(v);
    assert t == (v + ".arch1-1") + "\"";
    assert OccursAt(m, ContentPrefix, 0);
    FindAt(m, ContentPrefix, 0);
    forall j: nat ensures !OccursAt(t, ContentPrefix, j) {
      if j + |ContentPrefix| <= |t| {
        if j + 8 < |t| - 1 {
          assert t[j + 8] == (v + ".arch1-1")[j + 8];
          assert t[j..j + 9][8] != ContentPrefix[8];
        } else {
          assert t[j..j + 9][7] != ContentPrefix[7];
        }
      }
    }
    assert m[|ContentPrefix|..] == t;
  }

  /** In `<w>"`, the first quote is the closing one when `w` holds none. */
  lemma FirstQuoteIsLast(w: string)
    requires forall k :: 0 <= k < |w| ==> w[k] != '"'
    ensures Find(w + "\"", "\"") == Some(|w|)
  {
    var t := w + "\"";
    assert t[|w|..|w| + 1] == "\"";
    forall j: nat | j < |w| ensures !OccursAt(t, "\"", j) {
      assert t[j..j + 1] == [w[j]];
    }
    FindAt(t, "\"", |w|);
  }

  /** Removing the quotes from `<w>"` leaves `w` when `w` holds none. */
  lemma StripClosingQuote(w: string)
    requires forall k :: 0 <= k < |w| ==> w[k] != '"'
    ensures ReplaceAll(w + "\"", "\"", "") == w
  {
    var t := w + "\"";
    FirstQuoteIsLast(w);
    assert t[..|w|] == w && t[|w| + 1..] == [];
    assert Find([], "\"") == None by {
      assert !Contains([], "\"");
    }
    calc {
      ReplaceAll(t, "\"", "");
      t[..|w|] + "" + ReplaceAll(t[|w| + 1..], "\"", "");
      w + ReplaceAll([], "\"", "");
    }
  }

  /** Removing `.arch1-1` from `<v>.arch1-1` leaves `v` when `v` holds no letter `a`. */
  lemma StripArchSuffix(v: string)
    requires 'a' !in v
    ensures ReplaceAll(v + ".arch1-1", ".arch1-1", "") == v
  {
    var w := v + ".arch1-1";
    assert w[|v|..|v| + 8] == ".arch1-1";
    forall j: nat | j < |v| ensures !OccursAt(w, ".arch1-1", j) {
      if j + 1 < |v| {
        assert w[j + 1] == v[j + 1];
      }
      assert w[j..j + 8][1] != 'a';
    }
    FindAt(w, ".arch1-1", |v|);
    assert w[..|v|] == v && w[|v| + 8..] == [];
  }

  /**
   * A version element as the package page writes it, `content="<v>.arch1-1"`, cleans to the
   * bare version `v` when `v` holds no quote and no letter `a`.
   */
  lemma CleanArchVersion(v: string)
    requires '"' !in v && 'a' !in v
    ensures CleanVersionString(ContentPrefix + v + ".arch1-1\"") == Some(v)
  {
    var w := v + ".arch1-1";
    var t := w + "\"";
    var m := ContentPrefix + t;
    assert m == ContentPrefix + v + ".arch1-1\"" && m == ContentPrefix + w + "\"";
    assert t == v + ".arch1-1\"";
    ArchTextChars(v);
    WholeStringMatches(w);
    assert m[0..|m|] == m;
    StripContentPrefix(v);
    StripClosingQuote(w);
    assert Unquote(m) == w;
    StripArchSuffix(v);
    assert RemoveWords(w, FilteredWords) == RemoveWords(v, []);
  }

  /** The version the Arch package page carries for a 6.2 kernel cleans to "6.2". */
  lemma CleanVersionExample()
    ensures CleanVersionString(ContentPrefix + "6.2" + ".arch1-1\"") == Some("6.2")
  {
    CleanArchVersion("6.2");
  }

  // ---------------------------------------------------------------------------
  // The decision taken for one package

  /** The message logged after the decision; the version after the update is the new one. */
  function DecisionMessage(oldVersion: string, clean: string): string {
    if oldVersion == clean then "Marked for \"Do not Build\" || Current Version: v" + oldVersion
    else "Marked for \"Build\" || v" + oldVersion + " -> v" + clean
  }

  /**
   * The record after the decision: the flag is cleared when the versions agree; otherwise
   * the flag is set and then the version is written.
   */
  function Decide(r: Dict, clean: string): (u: Dict)
    requires HasShape(r)
    ensures HasShape(u)
    ensures Fields(u) == Fields(r).(markedForBuild := Fields(r).version != clean, version := clean)
  {
    if Fields(r).version == clean then WithMarkedForBuild(r, false)
    else WithVersion(WithMarkedForBuild(r, true), clean)
  }

  /** Deciding twice with the same upstream version leaves the package marked "do not build". */
  lemma DecideTwice(r: Dict, clean: string)
    requires HasShape(r)
    ensures !Fields(Decide(Decide(r, clean), clean)).markedForBuild
    ensures Fields(Decide(Decide(r, clean), clean)).version == clean
  {
  }

  // ---------------------------------------------------------------------------
  // The whole run, as a specification

  /** What the page lookup produced for one upstream URL. */
  datatype Page =
    | Unavailable          // the download failed or the page has no version element
    | VersionTag(raw: string)  // the decoded version element

  datatype Guard = AsWritten | Intended

  /**
   * The test the script applies before cleaning. As written, `not raw is str` is true for
   * every string, so the test never passes; the intended test `isinstance(raw, str)` always does.
   */
  predicate PassesGuard(g: Guard, raw: string) {
    g == Intended
  }

  datatype SyncState = SyncState(info: map<string, Dict>, lines: seq<string>, running: bool)

  /** The "Pulling package info..." line logged first for a package. */
  function PullLine(st: SyncState, name: string, maximum: int): string {
    Log(SyncTitle, name, 1 + |st.lines|, maximum, PullingMessage).0
  }

  /**
   * One iteration of the loop; an exception stops the run (`running` false). A name without a
   * record that follows the schema is left alone, which cannot happen for a well-formed store.
   */
  function SyncStep(st: SyncState, name: string, maximum: int, fetch: string -> Page, guard: Guard): SyncState {
    if !st.running || name == ExamplePackage || name !in st.info || !HasShape(st.info[name]) then st
    else
      var lines := st.lines + [PullLine(st, name, maximum)];
      match fetch(Fields(st.info[name]).upstreamURL)
      case Unavailable => SyncState(st.info, lines, false)
      case VersionTag(raw) =>
        if !PassesGuard(guard, raw) then SyncState(st.info, lines, true)
        else
          match CleanVersionString(raw)
          case None => SyncState(st.info, lines, false)
          case Some(clean) => StoreDecision(st.info, name, lines, maximum, clean)
  }

  /** The state once the decision for `name` is stored and its message logged. */
  function StoreDecision(info: map<string, Dict>, name: string, lines: seq<string>, maximum: int, clean: string): SyncState
    requires name in info && HasShape(info[name])
  {
    var message := DecisionMessage(Fields(info[name]).version, clean);
    SyncState(info[name := Decide(info[name], clean)], lines + [Log(SyncTitle, name, 1 + |lines|, maximum, message).0], true)
  }

  /** The state after the loop has visited `names` in order, starting from `info`. */
  function SyncRun(info: map<string, Dict>, names: seq<string>, maximum: int, fetch: string -> Page, guard: Guard): SyncState
    decreases |names|
  {
    if names == [] then SyncState(info, [], true)
    else SyncStep(SyncRun(info, names[..|names| - 1], maximum, fetch, guard), names[|names| - 1], maximum, fetch, guard)
  }

  /** `main()`: the run over every package of the store, with the counter bound the script computes. */
  function SyncMain(info: map<string, Dict>, names: seq<string>, fetch: string -> Page, guard: Guard): SyncState {
    SyncRun(info, names, |names| + 1, fetch, guard)
  }

  /**
   * One step keeps the set of packages and the schema of every record, changes no record but
   * the visited one, and changes nothing once the run has stopped or for the example package.
   */
  lemma StepFrame(st: SyncState, name: string, maximum: int, fetch: string -> Page, guard: Guard)
    requires AllShaped(st.info)
    ensures var r := SyncStep(st, name, maximum, fetch, guard);
            && r.info.Keys == st.info.Keys && AllShaped(r.info)
            && (forall n :: n in st.info && n != name ==> r.info[n] == st.info[n])
            && (name == ExamplePackage || !st.running ==> r == st)
  {
    if st.running && name != ExamplePackage && name in st.info && HasShape(st.info[name]) {
      var page := fetch(Fields(st.info[name]).upstreamURL);
      if page.VersionTag? && PassesGuard(guard, page.raw) && CleanVersionString(page.raw).Some? {
        var u := Decide(st.info[name], CleanVersionString(page.raw).value);
        assert SyncStep(st, name, maximum, fetch, guard).info == st.info[name := u];
        AllShapedUpdate(st.info, name, u);
        UpdateOthers(st.info, name, u);
      } else {
        assert SyncStep(st, name, maximum, fetch, guard).info == st.info;
      }
    }
  }

  /**
   * A whole run keeps the set of packages and the schema of every record, and changes no
   * record outside the visited names, nor the example package's.
   */
  lemma {:induction false} RunFrame(info: map<string, Dict>, names: seq<string>, maximum: int, fetch: string -> Page, guard: Guard)
    requires AllShaped(info)
    ensures var r := SyncRun(info, names, maximum, fetch, guard);
            && r.info.Keys == info.Keys && AllShaped(r.info)
            && forall n :: n in info && (n !in names || n == ExamplePackage) ==> r.info[n] == info[n]
    decreases |names|
  {
    if names != [] {
      var init := names[..|names| - 1];
      RunFrame(info, init, maximum, fetch, guard);
      StepFrame(SyncRun(info, init, maximum, fetch, guard), names[|names| - 1], maximum, fetch, guard);
      forall n | n in names[..|names| - 1] ensures n in names {
        var k :| 0 <= k < |names| - 1 && names[..|names| - 1][k] == n;
        assert names[k] == n;
      }
    }
  }

  /** One iteration of the script as written changes no record. */
  lemma AsWrittenStep(st: SyncState, name: string, maximum: int, fetch: string -> Page)
    ensures SyncStep(st, name, maximum, fetch, AsWritten).info == st.info
  {
  }

  /** The run over one more name is one more step. */
  lemma RunExtends(info: map<string, Dict>, names: seq<string>, i: nat, maximum: int, fetch: string -> Page, guard: Guard)
    requires i < |names|
    ensures SyncRun(info, names[..i + 1], maximum, fetch, guard)
            == SyncStep(SyncRun(info, names[..i], maximum, fetch, guard), names[i], maximum, fetch, guard)
  {
    assert names[..i + 1][..i] == names[..i];
  }

  /** The example package is skipped without a line. */
  lemma StepSkipsExample(st: SyncState, maximum: int, fetch: string -> Page, guard: Guard)
    ensures SyncStep(st, ExamplePackage, maximum, fetch, guard) == st
  {
  }

  /** A package whose page cannot be read stops the run after its first line. */
  lemma StepUnavailable(st: SyncState, name: string, maximum: int, fetch: string -> Page, guard: Guard)
    requires name in st.info && HasShape(st.info[name]) && st.running && name != ExamplePackage
    requires fetch(Fields(st.info[name]).upstreamURL) == Unavailable
    ensures SyncStep(st, name, maximum, fetch, guard) == SyncState(st.info, st.lines + [PullLine(st, name, maximum)], false)
  {
  }

  /** As written, a package whose page can be read is skipped after its first line. */
  lemma StepAsWrittenSkips(st: SyncState, name: string, maximum: int, fetch: string -> Page)
    requires name in st.info && HasShape(st.info[name]) && st.running && name != ExamplePackage
    requires fetch(Fields(st.info[name]).upstreamURL).VersionTag?
    ensures SyncStep(st, name, maximum, fetch, AsWritten) == SyncState(st.info, st.lines + [PullLine(st, name, maximum)], true)
  {
  }

  /** With the intended guard, a version element the pattern does not match stops the run. */
  lemma StepNoMatch(st: SyncState, name: string, maximum: int, fetch: string -> Page, raw: string)
    requires name in st.info && HasShape(st.info[name]) && st.running && name != ExamplePackage
    requires fetch(Fields(st.info[name]).upstreamURL) == VersionTag(raw)
    requires CleanVersionString(raw).None?
    ensures SyncStep(st, name, maximum, fetch, Intended) == SyncState(st.info, st.lines + [PullLine(st, name, maximum)], false)
  {
  }

  /**
   * With the intended guard, a package whose version can be read gets the decision stored,
   * and the line logged after it carries the decision message.
   */
  lemma IntendedStepDecides(st: SyncState, name: string, maximum: int, fetch: string -> Page, raw: string, clean: string)
    requires name in st.info && HasShape(st.info[name]) && st.running && name != ExamplePackage
    requires fetch(Fields(st.info[name]).upstreamURL) == VersionTag(raw)
    requires CleanVersionString(raw) == Some(clean)
    ensures var pulled := st.lines + [PullLine(st, name, maximum)];
            var message := DecisionMessage(Fields(st.info[name]).version, clean);
            SyncStep(st, name, maximum, fetch, Intended)
            == SyncState(st.info[name := Decide(st.info[name], clean)],
                         pulled + [Log(SyncTitle, name, 1 + |pulled|, maximum, message).0], true)
  {
  }

  /** The script as written never changes a record. */
  lemma {:induction false} AsWrittenNeverUpdates(info: map<string, Dict>, names: seq<string>, maximum: int, fetch: string -> Page)
    ensures SyncRun(info, names, maximum, fetch, AsWritten).info == info
    decreases |names|
  {
    if names != [] {
      var init := names[..|names| - 1];
      AsWrittenNeverUpdates(info, init, maximum, fetch);
      AsWrittenStep(SyncRun(info, init, maximum, fetch, AsWritten), names[|names| - 1], maximum, fetch);
    }
  }

  /** Once an exception has stopped the run, the remaining packages change nothing. */
  lemma {:induction false} StoppedRunStaysStopped(info: map<string, Dict>, names: seq<string>, k: nat,
                                                  maximum: int, fetch: string -> Page, guard: Guard)
    requires k <= |names|
    requires !SyncRun(info, names[..k], maximum, fetch, guard).running
    ensures SyncRun(info, names, maximum, fetch, guard) == SyncRun(info, names[..k], maximum, fetch, guard)
    decreases |names|
  {
    if k < |names| {
      var init := names[..|names| - 1];
      assert init[..k] == names[..k];
      StoppedRunStaysStopped(info, init, k, maximum, fetch, guard);
    } else {
      assert names[..k] == names;
    }
  }

  /**
   * The state a loop over `names` has reached after `k` names, once it has either seen them all
   * or stopped, is the state of `main()`.
   */
  lemma LoopExit(info: map<string, Dict>, names: seq<string>, k: nat, maximum: int,
                 fetch: string -> Page, guard: Guard, reached: SyncState)
    requires k <= |names| && maximum == |names| + 1
    requires SyncRun(info, names[..k], maximum, fetch, guard) == reached
    requires k == |names| || !reached.running
    ensures SyncMain(info, names, fetch, guard) == reached
  {
    if k == |names| {
      assert names[..k] == names;
    } else {
      StoppedRunStaysStopped(info, names, k, maximum, fetch, guard);
    }
  }

  /**
   * A package whose upstream version differs from the stored one: the as-written guard skips
   * it, the intended guard marks it for build with the new version.
   */
  lemma GuardCounterexample(info: map<string, Dict>, name: string, maximum: int, fetch: string -> Page,
                            raw: string, clean: string)
    requires name in info && HasShape(info[name]) && name != ExamplePackage
    requires fetch(Fields(info[name]).upstreamURL) == VersionTag(raw)
    requires CleanVersionString(raw) == Some(clean) && clean != Fields(info[name]).version
    ensures SyncRun(info, [name], maximum, fetch, AsWritten).info == info
    ensures SyncRun(info, [name], maximum, fetch, Intended).info == info[name := Decide(info[name], clean)]
    ensures Fields(SyncRun(info, [name], maximum, fetch, Intended).info[name]).markedForBuild
    ensures Fields(SyncRun(info, [name], maximum, fetch, Intended).info[name]).version == clean
  {
    var start := SyncState(info, [], true);
    assert [name][..0] == [];
    assert SyncRun(info, [name], maximum, fetch, AsWritten) == SyncStep(start, name, maximum, fetch, AsWritten);
    AsWrittenStep(start, name, maximum, fetch);
    assert SyncRun(info, [name], maximum, fetch, Intended) == SyncStep(start, name, maximum, fetch, Intended);
    IntendedStepDecides(start, name, maximum, fetch, raw, clean);
  }

  // ---------------------------------------------------------------------------
  // The script against the database

  /** `modifyPackage(name, "buildInfo/markedForBuild", b)` on a record that follows the schema. */
  method StoreFlag(db: Database, name: string, b: bool)
    requires db.Valid() && db.WellFormed() && name in db.packages
    modifies db
    ensures db.Valid() && db.WellFormed() && db.packages == old(db.packages)
    ensures db.packageInfo == old(db.packageInfo)[name := WithMarkedForBuild(old(db.packageInfo)[name], b)]
  {
    SetMarkedForBuild(db.packageInfo[name], b);
    var _ := db.ModifyPackage(name, MarkedForBuildPath, Bool(b));
    AllShapedUpdate(old(db.packageInfo), name, WithMarkedForBuild(old(db.packageInfo)[name], b));
  }

  /** `modifyPackage(name, "version", v)` on a record that follows the schema. */
  method StoreVersion(db: Database, name: string, v: string)
    requires db.Valid() && db.WellFormed() && name in db.packages
    modifies db
    ensures db.Valid() && db.WellFormed() && db.packages == old(db.packages)
    ensures db.packageInfo == old(db.packageInfo)[name := WithVersion(old(db.packageInfo)[name], v)]
  {
    SetVersion(db.packageInfo[name], v);
    var _ := db.ModifyPackage(name, VersionPath, Str(v));
    AllShapedUpdate(old(db.packageInfo), name, WithVersion(old(db.packageInfo)[name], v));
  }

  /**
   * The two-branch update for one package; the returned message is the one the script logs,
   * reading the version back from the updated record.
   */
  method ApplyVersion(db: Database, name: string, clean: string) returns (message: string)
    requires db.Valid() && db.WellFormed() && name in db.packages
    modifies db
    ensures db.Valid() && db.WellFormed() && db.packages == old(db.packages)
    ensures db.packageInfo == old(db.packageInfo)[name := Decide(old(db.packageInfo)[name], clean)]
    ensures message == DecisionMessage(Fields(old(db.packageInfo)[name]).version, clean)
  {
    var p := PackageInfo(name);
    var before := Fields(db.Record(p)).version;
    ghost var r0 := db.packageInfo[name];
    if before == clean {
      assert Decide(r0, clean) == WithMarkedForBuild(r0, false);
      StoreFlag(db, name, false);
      assert db.packageInfo == old(db.packageInfo)[name := Decide(r0, clean)];
      message := "Marked for \"Do not Build\" || Current Version: v" + Fields(db.Record(p)).version;
    } else {
      ghost var r1 := WithMarkedForBuild(r0, true);
      assert Decide(r0, clean) == WithVersion(r1, clean);
      StoreFlag(db, name, true);
      StoreVersion(db, name, clean);
      assert db.packageInfo == old(db.packageInfo)[name := r1][name := WithVersion(r1, clean)];
      UpdateTwice(old(db.packageInfo), name, r1, WithVersion(r1, clean));
      message := "Marked for \"Build\" || v" + before + " -> v" + Fields(db.Record(p)).version;
    }
  }

  /**
   * One iteration of `main()`'s loop with the guard as written, from a running state: the lines
   * logged and whether the loop goes on are those `SyncStep` gives, and no record changes.
   */
  method VisitAsWritten(db: Database, name: string, maximum: int, fetch: string -> Page, lines: seq<string>, count: int)
    returns (lines': seq<string>, count': int, running: bool)
    requires name in db.packageInfo && HasShape(db.packageInfo[name]) && count == 1 + |lines|
    ensures count' == 1 + |lines'|
    ensures SyncStep(SyncState(db.packageInfo, lines, true), name, maximum, fetch, AsWritten)
            == SyncState(db.packageInfo, lines', running)
  {
    ghost var st := SyncState(db.packageInfo, lines, true);
    if name == ExamplePackage {
      StepSkipsExample(st, maximum, fetch, AsWritten);
      return lines, count, true;
    }
    var (line, next) := Log(SyncTitle, name, count, maximum, PullingMessage);
    assert line == PullLine(st, name, maximum);
    lines', count' := lines + [line], next;
    var page := fetch(Fields(db.Record(PackageInfo(name))).upstreamURL);
    if page.Unavailable? {
      StepUnavailable(st, name, maximum, fetch, AsWritten);
      running := false;
    } else {
      StepAsWrittenSkips(st, name, maximum, fetch);
      running := true;
    }
  }

  /**
   * `main()` with the guard as written: no record is ever changed, so the method does not
   * modify the database; it returns the logged lines and whether the loop ran to the end.
   */
  method SyncAsWritten(db: Database, fetch: string -> Page) returns (lines: seq<string>, completed: bool)
    requires db.Valid() && db.WellFormed()
    ensures SyncMain(db.packageInfo, db.packages, fetch, AsWritten) == SyncState(db.packageInfo, lines, completed)
  {
    var all := db.GetAllPackages();
    var maximum := |all| + 1;
    var count := 1;
    lines, completed := [], true;
    var i := 0;
    while i < |all| && completed
      invariant 0 <= i <= |all| && maximum == |db.packages| + 1
      invariant count == 1 + |lines|
      invariant SyncRun(db.packageInfo, db.packages[..i], maximum, fetch, AsWritten)
                == SyncState(db.packageInfo, lines, completed)
    {
      RunExtends(db.packageInfo, db.packages, i, maximum, fetch, AsWritten);
      lines, count, completed := VisitAsWritten(db, all[i].name, maximum, fetch, lines, count);
      i := i + 1;
    }
    LoopExit(db.packageInfo, db.packages, i, maximum, fetch, AsWritten, SyncState(db.packageInfo, lines, completed));
  }

  /**
   * One iteration of `main()`'s loop with the intended guard, from a running state: the lines
   * logged, the records stored and whether the loop goes on are those `SyncStep` gives.
   */
  method VisitIntended(db: Database, name: string, maximum: int, fetch: string -> Page, lines: seq<string>, count: int)
    returns (lines': seq<string>, count': int, running: bool)
    requires db.Valid() && db.WellFormed() && name in db.packages && count == 1 + |lines|
    modifies db
    ensures db.Valid() && db.WellFormed() && db.packages == old(db.packages)
    ensures count' == 1 + |lines'|
    ensures SyncStep(SyncState(old(db.packageInfo), lines, true), name, maximum, fetch, Intended)
            == SyncState(db.packageInfo, lines', running)
  {
    ghost var st := SyncState(db.packageInfo, lines, true);
    if name == ExamplePackage {
      StepSkipsExample(st, maximum, fetch, Intended);
      return lines, count, true;
    }
    var (line, next) := Log(SyncTitle, name, count, maximum, PullingMessage);
    assert line == PullLine(st, name, maximum);
    lines', count' := lines + [line], next;
    var page := fetch(Fields(db.Record(PackageInfo(name))).upstreamURL);
    if page.Unavailable? {
      StepUnavailable(st, name, maximum, fetch, Intended);
      return lines', count', false;
    }
    var clean := CleanVersionString(page.raw);
    if clean.None? {
      StepNoMatch(st, name, maximum, fetch, page.raw);
      return lines', count', false;
    }
    IntendedStepDecides(st, name, maximum, fetch, page.raw, clean.value);
    var message := ApplyVersion(db, name, clean.value);
    var (decided, after) := Log(SyncTitle, name, count', maximum, message);
    lines', count', running := lines' + [decided], after, true;
  }

  /**
   * `main()` with the intended guard: each package is updated in the database as `SyncMain`
   * says, and the run stops at the first package whose page or version cannot be read.
   */
  method Sync(db: Database, fetch: string -> Page) returns (lines: seq<string>, completed: bool)
    requires db.Valid() && db.WellFormed()
    modifies db
    ensures db.Valid() && db.WellFormed() && db.packages == old(db.packages)
    ensures SyncMain(old(db.packageInfo), old(db.packages), fetch, Intended) == SyncState(db.packageInfo, lines, completed)
  {
    var all := db.GetAllPackages();
    var maximum := |all| + 1;
    var count := 1;
    lines, completed := [], true;
    ghost var info0, names := db.packageInfo, db.packages;
    var i := 0;
    while i < |all| && completed
      invariant 0 <= i <= |all| && maximum == |names| + 1 && |all| == |names|
      invariant forall k :: 0 <= k < |all| ==> all[k].name == names[k]
      invariant db.Valid() && db.WellFormed() && db.packages == names
      invariant count == 1 + |lines|
      invariant SyncRun(info0, names[..i], maximum, fetch, Intended)
                == SyncState(db.packageInfo, lines, completed)
    {
      RunExtends(info0, names, i, maximum, fetch, Intended);
      lines, count, completed := VisitIntended(db, all[i].name, maximum, fetch, lines, count);
      i := i + 1;
    }
    LoopExit(info0, names, i, maximum, fetch, Intended, SyncState(db.packageInfo, lines, completed));
  }
}
