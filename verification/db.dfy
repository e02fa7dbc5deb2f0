/**
 * The package database: one JSON document, `{"packages": [...], "package_info": {...}}`,
 * held in memory and written back whole after every successful change.
 *
 * A record is kept as the JSON object it is (`Dict`), so that a key-path update can add keys
 * or fail exactly as the dictionary assignment does; `HasShape` says a record follows the
 * document schema and `Fields` reads such a record through its typed getters.
 */
module PackageStore {
  import opened Wrappers
  import opened Strings

  /** A JSON value as it appears in a record (strings, booleans and nested objects). */
  datatype Value = Str(s: string) | Bool(b: bool) | Obj(fields: map<string, Value>)

  type Dict = map<string, Value>

  /** The whole persisted document. */
  datatype Document = Document(packages: seq<string>, packageInfo: map<string, Dict>)

  /** What the getter classes return for a record that follows the schema. */
  datatype PackageFields = PackageFields(
    version: string,
    sourceType: string,
    sourceURL: string,
    upstreamURL: string,
    repo: string,
    pkgbuild: string,
    markedForBuild: bool,
    buildFunctionName: string,
    prepareFunctionName: string)

  /**
   * A `PackageInfo` wraps the live record of the database rather than a copy of it,
   * so it is modelled as the name it was fetched under: every read goes to the current store.
   */
  datatype PackageInfo = PackageInfo(name: string)

  datatype StoreError =
    | PackageNotFound(requestedPackage: string)
    | DuplicatePackage
    | KeyPathError(keyPath: string)  // KeyError or TypeError raised by a nested assignment

  const Placeholder := "{x}"
  const MarkedForBuildPath := "buildInfo/markedForBuild"
  const VersionPath := "version"

  // ---------------------------------------------------------------------------
  // Record schema and getters

  predicate IsStr(d: Dict, k: string) { k in d && d[k].Str? }
  predicate IsBool(d: Dict, k: string) { k in d && d[k].Bool? }
  predicate IsObj(d: Dict, k: string) { k in d && d[k].Obj? }

  predicate HasShape(r: Dict) {
    && IsStr(r, "version")
    && IsObj(r, "urls")
    && IsStr(r["urls"].fields, "type")
    && IsStr(r["urls"].fields, "source_url")
    && IsStr(r["urls"].fields, "upstream_url")
    && IsObj(r, "paths")
    && IsStr(r["paths"].fields, "repo")
    && IsStr(r["paths"].fields, "pkgbuild")
    && IsObj(r, "buildInfo")
    && IsBool(r["buildInfo"].fields, "markedForBuild")
    && IsStr(r["buildInfo"].fields, "buildFunctionName")
    && IsStr(r["buildInfo"].fields, "prepareFunctionName")
  }

  /** The values the record's getters return. */
  function Fields(r: Dict): PackageFields
    requires HasShape(r)
  {
    var urls, paths, build := r["urls"].fields, r["paths"].fields, r["buildInfo"].fields;
    PackageFields(
      r["version"].s,
      urls["type"].s, urls["source_url"].s, urls["upstream_url"].s,
      paths["repo"].s, paths["pkgbuild"].s,
      build["markedForBuild"].b, build["buildFunctionName"].s, build["prepareFunctionName"].s)
  }

  /** `getPackageBuildPath`: the working directory with every "/scripts" replaced by the record's PKGBUILD path. */
  function PackageBuildPath(cwd: string, r: Dict): string
    requires HasShape(r)
  {
    ReplaceAll(cwd, "/scripts", Fields(r).pkgbuild)
  }

  /** `getInternalRepositoryPath`: the same substitution with the record's repository path. */
  function InternalRepositoryPath(cwd: string, r: Dict): string
    requires HasShape(r)
  {
    ReplaceAll(cwd, "/scripts", Fields(r).repo)
  }

  // ---------------------------------------------------------------------------
  // Source URL templates

  /** The template after filling one placeholder per word, each in the leftmost one remaining. */
  function FillTemplate(template: string, words: seq<string>): string
    decreases |words|
  {
    if words == [] then template
    else ReplaceFirst(FillTemplate(template, words[..|words| - 1]), Placeholder, words[|words| - 1])
  }

  /** `PackageURLInfo.getSourceURL`: no list or an empty list gives the raw template. */
  method GetSourceURL(sourceURL: string, replacementList: Option<seq<string>>) returns (url: string)
    ensures replacementList.None? ==> url == sourceURL
    ensures replacementList.Some? ==> url == FillTemplate(sourceURL, replacementList.value)
  {
    if replacementList.None? || replacementList.value == [] {
      return sourceURL;
    }
    var words := replacementList.value;
    url := sourceURL;
    for i := 0 to |words|
      invariant url == FillTemplate(sourceURL, words[..i])
    {
      assert words[..i + 1][..i] == words[..i];
      url := ReplaceFirst(url, Placeholder, words[i]);
    }
    assert words[..|words|] == words;
  }

  /** A template without placeholders is returned unchanged, whatever the words. */
  lemma {:induction false} FillTemplateWithoutPlaceholder(template: string, words: seq<string>)
    requires !Contains(template, Placeholder)
    ensures FillTemplate(template, words) == template
    decreases |words|
  {
    if words != [] {
      FillTemplateWithoutPlaceholder(template, words[..|words| - 1]);
      ReplaceFirstSpec(template, Placeholder, words[|words| - 1]);
    }
  }

  /** The leftmost placeholder of a string whose prefix has no '{' is the one right after that prefix. */
  lemma ReplaceFirstAfterPrefix(prefix: string, rest: string, word: string)
    requires '{' !in prefix
    ensures ReplaceFirst(prefix + Placeholder + rest, Placeholder, word) == prefix + word + rest
  {
    var s := prefix + Placeholder + rest;
    assert OccursAt(s, Placeholder, |prefix|) by {
      assert s[|prefix|..|prefix| + 3] == Placeholder;
    }
    forall j: nat | j < |prefix|
      ensures !OccursAt(s, Placeholder, j)
    {
      assert s[j] == prefix[j];
      assert s[j..j + 3][0] == s[j];
    }
    var i := Find(s, Placeholder).value;
    assert i == |prefix|;
    assert s[i + 3..] == rest;
    assert s[..i] == prefix;
  }

  /** A two-placeholder template filled with two words: each word lands in its own placeholder. */
  lemma FillTwoPlaceholders(a: string, b: string, c: string, w1: string, w2: string)
    requires '{' !in a && '{' !in b && '{' !in w1
    ensures FillTemplate(a + Placeholder + b + Placeholder + c, [w1, w2]) == a + w1 + b + w2 + c
  {
    var t := a + Placeholder + b + Placeholder + c;
    var rest := b + Placeholder + c;
    assert t == a + Placeholder + rest;
    ReplaceFirstAfterPrefix(a, rest, w1);
    var once := a + w1 + rest;
    assert FillTemplate(t, [w1]) == once by {
      assert [w1][..0] == [];
      assert FillTemplate(t, [w1]) == ReplaceFirst(t, Placeholder, w1);
    }
    var prefix := a + w1 + b;
    assert '{' !in prefix;
    assert once == prefix + Placeholder + c;
    ReplaceFirstAfterPrefix(prefix, c, w2);
    assert [w1, w2][..1] == [w1];
    assert FillTemplate(t, [w1, w2]) == ReplaceFirst(once, Placeholder, w2);
  }

  // ---------------------------------------------------------------------------
  // New records and key-path updates

  /** `f"{prefix}{name}".replace("-", "_")`. */
  function TaskName(prefix: string, name: string): string {
    ReplaceAll(prefix + name, "-", "_")
  }

  /** Task names keep their prefix and the name, with every '-' turned into '_' and nothing else changed. */
  lemma TaskNameSpec(prefix: string, name: string)
    requires '-' !in prefix
    ensures var t := TaskName(prefix, name);
            && |t| == |prefix| + |name|
            && t[..|prefix|] == prefix
            && (forall k :: 0 <= k < |name| ==> t[|prefix| + k] == (if name[k] == '-' then '_' else name[k]))
            && '-' !in t
  {
    var s := prefix + name;
    ReplaceAllCharByChar(s, '-', '_');
    var t := TaskName(prefix, name);
    forall k | 0 <= k < |prefix| ensures t[k] == prefix[k] {
      assert s[k] == prefix[k];
    }
    forall k | 0 <= k < |name| ensures t[|prefix| + k] == (if name[k] == '-' then '_' else name[k]) {
      assert s[|prefix| + k] == name[k];
    }
  }

  /** The record `addPackage` stores. */
  function NewRecord(name: string, version: string, urlType: string, sourceURL: string,
                     upstreamURL: string, repo: string, pkgbuild: string): Dict
  {
    map[
      "version" := Str(version),
      "urls" := Obj(map["type" := Str(urlType), "source_url" := Str(sourceURL), "upstream_url" := Str(upstreamURL)]),
      "paths" := Obj(map["repo" := Str(repo), "pkgbuild" := Str(pkgbuild)]),
      "buildInfo" := Obj(map[
        "markedForBuild" := Bool(true),
        "buildFunctionName" := Str(TaskName("build_pkg_", name)),
        "prepareFunctionName" := Str(TaskName("prepare_pkg_", name))])]
  }

  /** A new record follows the schema, returns every input verbatim, is marked for build and carries derived task names. */
  lemma NewRecordFields(name: string, version: string, urlType: string, sourceURL: string,
                        upstreamURL: string, repo: string, pkgbuild: string)
    ensures HasShape(NewRecord(name, version, urlType, sourceURL, upstreamURL, repo, pkgbuild))
    ensures Fields(NewRecord(name, version, urlType, sourceURL, upstreamURL, repo, pkgbuild))
         == PackageFields(version, urlType, sourceURL, upstreamURL, repo, pkgbuild, true,
                          TaskName("build_pkg_", name), TaskName("prepare_pkg_", name))
  {
  }

  /**
   * `rawPackageInfo[seg0] = v` for a one-segment path, `rawPackageInfo[seg0][seg1] = v` otherwise
   * (later segments are ignored); the nested form fails unless `seg0` holds an object.
   */
  function SetPath(r: Dict, segments: seq<string>, value: Value, keyPath: string): Result<Dict, StoreError>
    requires |segments| >= 1
  {
    if |segments| == 1 then Success(r[segments[0] := value])
    else if IsObj(r, segments[0]) then Success(r[segments[0] := Obj(r[segments[0]].fields[segments[1] := value])])
    else Failure(KeyPathError(keyPath))
  }

  /** Splitting at the only separator of a string gives the two sides. */
  lemma SplitAtOnlySeparator(a: string, c: char, b: string)
    requires c !in a && c !in b
    ensures Split(a + [c] + b, [c]) == [a, b]
  {
    var s := a + [c] + b;
    assert OccursAt(s, [c], |a|) by { assert s[|a|..|a| + 1] == [c]; }
    forall j: nat | j < |a| ensures !OccursAt(s, [c], j) {
      assert s[j..j + 1] == [a[j]];
    }
    assert Find(s, [c]) == Some(|a|);
    assert s[..|a|] == a;
    assert s[|a| + 1..] == b;
    SplitWithoutSeparator(b, c);
    assert Split(s, [c]) == [a] + Split(b, [c]);
  }

  lemma SplitWithoutSeparator(a: string, c: char)
    requires c !in a
    ensures Split(a, [c]) == [a]
  {
    forall j: nat ensures !OccursAt(a, [c], j) {
      if j < |a| { assert a[j..j + 1] == [a[j]]; }
    }
  }

  /** The record with its build flag set to `b`. */
  function WithMarkedForBuild(r: Dict, b: bool): (u: Dict)
    requires HasShape(r)
    ensures HasShape(u) && Fields(u) == Fields(r).(markedForBuild := b)
  {
    r["buildInfo" := Obj(r["buildInfo"].fields["markedForBuild" := Bool(b)])]
  }

  /** The record with its version set to `v`. */
  function WithVersion(r: Dict, v: string): (u: Dict)
    requires HasShape(r)
    ensures HasShape(u) && Fields(u) == Fields(r).(version := v)
  {
    r["version" := Str(v)]
  }

  /** Writing a boolean at "buildInfo/markedForBuild" sets that flag and nothing else. */
  lemma SetMarkedForBuild(r: Dict, b: bool)
    requires HasShape(r)
    ensures SetPath(r, Split(MarkedForBuildPath, "/"), Bool(b), MarkedForBuildPath) == Success(WithMarkedForBuild(r, b))
  {
    assert MarkedForBuildPath == "buildInfo" + ['/'] + "markedForBuild";
    SplitAtOnlySeparator("buildInfo", '/', "markedForBuild");
  }

  /** Writing a string at "version" sets the version and nothing else. */
  lemma SetVersion(r: Dict, v: string)
    requires HasShape(r)
    ensures SetPath(r, Split(VersionPath, "/"), Str(v), VersionPath) == Success(WithVersion(r, v))
  {
    SplitWithoutSeparator(VersionPath, '/');
  }

  // ---------------------------------------------------------------------------
  // The document invariant

  ghost predicate AllShaped(info: map<string, Dict>) {
    forall n :: n in info ==> HasShape(info[n])
  }

  /** A second update of the same record overrides the first. */
  lemma UpdateTwice(info: map<string, Dict>, name: string, first: Dict, second: Dict)
    ensures info[name := first][name := second] == info[name := second]
  {
  }

  /** Updating one record leaves every other record as it was. */
  lemma UpdateOthers(info: map<string, Dict>, name: string, r: Dict)
    ensures info[name := r].Keys == info.Keys + {name}
    ensures forall n :: n in info && n != name ==> info[name := r][n] == info[n]
  {
  }

  /** Replacing or adding a record that follows the schema keeps every record following it. */
  lemma AllShapedUpdate(info: map<string, Dict>, name: string, r: Dict)
    requires AllShaped(info) && HasShape(r)
    ensures AllShaped(info[name := r])
  {
  }

  ghost predicate NoDuplicates(s: seq<string>) {
    forall i, j :: 0 <= i < j < |s| ==> s[i] != s[j]
  }

  /** Names are unique and are exactly the keys of `package_info`. */
  ghost predicate Consistent(d: Document) {
    && NoDuplicates(d.packages)
    && forall n :: n in d.packages <==> n in d.packageInfo
  }

  /**
   * Python's `list.remove(x)`: drops the first occurrence only. Python raises `ValueError` when `x`
   * is absent, so the caller must make sure it is present.
   */
  function RemoveFirst(s: seq<string>, x: string): (r: seq<string>)
    requires x in s
    ensures |r| == |s| - 1
  {
    if s[0] == x then s[1..]
    else [s[0]] + RemoveFirst(s[1..], x)
  }

  /** `RemoveFirst` cuts out the first occurrence of `x`, found at the returned index. */
  lemma {:induction false} RemoveFirstAt(s: seq<string>, x: string) returns (i: nat)
    requires x in s
    ensures i < |s| && s[i] == x && x !in s[..i]
    ensures RemoveFirst(s, x) == s[..i] + s[i + 1..]
  {
    if s[0] == x {
      i := 0;
    } else {
      assert x in s[1..];
      var j := RemoveFirstAt(s[1..], x);
      i := j + 1;
      assert s[..i] == [s[0]] + s[1..][..j];
      assert s[i + 1..] == s[1..][j + 1..];
    }
  }

  /** `RemoveFirst` drops exactly one copy of `x` and keeps every other name as often as before. */
  lemma RemoveFirstCount(s: seq<string>, x: string)
    requires x in s
    ensures multiset(RemoveFirst(s, x)) == multiset(s) - multiset{x}
  {
    var i := RemoveFirstAt(s, x);
    assert s == s[..i] + [x] + s[i + 1..];
  }

  /** Adding a fresh name at the end, with its record, keeps the document consistent. */
  lemma AddKeepsConsistent(d: Document, name: string, record: Dict)
    requires Consistent(d) && name !in d.packages
    ensures Consistent(Document(d.packages + [name], d.packageInfo[name := record]))
  {
  }

  /** Cutting one entry out of a list without duplicates leaves exactly the other names, once each. */
  lemma CutKeepsNoDuplicates(s: seq<string>, i: nat)
    requires i < |s| && NoDuplicates(s)
    ensures NoDuplicates(s[..i] + s[i + 1..])
    ensures forall n :: n in s[..i] + s[i + 1..] <==> n in s && n != s[i]
  {
    var p := s[..i] + s[i + 1..];
    assert forall k :: 0 <= k < |p| ==> p[k] == s[if k < i then k else k + 1];
    forall k1, k2 | 0 <= k1 < k2 < |p| ensures p[k1] != p[k2] {
      var j1, j2 := if k1 < i then k1 else k1 + 1, if k2 < i then k2 else k2 + 1;
      assert p[k1] == s[j1] && p[k2] == s[j2] && j1 < j2;
    }
    forall n ensures n in p <==> n in s && n != s[i] {
      if n in p {
        var k :| 0 <= k < |p| && p[k] == n;
        var j := if k < i then k else k + 1;
        assert s[j] == n && j != i;
      }
      if n in s && n != s[i] {
        var k :| 0 <= k < |s| && s[k] == n;
        assert p[if k < i then k else k - 1] == n;
      }
    }
  }

  /**
   * Deleting a present name removes it from the list and the map, keeps the other names in their
   * relative order, and keeps the document consistent.
   */
  lemma DeleteKeepsConsistent(d: Document, name: string)
    requires Consistent(d) && name in d.packages
    ensures var p := RemoveFirst(d.packages, name);
            && name !in p
            && (exists i :: 0 <= i < |d.packages| && p == d.packages[..i] + d.packages[i + 1..])
            && Consistent(Document(p, d.packageInfo - {name}))
  {
    var i := RemoveFirstAt(d.packages, name);
    CutKeepsNoDuplicates(d.packages, i);
  }

  function Views(names: seq<string>): (r: seq<PackageInfo>)
    ensures |r| == |names|
    ensures forall i :: 0 <= i < |r| ==> r[i].name == names[i]
  {
    if names == [] then [] else [PackageInfo(names[0])] + Views(names[1..])
  }

  // ---------------------------------------------------------------------------
  // The database object

  class Database {
    var packages: seq<string>
    var packageInfo: map<string, Dict>
    /** The content of the backing file. */
    ghost var persisted: Document

    function Doc(): Document
      reads this
    {
      Document(packages, packageInfo)
    }

    /** The document is consistent and the file holds exactly the in-memory document. */
    ghost predicate Valid()
      reads this
    {
      Consistent(Doc()) && persisted == Doc()
    }

    /** Every record follows the schema. */
    ghost predicate WellFormed()
      reads this
    {
      AllShaped(packageInfo)
    }

    /** The record a view currently sees. */
    function Record(p: PackageInfo): Dict
      reads this
      requires p.name in packageInfo
    {
      packageInfo[p.name]
    }

    /** Construction from the loaded file (the loading itself is outside the model). */
    constructor (loaded: Document)
      requires Consistent(loaded)
      ensures Valid() && Doc() == loaded
    {
      packages := loaded.packages;
      packageInfo := loaded.packageInfo;
      persisted := loaded;
    }

    function GetPackage(name: string): (r: Result<PackageInfo, StoreError>)
      reads this
      requires Valid()
      ensures r.Failure? <==> name !in packages
      ensures r.Failure? ==> r.error == PackageNotFound(name)
      ensures r.Success? ==> r.value.name == name && name in packageInfo
    {
      if name !in packages then Failure(PackageNotFound(name)) else Success(PackageInfo(name))
    }

    function GetAllPackages(): (r: seq<PackageInfo>)
      reads this
      requires Valid()
      ensures |r| == |packages|
      ensures forall i :: 0 <= i < |r| ==> r[i].name == packages[i] && r[i].name in packageInfo
    {
      Views(packages)
    }

    method ModifyPackage(name: string, keyPath: string, newValue: Value) returns (r: Outcome<StoreError>)
      requires Valid()
      modifies this
      ensures Valid() && packages == old(packages)
      ensures name !in old(packages) ==> r == Fail(PackageNotFound(name)) && packageInfo == old(packageInfo)
      ensures name in old(packages) ==>
        match SetPath(old(packageInfo)[name], Split(keyPath, "/"), newValue, keyPath)
        case Success(updated) => r == Pass && packageInfo == old(packageInfo)[name := updated]
        case Failure(e) => r == Fail(e) && packageInfo == old(packageInfo)
      ensures r.Pass? ==> persisted == Doc()
      ensures r.Fail? ==> persisted == old(persisted)
    {
      if name !in packages {
        return Fail(PackageNotFound(name));
      }
      var updated := SetPath(packageInfo[name], Split(keyPath, "/"), newValue, keyPath);
      if updated.Failure? {
        return Fail(updated.error);
      }
      packageInfo := packageInfo[name := updated.value];
      persisted := Doc();
      r := Pass;
    }

    method AddPackage(name: string, version: string, urlType: string, sourceURL: string,
                      upstreamURL: string, repo: string, pkgbuild: string) returns (r: Outcome<StoreError>)
      requires Valid()
      modifies this
      ensures Valid()
      ensures old(WellFormed()) ==> WellFormed()
      ensures name in old(packages) ==> r == Fail(DuplicatePackage) && Doc() == old(Doc()) && persisted == old(persisted)
      ensures name !in old(packages) ==>
        && r == Pass
        && packages == old(packages) + [name]
        && packageInfo == old(packageInfo)[name := NewRecord(name, version, urlType, sourceURL, upstreamURL, repo, pkgbuild)]
        && persisted == Doc()
    {
      if name in packages {
        return Fail(DuplicatePackage);
      }
      var record := NewRecord(name, version, urlType, sourceURL, upstreamURL, repo, pkgbuild);
      NewRecordFields(name, version, urlType, sourceURL, upstreamURL, repo, pkgbuild);
      AddKeepsConsistent(Doc(), name, record);
      packages := packages + [name];
      packageInfo := packageInfo[name := record];
      persisted := Doc();
      r := Pass;
    }

    method DeletePackage(name: string) returns (r: Outcome<StoreError>)
      requires Valid()
      modifies this
      ensures Valid()
      ensures old(WellFormed()) ==> WellFormed()
      ensures name !in old(packages) ==> r == Fail(PackageNotFound(name)) && Doc() == old(Doc()) && persisted == old(persisted)
      ensures name in old(packages) ==>
        && r == Pass
        && packages == RemoveFirst(old(packages), name)
        && packageInfo == old(packageInfo) - {name}
        && name !in packages
        && persisted == Doc()
    {
      if name !in packages {
        return Fail(PackageNotFound(name));
      }
      DeleteKeepsConsistent(Doc(), name);
      packages := RemoveFirst(packages, name);
      packageInfo := packageInfo - {name};
      persisted := Doc();
      r := Pass;
    }
  }
}
