/**
 * The loop shared by `prepare_packages.py` and `build_packages.py`: every record of the store is
 * checked in store order; an unmarked one is skipped, a marked one is dispatched to its prepare or
 * build procedure, and an exception from dispatch or from the procedure is logged and the loop goes
 * on. Neither script writes to the store.
 */
module Batch {
  import opened Wrappers
  import opened Logging
  import opened PackageStore
  import opened Effects
  import PrepareTasks
  import BuildTasks

  /** Which of the two scripts runs the loop. */
  datatype Stage = Preparation | Building

  const CheckMessage := "Checking build info..."
  const SkipMessage := "Skipping package || Not marked for build!..."
  /** The title of every line after a package's first one, in both scripts. */
  const StepTitle := "PACKAGE PREPARATION"

  /** The title of a package's first line. */
  function CheckTitle(stage: Stage): string {
    if stage == Preparation then "PACKAGE PREPARATION" else "PACKAGE BUILDING"
  }

  function ExecuteMessage(stage: Stage): string {
    if stage == Preparation then "Executing prepare function..." else "Executing build function..."
  }

  /** The line logged for a caught exception; both scripts use the preparation wording. */
  function ErrorMessage(error: string): string {
    "Error while preparing package! || " + error
  }

  /** The name of the procedure a record asks for at this stage. */
  function TaskOf(stage: Stage, f: PackageFields): string {
    if stage == Preparation then f.prepareFunctionName else f.buildFunctionName
  }

  /** The stage's dispatch call; an exception is reduced to its message, which is all the loop uses. */
  function Dispatch(stage: Stage, registry: set<string>, p: PackageInfo, r: Dict): Result<Invocation, string>
    requires HasShape(r)
  {
    if stage == Preparation then
      match PrepareTasks.PreparePackage(registry, p, r)
      case Success(c) => Success(c)
      case Failure(e) => Failure(e.message)
    else
      match BuildTasks.BuildPackage(registry, p, r)
      case Success(c) => Success(c)
      case Failure(e) => Failure(e.message)
  }

  /** Dispatch invokes the stage's task name exactly when the registry has it. */
  lemma DispatchSpec(stage: Stage, registry: set<string>, p: PackageInfo, r: Dict)
    requires HasShape(r)
    ensures Dispatch(stage, registry, p, r).Success? <==> TaskOf(stage, Fields(r)) in registry
    ensures Dispatch(stage, registry, p, r).Success? ==>
              Dispatch(stage, registry, p, r).value == Invocation(TaskOf(stage, Fields(r)), p)
  {
  }

  /** The lines logged so far and the procedure calls made so far. */
  datatype BatchState = BatchState(lines: seq<string>, calls: seq<Invocation>)

  /**
   * One iteration for package `name`. `run(c)` is what the invoked procedure does, seen from the
   * loop: it returns (`Pass`) or raises an exception with a message (`Fail`). A name without a record
   * that follows the schema is left alone, which cannot happen for a well-formed store.
   */
  function Visit(stage: Stage, registry: set<string>, run: Invocation -> Outcome<string>,
                 info: map<string, Dict>, st: BatchState, name: string, maximum: int): BatchState
  {
    if name !in info || !HasShape(info[name]) then st
    else
      var count := 1 + |st.lines|;
      var checked := st.lines + [LogLine(CheckTitle(stage), name, count, maximum, CheckMessage)];
      if !Fields(info[name]).markedForBuild then
        BatchState(checked + [LogLine(StepTitle, name, count + 1, maximum, SkipMessage)], st.calls)
      else
        var executing := checked + [LogLine(StepTitle, name, count + 1, maximum, ExecuteMessage(stage))];
        match Dispatch(stage, registry, PackageInfo(name), info[name])
        case Failure(error) =>
          BatchState(executing + [LogLine(StepTitle, name, count + 2, maximum, ErrorMessage(error))], st.calls)
        case Success(c) =>
          match run(c)
          case Pass => BatchState(executing, st.calls + [c])
          case Fail(error) =>
            BatchState(executing + [LogLine(StepTitle, name, count + 2, maximum, ErrorMessage(error))], st.calls + [c])
  }

  /** The state after the loop has visited `names` in order. */
  function BatchRun(stage: Stage, registry: set<string>, run: Invocation -> Outcome<string>,
                    info: map<string, Dict>, names: seq<string>, maximum: int): BatchState
    decreases |names|
  {
    if names == [] then BatchState([], [])
    else Visit(stage, registry, run, info, BatchRun(stage, registry, run, info, names[..|names| - 1], maximum), names[|names| - 1], maximum)
  }

  /** `main()` of either script: the loop over every package, with the counter bound it computes. */
  function BatchMain(stage: Stage, registry: set<string>, run: Invocation -> Outcome<string>,
                     info: map<string, Dict>, names: seq<string>): BatchState
  {
    BatchRun(stage, registry, run, info, names, |names| + 1)
  }

  // ---------------------------------------------------------------------------
  // What the loop promises

  /** A record is dispatched when it is marked for build and its task name is registered. */
  predicate Dispatched(stage: Stage, registry: set<string>, r: Dict)
    requires HasShape(r)
  {
    Fields(r).markedForBuild && TaskOf(stage, Fields(r)) in registry
  }

  /** The procedure calls a loop over `names` should make: one per dispatched record, in store order. */
  function ExpectedCalls(stage: Stage, registry: set<string>, info: map<string, Dict>, names: seq<string>): seq<Invocation>
    requires forall n :: n in names ==> n in info && HasShape(info[n])
    decreases |names|
  {
    if names == [] then []
    else
      var name := names[|names| - 1];
      var earlier := ExpectedCalls(stage, registry, info, names[..|names| - 1]);
      if Dispatched(stage, registry, info[name]) then earlier + [Invocation(TaskOf(stage, Fields(info[name])), PackageInfo(name))]
      else earlier
  }

  /** A record on which an exception is caught: dispatch failed, or the procedure raised. */
  predicate Failed(stage: Stage, registry: set<string>, run: Invocation -> Outcome<string>, name: string, r: Dict)
    requires HasShape(r)
  {
    Fields(r).markedForBuild &&
    (TaskOf(stage, Fields(r)) !in registry || run(Invocation(TaskOf(stage, Fields(r)), PackageInfo(name))).Fail?)
  }

  function CountFailed(stage: Stage, registry: set<string>, run: Invocation -> Outcome<string>,
                       info: map<string, Dict>, names: seq<string>): nat
    requires forall n :: n in names ==> n in info && HasShape(info[n])
    decreases |names|
  {
    if names == [] then 0
    else
      var name := names[|names| - 1];
      CountFailed(stage, registry, run, info, names[..|names| - 1]) + (if Failed(stage, registry, run, name, info[name]) then 1 else 0)
  }

  /**
   * One iteration adds the record's call when it is dispatched, and two lines plus one more when an
   * exception is caught.
   */
  lemma VisitSpec(stage: Stage, registry: set<string>, run: Invocation -> Outcome<string>,
                  info: map<string, Dict>, st: BatchState, name: string, maximum: int)
    requires name in info && HasShape(info[name])
    ensures var r := Visit(stage, registry, run, info, st, name, maximum);
            && r.calls == st.calls + (if Dispatched(stage, registry, info[name])
                                      then [Invocation(TaskOf(stage, Fields(info[name])), PackageInfo(name))] else [])
            && |r.lines| == |st.lines| + 2 + (if Failed(stage, registry, run, name, info[name]) then 1 else 0)
  {
    DispatchSpec(stage, registry, PackageInfo(name), info[name]);
  }

  /**
   * The loop calls exactly the dispatched records' procedures, in store order, and logs two lines per
   * package plus one per caught exception; so the counter, which ends at one more than the number of
   * lines, can pass the bound `len + 1` it is printed against.
   */
  lemma {:induction false} BatchRunSpec(stage: Stage, registry: set<string>, run: Invocation -> Outcome<string>,
                                        info: map<string, Dict>, names: seq<string>, maximum: int)
    requires forall n :: n in names ==> n in info && HasShape(info[n])
    ensures BatchRun(stage, registry, run, info, names, maximum).calls == ExpectedCalls(stage, registry, info, names)
    ensures |BatchRun(stage, registry, run, info, names, maximum).lines| == 2 * |names| + CountFailed(stage, registry, run, info, names)
    decreases |names|
  {
    if names != [] {
      var init := names[..|names| - 1];
      var name := names[|names| - 1];
      assert forall n :: n in init ==> n in names;
      BatchRunSpec(stage, registry, run, info, init, maximum);
      VisitSpec(stage, registry, run, info, BatchRun(stage, registry, run, info, init, maximum), name, maximum);
    }
  }

  /**
   * The message of the exception caught on a failed record: the stage's not-found text when dispatch
   * fails, otherwise what the invoked procedure raised.
   */
  function CaughtError(stage: Stage, registry: set<string>, run: Invocation -> Outcome<string>, name: string, r: Dict): string
    requires HasShape(r) && Failed(stage, registry, run, name, r)
  {
    var task := TaskOf(stage, Fields(r));
    if task !in registry then
      if stage == Preparation then PrepareTasks.NotFoundMessage(name) else BuildTasks.NotFoundMessage(name)
    else run(Invocation(task, PackageInfo(name))).error
  }

  /**
   * The lines the loop logs for one package, the first with counter `first`: the check line, then
   * the skip line for an unmarked record or the execute line for a marked one, then, when an
   * exception is caught, the error line carrying its message.
   */
  function PackageLines(stage: Stage, registry: set<string>, run: Invocation -> Outcome<string>,
                        name: string, r: Dict, first: int, maximum: int): seq<string>
    requires HasShape(r)
  {
    [ LogLine(CheckTitle(stage), name, first, maximum, CheckMessage),
      LogLine(StepTitle, name, first + 1, maximum, if Fields(r).markedForBuild then ExecuteMessage(stage) else SkipMessage) ]
    + if Failed(stage, registry, run, name, r)
      then [LogLine(StepTitle, name, first + 2, maximum, ErrorMessage(CaughtError(stage, registry, run, name, r)))]
      else []
  }

  /**
   * The lines a loop over `names` should log: each package's lines, counted on from the ones before;
   * a name with no well-shaped record logs nothing.
   */
  function ExpectedLines(stage: Stage, registry: set<string>, run: Invocation -> Outcome<string>,
                         info: map<string, Dict>, names: seq<string>, maximum: int): seq<string>
    decreases |names|
  {
    if names == [] then []
    else
      var name := names[|names| - 1];
      var earlier := ExpectedLines(stage, registry, run, info, names[..|names| - 1], maximum);
      if name in info && HasShape(info[name])
      then earlier + PackageLines(stage, registry, run, name, info[name], 1 + |earlier|, maximum)
      else earlier
  }

  /** One iteration appends exactly the package's lines, numbered on from the lines before. */
  lemma VisitLines(stage: Stage, registry: set<string>, run: Invocation -> Outcome<string>,
                   info: map<string, Dict>, st: BatchState, name: string, maximum: int)
    requires name in info && HasShape(info[name])
    ensures Visit(stage, registry, run, info, st, name, maximum).lines
         == st.lines + PackageLines(stage, registry, run, name, info[name], 1 + |st.lines|, maximum)
  {
    DispatchSpec(stage, registry, PackageInfo(name), info[name]);
  }

  /** The loop logs exactly the expected lines: per package, in store order, with running counters. */
  lemma {:induction false} BatchRunLines(stage: Stage, registry: set<string>, run: Invocation -> Outcome<string>,
                                         info: map<string, Dict>, names: seq<string>, maximum: int)
    ensures BatchRun(stage, registry, run, info, names, maximum).lines == ExpectedLines(stage, registry, run, info, names, maximum)
    decreases |names|
  {
    if names != [] {
      var name := names[|names| - 1];
      var before := BatchRun(stage, registry, run, info, names[..|names| - 1], maximum);
      BatchRunLines(stage, registry, run, info, names[..|names| - 1], maximum);
      assert BatchRun(stage, registry, run, info, names, maximum) == Visit(stage, registry, run, info, before, name, maximum);
      if name in info && HasShape(info[name]) {
        VisitLines(stage, registry, run, info, before, name, maximum);
      }
    }
  }

  /** A record not marked for build is never handed to a procedure, whatever the registry and the procedures do. */
  lemma {:induction false} UnmarkedNeverCalled(stage: Stage, registry: set<string>, run: Invocation -> Outcome<string>,
                                               info: map<string, Dict>, names: seq<string>, maximum: int)
    requires forall n :: n in names ==> n in info && HasShape(info[n])
    ensures forall c :: c in BatchRun(stage, registry, run, info, names, maximum).calls ==>
              && c.package.name in names
              && Fields(info[c.package.name]).markedForBuild
              && c.procedure == TaskOf(stage, Fields(info[c.package.name])) && c.procedure in registry
    decreases |names|
  {
    BatchRunSpec(stage, registry, run, info, names, maximum);
    ExpectedCallsDispatched(stage, registry, info, names);
  }

  lemma {:induction false} ExpectedCallsDispatched(stage: Stage, registry: set<string>, info: map<string, Dict>, names: seq<string>)
    requires forall n :: n in names ==> n in info && HasShape(info[n])
    ensures forall c :: c in ExpectedCalls(stage, registry, info, names) ==>
              && c.package.name in names
              && Dispatched(stage, registry, info[c.package.name])
              && c.procedure == TaskOf(stage, Fields(info[c.package.name]))
    decreases |names|
  {
    if names != [] {
      var init := names[..|names| - 1];
      assert forall n :: n in init ==> n in names;
      ExpectedCallsDispatched(stage, registry, info, init);
    }
  }

  // ---------------------------------------------------------------------------
  // The scripts' loop against the database

  /** The loop over one more name is one more iteration. */
  lemma BatchRunExtends(stage: Stage, registry: set<string>, run: Invocation -> Outcome<string>,
                        info: map<string, Dict>, names: seq<string>, i: nat, maximum: int)
    requires i < |names|
    ensures BatchRun(stage, registry, run, info, names[..i + 1], maximum)
         == Visit(stage, registry, run, info, BatchRun(stage, registry, run, info, names[..i], maximum), names[i], maximum)
  {
    assert names[..i + 1][..i] == names[..i];
  }

  /**
   * One iteration for a package of the store: the lines logged and the calls made are those
   * `Visit` gives.
   */
  method VisitPackage(db: Database, stage: Stage, registry: set<string>, run: Invocation -> Outcome<string>,
                      p: PackageInfo, maximum: int, lines: seq<string>, count: int, calls: seq<Invocation>)
    returns (lines': seq<string>, count': int, calls': seq<Invocation>)
    requires p.name in db.packageInfo && HasShape(db.packageInfo[p.name]) && count == 1 + |lines|
    ensures count' == 1 + |lines'|
    ensures Visit(stage, registry, run, db.packageInfo, BatchState(lines, calls), p.name, maximum) == BatchState(lines', calls')
  {
    calls' := calls;
    lines', count' := Emit(CheckTitle(stage), p.name, count, maximum, CheckMessage, lines);
    if !Fields(db.Record(p)).markedForBuild {
      lines', count' := Emit(StepTitle, p.name, count', maximum, SkipMessage, lines');
      return;
    }
    lines', count' := Emit(StepTitle, p.name, count', maximum, ExecuteMessage(stage), lines');
    var dispatched := Dispatch(stage, registry, p, db.Record(p));
    var error: Option<string> := None;
    if dispatched.Failure? {
      error := Some(dispatched.error);
    } else {
      calls' := calls' + [dispatched.value];
      var outcome := run(dispatched.value);
      if outcome.Fail? {
        error := Some(outcome.error);
      }
    }
    if error.Some? {
      lines', count' := Emit(StepTitle, p.name, count', maximum, ErrorMessage(error.value), lines');
    }
  }

  /**
   * `main()` of `prepare_packages.py` (stage `Preparation`) or `build_packages.py` (stage `Building`).
   * The method has no `modifies` clause: the store is never written, so a second run over the same
   * store makes the same calls.
   */
  method RunBatch(db: Database, stage: Stage, registry: set<string>, run: Invocation -> Outcome<string>)
    returns (lines: seq<string>, calls: seq<Invocation>)
    requires db.Valid() && db.WellFormed()
    ensures BatchMain(stage, registry, run, db.packageInfo, db.packages) == BatchState(lines, calls)
  {
    var all := db.GetAllPackages();
    ghost var names := db.packages;
    var maximum := |all| + 1;
    var count := 1;
    lines, calls := [], [];
    for i := 0 to |all|
      invariant count == 1 + |lines|
      invariant BatchRun(stage, registry, run, db.packageInfo, names[..i], maximum) == BatchState(lines, calls)
    {
      BatchRunExtends(stage, registry, run, db.packageInfo, names, i, maximum);
      lines, count, calls := VisitPackage(db, stage, registry, run, all[i], maximum, lines, count, calls);
    }
    assert names[..|all|] == names;
  }
}
