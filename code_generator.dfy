/**
 * The code generator of the architect pipeline: a fixed plan of four or
 * five files chosen from the project spec, then each file streamed line by
 * line, with a cooperative cancel flag polled before every file and every
 * line.
 *
 * The template bodies are opaque: `render` stands for the five template
 * generators. The 50 ms delay after every line is the only point where the
 * outside world runs; the model lets a cancel request land there, as chosen
 * by the environment's schedule (`CancelSchedule`). Events go to an
 * appended log, each carrying a snapshot of the file at the moment it fired.
 */
module CodeGenerator {
  import opened Text
  import opened Clarification

  datatype FileStatus = Pending | Streaming | Complete

  datatype GeneratedFile = GeneratedFile(
    path: string,
    content: string,
    isNew: bool,
    status: FileStatus,
    streamedLines: nat)

  datatype StreamingUpdate = StreamingUpdate(filePath: string, currentLine: nat, totalLines: nat, lineContent: string)

  datatype GenEvent =
    | FileStreamStart(file: GeneratedFile)
    | FileStreamUpdate(update: StreamingUpdate)
    | FileStreamComplete(file: GeneratedFile)
    | GenerationComplete(files: seq<GeneratedFile>)

  /** The five template generators, whose bodies are not modelled. */
  datatype Template = MainFile | CoreModule | TypesFile | ConfigFile | TestFile

  type Render = (Template, ProjectSpec) -> string

  // ---------------------------------------------------------------------
  // Planning
  // ---------------------------------------------------------------------

  /** getModuleName: a keyword of the raw description picks the module name. */
  function ModuleName(description: string): (m: string)
    ensures m == "searcher" <==> Contains(description, "搜索") || Contains(description, "search")
    ensures m == "todoManager" <==>
              !(Contains(description, "搜索") || Contains(description, "search"))
              && (Contains(description, "TODO") || Contains(description, "todo"))
    ensures m == "searcher" || m == "todoManager" || m == "core"
  {
    if Contains(description, "搜索") || Contains(description, "search") then "searcher"
    else if Contains(description, "TODO") || Contains(description, "todo") then "todoManager"
    else "core"
  }

  function Planned(path: string, content: string): GeneratedFile {
    GeneratedFile(path, content, true, Pending, 0)
  }

  /** planFiles: entry, core module, types, config only when asked for, tests. */
  function PlanFiles(spec: ProjectSpec, render: Render): (plan: seq<GeneratedFile>)
    ensures |plan| == if "config" in spec.features then 5 else 4
    ensures forall i :: 0 <= i < |plan| ==>
              plan[i].isNew && plan[i].status == Pending && plan[i].streamedLines == 0
    ensures plan[0].path == "src/index.ts" && plan[0].content == render(MainFile, spec)
    ensures plan[1].path == "src/core/" + ModuleName(spec.description) + ".ts" && plan[1].content == render(CoreModule, spec)
    ensures plan[2].path == "src/types/index.ts" && plan[2].content == render(TypesFile, spec)
    ensures "config" in spec.features ==> plan[3].path == "src/config.ts" && plan[3].content == render(ConfigFile, spec)
    ensures plan[|plan| - 1].path == "tests/" + ModuleName(spec.description) + ".test.ts"
    ensures plan[|plan| - 1].content == render(TestFile, spec)
  {
    var m := ModuleName(spec.description);
    [Planned("src/index.ts", render(MainFile, spec)),
     Planned("src/core/" + m + ".ts", render(CoreModule, spec)),
     Planned("src/types/index.ts", render(TypesFile, spec))]
    + (if "config" in spec.features then [Planned("src/config.ts", render(ConfigFile, spec))] else [])
    + [Planned("tests/" + m + ".test.ts", render(TestFile, spec))]
  }

  /** No two planned files share a path. */
  lemma PlanPathsDistinct(spec: ProjectSpec, render: Render, i: nat, j: nat)
    requires i < j < |PlanFiles(spec, render)|
    ensures PlanFiles(spec, render)[i].path != PlanFiles(spec, render)[j].path
  {
    var plan := PlanFiles(spec, render);
    var m := ModuleName(spec.description);
    var paths := [plan[0].path, plan[1].path, plan[2].path];
    assert plan[0].path[4] == 'i';
    assert plan[1].path[..9] == "src/core/";
    assert plan[2].path[4] == 't';
    assert plan[|plan| - 1].path[0] == 't';
    if "config" in spec.features {
      assert plan[3].path[..6] == "src/co" && plan[3].path[6] == 'n';
    }
  }

  // ---------------------------------------------------------------------
  // Streaming, as values
  // ---------------------------------------------------------------------

  function Lines(content: string): (ls: seq<string>)
    ensures |ls| >= 1
  {
    Split(content, '\n')
  }

  /** `content.split('\n').length`. */
  function LineCount(content: string): (n: nat)
    ensures n >= 1
  {
    |Lines(content)|
  }

  /**
   * When the cancel request lands: `Some(k)` means during the delay that
   * follows the k-th line still to be streamed (counting from 1); `Some(0)`
   * means it has already landed; `None`, not during this run.
   */
  type CancelSchedule = Option<nat>

  /** The lines of a file of `n` lines streamed before the cancel takes effect. */
  function Streamed(n: nat, left: CancelSchedule): (s: nat)
    ensures s <= n
    ensures left.None? ==> s == n
    ensures left.Some? ==> s <= left.value
  {
    match left
    case None => n
    case Some(k) => if k < n then k else n
  }

  /** The schedule after `s` more delays. */
  function After(left: CancelSchedule, s: nat): CancelSchedule
    requires left.Some? ==> s <= left.value
  {
    match left
    case None => None
    case Some(k) => Some(k - s)
  }

  /** The file as generation leaves it: complete, with the lines it got. */
  function Finished(f: GeneratedFile, left: CancelSchedule): GeneratedFile {
    f.(status := Complete, streamedLines := Streamed(LineCount(f.content), left))
  }

  /** The files startGeneration reaches, from a plan and a cancel schedule. */
  function Run(plan: seq<GeneratedFile>, left: CancelSchedule): (files: seq<GeneratedFile>)
    ensures |files| <= |plan|
    decreases |plan|
  {
    if plan == [] || left == Some(0) then []
    else
      var s := Streamed(LineCount(plan[0].content), left);
      [Finished(plan[0], left)] + Run(plan[1..], After(left, s))
  }

  /** The progress events of one file's first `s` lines. */
  function Updates(f: GeneratedFile, s: nat): (evs: seq<GenEvent>)
    requires s <= LineCount(f.content)
    ensures |evs| == s
  {
    var lines := Lines(f.content);
    seq(s, i requires 0 <= i < s => FileStreamUpdate(StreamingUpdate(f.path, i + 1, |lines|, lines[i])))
  }

  /** The events of one file: start, its progress, complete. */
  function FileEvents(f: GeneratedFile, left: CancelSchedule): seq<GenEvent> {
    var s := Streamed(LineCount(f.content), left);
    [FileStreamStart(f.(status := Streaming))] + Updates(f, s) + [FileStreamComplete(Finished(f, left))]
  }

  /** The events of a run, before generation-complete. */
  function RunEvents(plan: seq<GeneratedFile>, left: CancelSchedule): seq<GenEvent>
    decreases |plan|
  {
    if plan == [] || left == Some(0) then []
    else
      var s := Streamed(LineCount(plan[0].content), left);
      FileEvents(plan[0], left) + RunEvents(plan[1..], After(left, s))
  }

  /** The schedule left once the run is over. */
  function RunLeft(plan: seq<GeneratedFile>, left: CancelSchedule): CancelSchedule
    decreases |plan|
  {
    if plan == [] || left == Some(0) then left
    else
      var s := Streamed(LineCount(plan[0].content), left);
      RunLeft(plan[1..], After(left, s))
  }

  /** The schedule a run starts from: a cancel during the delay after overall line k + 1. */
  function Budget(cancelAt: Option<nat>): CancelSchedule {
    match cancelAt
    case None => None
    case Some(k) => Some(k + 1)
  }

  // ---------------------------------------------------------------------
  // Properties of a run
  // ---------------------------------------------------------------------

  function TotalLines(plan: seq<GeneratedFile>): nat
    decreases |plan|
  {
    if plan == [] then 0 else LineCount(plan[0].content) + TotalLines(plan[1..])
  }

  function TotalStreamed(files: seq<GeneratedFile>): nat
    decreases |files|
  {
    if files == [] then 0 else files[0].streamedLines + TotalStreamed(files[1..])
  }

  /**
   * What generation reaches is a prefix of the plan: same paths, contents
   * and flags, every file complete, with at most its own number of lines.
   */
  lemma {:induction false} RunIsPrefix(plan: seq<GeneratedFile>, left: CancelSchedule)
    ensures var files := Run(plan, left);
      forall i :: 0 <= i < |files| ==>
        && files[i].path == plan[i].path
        && files[i].content == plan[i].content
        && files[i].isNew == plan[i].isNew
        && files[i].status == Complete
        && files[i].streamedLines <= LineCount(plan[i].content)
    decreases |plan|
  {
    if plan != [] && left != Some(0) {
      var s := Streamed(LineCount(plan[0].content), left);
      RunIsPrefix(plan[1..], After(left, s));
    }
  }

  /** Without a cancel every planned file is generated, with all its lines. */
  lemma {:induction false} RunUncancelled(plan: seq<GeneratedFile>)
    ensures |Run(plan, None)| == |plan|
    ensures forall i :: 0 <= i < |plan| ==> Run(plan, None)[i] == Finished(plan[i], None)
    ensures forall i :: 0 <= i < |plan| ==> Run(plan, None)[i].streamedLines == LineCount(plan[i].content)
    decreases |plan|
  {
    if plan != [] {
      RunUncancelled(plan[1..]);
    }
  }

  /** Only the last file reached can have been cut short. */
  lemma {:induction false} OnlyLastCut(plan: seq<GeneratedFile>, left: CancelSchedule)
    ensures var files := Run(plan, left);
      forall i :: 0 <= i < |files| - 1 ==> files[i].streamedLines == LineCount(plan[i].content)
    decreases |plan|
  {
    if plan != [] && left != Some(0) {
      var s := Streamed(LineCount(plan[0].content), left);
      OnlyLastCut(plan[1..], After(left, s));
    }
  }

  /**
   * The cancel cuts the stream after exactly the scheduled number of lines:
   * the lines streamed over the whole run are the scheduled count, or all
   * the plan's lines if the run ends first.
   */
  lemma {:induction false} StreamedTotal(plan: seq<GeneratedFile>, left: CancelSchedule)
    ensures TotalStreamed(Run(plan, left)) == Streamed(TotalLines(plan), left)
    decreases |plan|
  {
    if plan == [] {
    } else if left == Some(0) {
    } else {
      var n := LineCount(plan[0].content);
      var s := Streamed(n, left);
      StreamedTotal(plan[1..], After(left, s));
      var files := Run(plan, left);
      assert files[1..] == Run(plan[1..], After(left, s));
    }
  }

  /** The cancel flag is up at the end exactly when the cancel landed within the run. */
  lemma {:induction false} RunLeftLanded(plan: seq<GeneratedFile>, left: CancelSchedule)
    ensures (RunLeft(plan, left) == Some(0)) <==> (left.Some? && left.value <= TotalLines(plan))
    decreases |plan|
  {
    if plan != [] && left != Some(0) {
      var s := Streamed(LineCount(plan[0].content), left);
      RunLeftLanded(plan[1..], After(left, s));
    }
  }

  /** Progress events of a file count its lines 1, 2, ... up to at most its total. */
  lemma UpdatesIncreasing(f: GeneratedFile, s: nat, i: nat, j: nat)
    requires s <= LineCount(f.content)
    requires i < j < s
    ensures var ui, uj := Updates(f, s)[i].update, Updates(f, s)[j].update;
      && 1 <= ui.currentLine < uj.currentLine <= ui.totalLines == LineCount(f.content)
      && ui.filePath == f.path
  {
  }

  /**
   * Every file a run reaches streams at least one line: the cancel flag is
   * read before a file starts, and nothing waits between its start and its
   * first line.
   */
  lemma {:induction false} RunStarted(plan: seq<GeneratedFile>, left: CancelSchedule)
    ensures forall i :: 0 <= i < |Run(plan, left)| ==> Run(plan, left)[i].streamedLines >= 1
    decreases |plan|
  {
    if plan != [] && left != Some(0) {
      var s := Streamed(LineCount(plan[0].content), left);
      RunStarted(plan[1..], After(left, s));
    }
  }

  /** The number of progress events in an event list. */
  function ProgressCount(evs: seq<GenEvent>): (n: nat)
    ensures n <= |evs|
    decreases |evs|
  {
    if evs == [] then 0 else (if evs[0].FileStreamUpdate? then 1 else 0) + ProgressCount(evs[1..])
  }

  lemma {:induction false} ProgressCountAppend(a: seq<GenEvent>, b: seq<GenEvent>)
    ensures ProgressCount(a + b) == ProgressCount(a) + ProgressCount(b)
    decreases |a|
  {
    if a == [] {
      assert a + b == b;
    } else {
      assert (a + b)[1..] == a[1..] + b;
      ProgressCountAppend(a[1..], b);
    }
  }

  lemma {:induction false} ProgressCountAll(evs: seq<GenEvent>)
    requires forall i :: 0 <= i < |evs| ==> evs[i].FileStreamUpdate?
    ensures ProgressCount(evs) == |evs|
    decreases |evs|
  {
    if evs != [] {
      ProgressCountAll(evs[1..]);
    }
  }

  /** One file's events hold one progress event per streamed line. */
  lemma FileProgress(f: GeneratedFile, left: CancelSchedule)
    ensures ProgressCount(FileEvents(f, left)) == Finished(f, left).streamedLines
  {
    var s := Streamed(LineCount(f.content), left);
    var start, u, done := [FileStreamStart(f.(status := Streaming))], Updates(f, s), [FileStreamComplete(Finished(f, left))];
    ProgressCountAll(u);
    ProgressCountAppend(start, u);
    ProgressCountAppend(start + u, done);
  }

  /**
   * A run fires exactly one progress event per streamed line, so no progress
   * is reported after the cancel lands: the count is the scheduled number of
   * lines, or all of the plan's lines when the run ends first.
   */
  lemma {:induction false} RunProgress(plan: seq<GeneratedFile>, left: CancelSchedule)
    ensures ProgressCount(RunEvents(plan, left)) == TotalStreamed(Run(plan, left))
    ensures ProgressCount(RunEvents(plan, left)) == Streamed(TotalLines(plan), left)
    decreases |plan|
  {
    StreamedTotal(plan, left);
    if plan != [] && left != Some(0) {
      var s := Streamed(LineCount(plan[0].content), left);
      RunProgress(plan[1..], After(left, s));
      FileProgress(plan[0], left);
      ProgressCountAppend(FileEvents(plan[0], left), RunEvents(plan[1..], After(left, s)));
      assert Run(plan, left)[1..] == Run(plan[1..], After(left, s));
    }
  }

  /** The paths of the start events in an event list, in order. */
  function Starts(evs: seq<GenEvent>): (paths: seq<string>)
    decreases |evs|
  {
    if evs == [] then [] else (if evs[0].FileStreamStart? then [evs[0].file.path] else []) + Starts(evs[1..])
  }

  lemma {:induction false} StartsAppend(a: seq<GenEvent>, b: seq<GenEvent>)
    ensures Starts(a + b) == Starts(a) + Starts(b)
    decreases |a|
  {
    if a == [] {
      assert a + b == b;
    } else {
      assert (a + b)[1..] == a[1..] + b;
      StartsAppend(a[1..], b);
    }
  }

  lemma {:induction false} StartsNone(evs: seq<GenEvent>)
    requires forall i :: 0 <= i < |evs| ==> evs[i].FileStreamUpdate?
    ensures Starts(evs) == []
    decreases |evs|
  {
    if evs != [] {
      StartsNone(evs[1..]);
    }
  }

  function Paths(files: seq<GeneratedFile>): (paths: seq<string>)
    ensures |paths| == |files| && forall i :: 0 <= i < |files| ==> paths[i] == files[i].path
  {
    seq(|files|, i requires 0 <= i < |files| => files[i].path)
  }

  /** Files start in plan order, one start event per file the run reaches. */
  lemma {:induction false} RunStartsInOrder(plan: seq<GeneratedFile>, left: CancelSchedule)
    ensures Starts(RunEvents(plan, left)) == Paths(Run(plan, left))
    decreases |plan|
  {
    if plan != [] && left != Some(0) {
      var f := plan[0];
      var s := Streamed(LineCount(f.content), left);
      RunStartsInOrder(plan[1..], After(left, s));
      FileStarts(f, left);
      StartsAppend(FileEvents(f, left), RunEvents(plan[1..], After(left, s)));
      var files := Run(plan, left);
      assert files[1..] == Run(plan[1..], After(left, s));
      PathsCons(files);
    }
  }

  lemma PathsCons(files: seq<GeneratedFile>)
    requires files != []
    ensures Paths(files) == [files[0].path] + Paths(files[1..])
  {
    assert forall i :: 1 <= i < |files| ==> Paths(files)[i] == Paths(files[1..])[i - 1];
  }

  /** One file's events hold its own start and no other. */
  lemma FileStarts(f: GeneratedFile, left: CancelSchedule)
    ensures Starts(FileEvents(f, left)) == [f.path]
  {
    var s := Streamed(LineCount(f.content), left);
    var start, u, done := [FileStreamStart(f.(status := Streaming))], Updates(f, s), [FileStreamComplete(Finished(f, left))];
    StartsNone(u);
    StartsAppend(start, u);
    StartsAppend(start + u, done);
  }

  /**
   * Events are well nested: a file starts only when no file is streaming,
   * each progress event names the file streaming, and that file's complete
   * event ends it. `current` is the path of the file streaming, if any.
   */
  predicate Nested(evs: seq<GenEvent>, current: Option<string>)
    decreases |evs|
  {
    if evs == [] then current.None?
    else
      var rest := evs[1..];
      match evs[0]
      case FileStreamStart(f) => current.None? && Nested(rest, Some(f.path))
      case FileStreamUpdate(u) => current == Some(u.filePath) && Nested(rest, current)
      case FileStreamComplete(f) => current == Some(f.path) && Nested(rest, None)
      case GenerationComplete(_) => current.None? && Nested(rest, None)
  }

  lemma {:induction false} NestedUpdates(u: seq<GenEvent>, path: string, rest: seq<GenEvent>)
    requires forall i :: 0 <= i < |u| ==> u[i].FileStreamUpdate? && u[i].update.filePath == path
    requires Nested(rest, Some(path))
    ensures Nested(u + rest, Some(path))
    decreases |u|
  {
    if u == [] {
      assert u + rest == rest;
    } else {
      assert (u + rest)[1..] == u[1..] + rest;
      NestedUpdates(u[1..], path, rest);
    }
  }

  lemma FileNested(f: GeneratedFile, left: CancelSchedule, rest: seq<GenEvent>)
    requires Nested(rest, None)
    ensures Nested(FileEvents(f, left) + rest, None)
  {
    var s := Streamed(LineCount(f.content), left);
    var start, u, done := FileStreamStart(f.(status := Streaming)), Updates(f, s), FileStreamComplete(Finished(f, left));
    assert Nested([done] + rest, Some(f.path)) by {
      assert ([done] + rest)[1..] == rest;
    }
    NestedUpdates(u, f.path, [done] + rest);
    assert FileEvents(f, left) + rest == [start] + (u + ([done] + rest));
  }

  /** Every run's events are well nested. */
  lemma {:induction false} RunNested(plan: seq<GeneratedFile>, left: CancelSchedule)
    ensures Nested(RunEvents(plan, left), None)
    decreases |plan|
  {
    if plan != [] && left != Some(0) {
      var s := Streamed(LineCount(plan[0].content), left);
      RunNested(plan[1..], After(left, s));
      FileNested(plan[0], left, RunEvents(plan[1..], After(left, s)));
    }
  }

  // ---------------------------------------------------------------------
  // The service
  // ---------------------------------------------------------------------

  class Generator {
    var generatedFiles: seq<GeneratedFile>
    var isGenerating: bool
    var cancelRequested: bool
    var events: seq<GenEvent>

    constructor ()
      ensures generatedFiles == [] && !isGenerating && !cancelRequested && events == []
    {
      generatedFiles, isGenerating, cancelRequested, events := [], false, false, [];
    }

    /** cancelGeneration: only raises the flag. */
    method CancelGeneration()
      modifies this
      ensures cancelRequested
      ensures generatedFiles == old(generatedFiles) && isGenerating == old(isGenerating) && events == old(events)
    {
      cancelRequested := true;
    }

    /** getGeneratedFiles. */
    function GetGeneratedFiles(): (r: seq<GeneratedFile>)
      reads this
      ensures r == generatedFiles
    {
      generatedFiles
    }

    /** The 50 ms delay: the point where a scheduled cancel lands. */
    method Delay(left: CancelSchedule) returns (left': CancelSchedule)
      requires left != Some(0)
      modifies this
      ensures left' == After(left, 1)
      ensures cancelRequested == (old(cancelRequested) || left' == Some(0))
      ensures generatedFiles == old(generatedFiles) && isGenerating == old(isGenerating) && events == old(events)
    {
      left' := After(left, 1);
      if left' == Some(0) {
        cancelRequested := true;
      }
    }

    /** streamFile on the file at `idx`: one progress step per line until cancelled. */
    method StreamFile(idx: nat, left: CancelSchedule) returns (left': CancelSchedule)
      requires idx < |generatedFiles|
      requires cancelRequested == (left == Some(0))
      modifies this
      ensures var f := old(generatedFiles[idx]);
        var s := Streamed(LineCount(f.content), left);
        && left' == After(left, s)
        && cancelRequested == (left' == Some(0))
        && generatedFiles == (if s == 0 then old(generatedFiles) else old(generatedFiles)[idx := f.(streamedLines := s)])
        && events == old(events) + Updates(f, s)
      ensures isGenerating == old(isGenerating)
    {
      var f := generatedFiles[idx];
      var lines := Lines(generatedFiles[idx].content);
      var total := |lines|;
      ghost var s := Streamed(total, left);
      left' := left;
      var i := 0;
      while i < total
        invariant 0 <= i <= s
        invariant left.Some? ==> i <= left.value
        invariant left' == After(left, i)
        invariant cancelRequested == (left' == Some(0))
        invariant |generatedFiles| == |old(generatedFiles)|
        invariant generatedFiles == (if i == 0 then old(generatedFiles) else old(generatedFiles)[idx := f.(streamedLines := i)])
        invariant events == old(events) + Updates(f, i)
        invariant isGenerating == old(isGenerating)
      {
        if cancelRequested {
          break;
        }
        generatedFiles := generatedFiles[idx := generatedFiles[idx].(streamedLines := i + 1)];
        events := events + [FileStreamUpdate(StreamingUpdate(f.path, i + 1, total, lines[i]))];
        assert Updates(f, i + 1) == Updates(f, i) + [FileStreamUpdate(StreamingUpdate(f.path, i + 1, total, lines[i]))];
        left' := Delay(left');
        i := i + 1;
      }
      assert i == s;
    }

    /**
     * startGeneration: a no-op while a run is in progress; otherwise a fresh
     * run over the plan, under the given cancel schedule, ending with
     * generation-complete.
     */
    method StartGeneration(spec: ProjectSpec, render: Render, cancelAt: Option<nat>)
      modifies this
      ensures old(isGenerating) ==>
        && generatedFiles == old(generatedFiles) && isGenerating && cancelRequested == old(cancelRequested)
        && events == old(events)
      ensures !old(isGenerating) ==>
        var plan, left := PlanFiles(spec, render), Budget(cancelAt);
        && generatedFiles == Run(plan, left)
        && events == old(events) + RunEvents(plan, left) + [GenerationComplete(generatedFiles)]
        && !isGenerating
        && cancelRequested == (RunLeft(plan, left) == Some(0))
    {
      if isGenerating {
        return;
      }
      isGenerating := true;
      cancelRequested := false;
      generatedFiles := [];
      var plan := PlanFiles(spec, render);
      StreamPlan(plan, Budget(cancelAt));
      isGenerating := false;
      events := events + [GenerationComplete(generatedFiles)];
    }

    /** One pass of startGeneration's loop: announce the file, stream it, mark it complete. */
    method StreamOne(file: GeneratedFile, left: CancelSchedule) returns (left': CancelSchedule)
      requires !cancelRequested && left != Some(0)
      modifies this
      ensures var s := Streamed(LineCount(file.content), left);
        && left' == After(left, s)
        && cancelRequested == (left' == Some(0))
        && generatedFiles == old(generatedFiles) + [Finished(file, left)]
        && events == old(events) + FileEvents(file, left)
      ensures isGenerating == old(isGenerating)
    {
      ghost var s := Streamed(LineCount(file.content), left);
      assert s > 0;
      var streaming := file.(status := Streaming);
      ghost var before := generatedFiles;
      generatedFiles := generatedFiles + [streaming];
      events := events + [FileStreamStart(streaming)];
      var k := |generatedFiles| - 1;
      left' := StreamFile(k, left);
      SetLast(before, streaming, streaming.(streamedLines := s));
      generatedFiles := generatedFiles[k := generatedFiles[k].(status := Complete)];
      SetLast(before, streaming.(streamedLines := s), Finished(file, left));
      events := events + [FileStreamComplete(generatedFiles[k])];
      AppendAssoc(old(events), [FileStreamStart(streaming)], Updates(file, s));
    }

    /** The loop of startGeneration over the planned files, polling the cancel flag before each. */
    method StreamPlan(plan: seq<GeneratedFile>, left0: CancelSchedule)
      requires generatedFiles == [] && isGenerating
      requires cancelRequested == (left0 == Some(0))
      modifies this
      ensures generatedFiles == Run(plan, left0)
      ensures events == old(events) + RunEvents(plan, left0)
      ensures cancelRequested == (RunLeft(plan, left0) == Some(0))
      ensures isGenerating
    {
      var left := left0;
      var k := 0;
      assert plan[k..] == plan;
      while k < |plan|
        invariant 0 <= k <= |plan|
        invariant isGenerating
        invariant cancelRequested == (left == Some(0))
        invariant |generatedFiles| == k
        invariant generatedFiles + Run(plan[k..], left) == Run(plan, left0)
        invariant events + RunEvents(plan[k..], left) == old(events) + RunEvents(plan, left0)
        invariant RunLeft(plan[k..], left) == RunLeft(plan, left0)
      {
        if cancelRequested {
          break;
        }
        ghost var done, emitted, before := generatedFiles, events, left;
        left := StreamOne(plan[k], left);
        StepRun(done, plan, k, before);
        StepEvents(emitted, plan, k, before);
        k := k + 1;
      }
      assert Run(plan[k..], left) == [] && RunEvents(plan[k..], left) == [] by {
        if k == |plan| {
          assert plan[k..] == [];
        }
      }
      assert generatedFiles == generatedFiles + [];
      assert events == events + [];
    }
  }

  lemma SetLast<T>(xs: seq<T>, x: T, y: T)
    ensures (xs + [x])[|xs| := y] == xs + [y]
  {
  }

  /** One file's step of the loop, on the files list. */
  lemma StepRun(done: seq<GeneratedFile>, plan: seq<GeneratedFile>, k: nat, left: CancelSchedule)
    requires k < |plan| && left != Some(0)
    ensures var s := Streamed(LineCount(plan[k].content), left);
      (done + [Finished(plan[k], left)]) + Run(plan[k + 1..], After(left, s)) == done + Run(plan[k..], left)
  {
    assert plan[k..][1..] == plan[k + 1..];
  }

  /** One file's step of the loop, on the event log and the schedule. */
  lemma StepEvents(emitted: seq<GenEvent>, plan: seq<GeneratedFile>, k: nat, left: CancelSchedule)
    requires k < |plan| && left != Some(0)
    ensures var f, s := plan[k], Streamed(LineCount(plan[k].content), left);
      && (emitted + FileEvents(f, left)) + RunEvents(plan[k + 1..], After(left, s)) == emitted + RunEvents(plan[k..], left)
      && RunLeft(plan[k..], left) == RunLeft(plan[k + 1..], After(left, s))
  {
    assert plan[k..][1..] == plan[k + 1..];
  }
}
