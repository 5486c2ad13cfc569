/**
 * The architect view's orchestration, without its markup: resuming a run
 * from the spec persisted before the window reloaded, persisting a confirmed
 * spec, starting generation, turning the generated files into approved and
 * applied ledger entries, the apply-all button, and entering game mode.
 *
 * The services are the other modules' classes. The view's environment is
 * passed in: the workspace folders of the moment, the folder the dialog
 * returned, the JSON parser and serializer, the templates, when a cancel
 * lands, and which file writes fail. What the view does to the host (open
 * a window on a folder, open the game pane) is recorded in `effects`.
 */
module ArchitectView {
  import opened Text
  import opened ChangeLedger
  import CG = CodeGenerator
  import C = Clarification
  import GP = GamePane
  import GN = GameNodes

  datatype Phase = InputPhase | ClarificationPhase | GeneratingPhase | ReviewPhase | GamePhase

  /** The storage key under which a confirmed spec waits for the reload. */
  const PendingSpecKey := "architect.pendingSpec"

  datatype HostEffect =
    | OpenWindow(folder: string)
    | OpenGame(description: string, nodes: seq<GP.GameNode>)

  // ---------------------------------------------------------------------
  // onGenerationComplete, as values
  // ---------------------------------------------------------------------

  /** The change onGenerationComplete hands to addChange for a generated file. */
  function DraftFor(file: CG.GeneratedFile): (d: ChangeDraft)
    ensures d.filePath == file.path && d.newContent == file.content
    ensures d.changeType == (if file.isNew then New else Modified)
    ensures d.originalContent == None && d.removedLines == 0
    ensures d.addedLines == CG.LineCount(file.content) >= 1
  {
    ChangeDraft(file.path, GN.BaseName(file.path, file.path), if file.isNew then New else Modified, None,
                file.content, CG.LineCount(file.content), 0, if file.isNew then "新建文件" else "修改文件")
  }

  /**
   * The entry's display name is the path's text after its last `/`, or the
   * whole path when that text is empty.
   */
  lemma DraftForFileName(file: CG.GeneratedFile)
    ensures var d := DraftFor(file);
      && (file.path == "" || file.path[|file.path| - 1] == '/' ==> d.fileName == file.path)
      && (file.path != "" && file.path[|file.path| - 1] != '/' ==>
            d.fileName != "" && IsLastPiece(file.path, '/', d.fileName))
  {
    if file.path != "" && file.path[|file.path| - 1] != '/' {
      GN.BaseNameLastPiece(file.path, file.path);
    }
  }

  /** The ledger after the first `n` files were added and approved: `change-k` for the k-th file. */
  function Loaded(files: seq<CG.GeneratedFile>, n: nat): (cs: seq<FileChange>)
    requires n <= |files|
    ensures |cs| == n
  {
    seq(n, k requires 0 <= k < n => FromDraft(DraftFor(files[k]), ChangeId(k + 1), Approved))
  }

  /** The list events of adding and approving the first `n` files: two per file. */
  function LoadEvents(files: seq<CG.GeneratedFile>, n: nat): (es: seq<LedgerEvent>)
    requires n <= |files|
    ensures |es| == 2 * n
  {
    if n == 0 then []
    else
      LoadEvents(files, n - 1)
      + [ChangesUpdated(Loaded(files, n - 1) + [FromDraft(DraftFor(files[n - 1]), ChangeId(n), Pending)]),
         ChangesUpdated(Loaded(files, n))]
  }

  /** One pass of onGenerationComplete's loop: the added change is found by its id and approved. */
  lemma LoadStep(files: seq<CG.GeneratedFile>, i: nat, added: seq<FileChange>)
    requires i < |files|
    requires added == Loaded(files, i) + [FromDraft(DraftFor(files[i]), ChangeId(i + 1), Pending)]
    ensures SetStatusIfPending(added, ChangeId(i + 1), Approved) == (Loaded(files, i + 1), true)
  {
    AddedNumbered(files, i, added);
    FindNumbered(added, i + 1);
    AddedApproved(files, i, added);
  }

  lemma AddedNumbered(files: seq<CG.GeneratedFile>, i: nat, added: seq<FileChange>)
    requires i < |files|
    requires added == Loaded(files, i) + [FromDraft(DraftFor(files[i]), ChangeId(i + 1), Pending)]
    ensures NumberedIds(added)
  {
    assert forall k :: 0 <= k < i ==> added[k] == Loaded(files, i)[k];
  }

  lemma AddedApproved(files: seq<CG.GeneratedFile>, i: nat, added: seq<FileChange>)
    requires i < |files|
    requires added == Loaded(files, i) + [FromDraft(DraftFor(files[i]), ChangeId(i + 1), Pending)]
    ensures added[i := added[i].(status := Approved)] == Loaded(files, i + 1)
  {
    var r := added[i := added[i].(status := Approved)];
    assert forall k :: 0 <= k < i ==> r[k] == Loaded(files, i)[k];
  }

  /** The events of one more loaded file extend the log by that file's two events. */
  lemma EventsSplit(log: seq<LedgerEvent>, files: seq<CG.GeneratedFile>, i: nat)
    requires i < |files|
    ensures log + LoadEvents(files, i + 1) == log + LoadEvents(files, i)
      + [ChangesUpdated(Loaded(files, i) + [FromDraft(DraftFor(files[i]), ChangeId(i + 1), Pending)]),
         ChangesUpdated(Loaded(files, i + 1))]
  {
  }

  lemma LoadedNumbered(files: seq<CG.GeneratedFile>, n: nat)
    requires n <= |files|
    ensures NumberedIds(Loaded(files, n))
  {
  }

  /**
   * After onGenerationComplete every generated file has exactly one entry,
   * in file order, describing it; the entry is applied exactly when its
   * write reached the first workspace folder, and approved otherwise.
   */
  lemma GeneratedFilesOutcome(files: seq<CG.GeneratedFile>, folders: seq<string>, failing: set<Location>, k: nat)
    requires k < |files|
    ensures var c := Outcome(Loaded(files, |files|), folders, failing)[k];
      && c.id == ChangeId(k + 1) && c.filePath == files[k].path && c.newContent == files[k].content
      && c.changeType == (if files[k].isNew then New else Modified)
      && c.addedLines == CG.LineCount(files[k].content) && c.removedLines == 0
      && (c.status == Applied <==> folders != [] && Location(folders[0], files[k].path) !in failing)
      && (c.status != Applied ==> c.status == Approved)
  {
    var cs := Loaded(files, |files|);
    assert cs[k] == FromDraft(DraftFor(files[k]), ChangeId(k + 1), Approved);
  }

  // ---------------------------------------------------------------------
  // The apply-all button, as values
  // ---------------------------------------------------------------------

  function ApproveIfPending(c: FileChange): FileChange {
    if c.status == Pending then c.(status := Approved) else c
  }

  /** The list once the first `i` changes of the snapshot were approved if pending. */
  function PartlyApproved(cs: seq<FileChange>, i: nat): (r: seq<FileChange>)
    ensures |r| == |cs|
  {
    seq(|cs|, k requires 0 <= k < |cs| => if k < i then ApproveIfPending(cs[k]) else cs[k])
  }

  /** The list events of approving the pending changes among the first `i`. */
  function ApproveEvents(cs: seq<FileChange>, i: nat): seq<LedgerEvent>
    requires i <= |cs|
  {
    if i == 0 then []
    else ApproveEvents(cs, i - 1) + (if cs[i - 1].status == Pending then [ChangesUpdated(PartlyApproved(cs, i))] else [])
  }

  /** One pass of the apply-all loop: a pending change is found by its id and approved. */
  lemma ApproveStep(cs: seq<FileChange>, i: nat)
    requires NumberedIds(cs) && i < |cs|
    ensures cs[i].status == Pending ==>
      SetStatusIfPending(PartlyApproved(cs, i), cs[i].id, Approved) == (PartlyApproved(cs, i + 1), true)
    ensures cs[i].status != Pending ==> PartlyApproved(cs, i + 1) == PartlyApproved(cs, i)
  {
    var p := PartlyApproved(cs, i);
    assert NumberedIds(p);
    assert p[i] == cs[i];
    FindNumbered(p, i + 1);
    assert PartlyApproved(cs, i + 1) == if cs[i].status == Pending then p[i := p[i].(status := Approved)] else p;
  }

  /**
   * After the apply-all button every change that was pending or approved is
   * applied exactly when its write succeeds, and approved otherwise; a
   * rejected or applied change keeps its status.
   */
  lemma ApplyAllButtonOutcome(cs: seq<FileChange>, folders: seq<string>, failing: set<Location>, k: nat)
    requires k < |cs|
    ensures var c := Outcome(PartlyApproved(cs, |cs|), folders, failing)[k];
      && c == cs[k].(status := c.status)
      && (cs[k].status == Pending || cs[k].status == Approved ==>
            (c.status == Applied <==> WriteSucceeds(cs[k], folders, failing))
            && (c.status != Applied ==> c.status == Approved))
      && (cs[k].status == Rejected || cs[k].status == Applied ==> c.status == cs[k].status)
  {
    var p := PartlyApproved(cs, |cs|);
    assert p[k] == ApproveIfPending(cs[k]);
  }

  // ---------------------------------------------------------------------
  // The view
  // ---------------------------------------------------------------------

  class View {
    var phase: Phase
    var currentSpec: Option<C.ProjectSpec>
    /** The text of the description box. */
    var inputValue: string
    /** The profile storage the view reads and writes. */
    var storage: map<string, string>
    var effects: seq<HostEffect>
    const ledger: ChangeManager
    const generator: CG.Generator

    /**
     * The ledger keeps its numbering, and the generator is idle between the
     * view's calls (a run is one call here).
     */
    ghost predicate Valid()
      reads this, ledger, generator
    {
      ledger.Valid() && !generator.isGenerating
    }

    constructor (ledger: ChangeManager, generator: CG.Generator, storage: map<string, string>)
      requires ledger.Valid() && !generator.isGenerating
      ensures Valid()
      ensures this.ledger == ledger && this.generator == generator && this.storage == storage
      ensures phase == InputPhase && currentSpec == None && inputValue == "" && effects == []
    {
      this.ledger := ledger;
      this.generator := generator;
      this.storage := storage;
      phase := InputPhase;
      currentSpec := None;
      inputValue := "";
      effects := [];
    }

    /** What entering game mode adds to the effects for the given spec and files. */
    static function GameEffects(spec: Option<C.ProjectSpec>, files: seq<CG.GeneratedFile>): (r: seq<HostEffect>)
      ensures |r| <= 1 && (r != [] <==> spec.Some?)
      ensures r != [] ==> r[0].OpenGame? && r[0].description == spec.value.description
      ensures r != [] ==> GP.CategoryCount(r[0].nodes, "file") == |files|
    {
      GN.NodesFromFiles(files, 0);
      if spec.None? then [] else [OpenGame(spec.value.description, GN.NodesFrom(files, 0))]
    }

    /** enterGameMode: nothing without a spec; otherwise open the game on the generated files, back to input. */
    method EnterGameMode()
      modifies this
      ensures old(currentSpec).None? ==>
        phase == old(phase) && inputValue == old(inputValue) && effects == old(effects)
      ensures old(currentSpec).Some? ==>
        && effects == old(effects) + [OpenGame(old(currentSpec).value.description, GN.NodesFrom(generator.generatedFiles, 0))]
        && phase == InputPhase && inputValue == ""
      ensures currentSpec == old(currentSpec) && storage == old(storage)
    {
      if currentSpec.None? {
        return;
      }
      var files := generator.GetGeneratedFiles();
      var nodes := GN.GenerateDetailedGameNodes(files);
      effects := effects + [OpenGame(currentSpec.value.description, nodes)];
      phase := InputPhase;
      inputValue := "";
    }

    /** onAllChangesApplied: enter game mode when there is a spec. */
    method OnAllChangesApplied()
      modifies this
      ensures effects == old(effects) + GameEffects(currentSpec, generator.generatedFiles)
      ensures phase == (if currentSpec.Some? then InputPhase else old(phase))
      ensures inputValue == (if currentSpec.Some? then "" else old(inputValue))
      ensures currentSpec == old(currentSpec) && storage == old(storage)
    {
      if currentSpec.Some? {
        EnterGameMode();
      }
    }

    /** The loop of onGenerationComplete: add each file's change and approve it at once. */
    method LoadChanges(files: seq<CG.GeneratedFile>)
      requires ledger.Valid() && ledger.changes == [] && ledger.idCounter == 0
      modifies ledger
      ensures ledger.Valid()
      ensures ledger.changes == Loaded(files, |files|) && ledger.idCounter == |files|
      ensures ledger.events == old(ledger.events) + LoadEvents(files, |files|)
      ensures ledger.writes == old(ledger.writes)
    {
      var i := 0;
      while i < |files|
        invariant 0 <= i <= |files|
        invariant ledger.Valid() && ledger.changes == Loaded(files, i) && ledger.idCounter == i
        invariant ledger.events == old(ledger.events) + LoadEvents(files, i)
        invariant ledger.writes == old(ledger.writes)
      {
        LoadOne(files, i);
        EventsSplit(old(ledger.events), files, i);
        i := i + 1;
      }
    }

    /** One pass of that loop: add the change for `files[i]`, then approve it by its id. */
    method LoadOne(files: seq<CG.GeneratedFile>, i: nat)
      requires i < |files|
      requires ledger.Valid() && ledger.changes == Loaded(files, i) && ledger.idCounter == i
      modifies ledger
      ensures ledger.Valid() && ledger.changes == Loaded(files, i + 1) && ledger.idCounter == i + 1
      ensures ledger.events == old(ledger.events)
        + [ChangesUpdated(Loaded(files, i) + [FromDraft(DraftFor(files[i]), ChangeId(i + 1), Pending)]),
           ChangesUpdated(Loaded(files, i + 1))]
      ensures ledger.writes == old(ledger.writes)
    {
      var c := ledger.AddChange(DraftFor(files[i]));
      ghost var added := ledger.changes;
      LoadStep(files, i, added);
      ledger.ApproveChange(c.id);
    }

    /**
     * onGenerationComplete: clear the ledger, add and approve one change per
     * file, apply them all (whose all-applied event enters game mode), and
     * only then show the review phase.
     */
    method OnGenerationComplete(files: seq<CG.GeneratedFile>, folders: seq<string>, failing: set<Location>)
      requires Valid()
      modifies this, ledger
      ensures Valid()
      ensures var cs := Loaded(files, |files|);
        && ledger.changes == Outcome(cs, folders, failing) && ledger.idCounter == |files|
        && ledger.writes == old(ledger.writes) + ApprovedWrites(cs, folders, failing)
        && ledger.events == old(ledger.events) + [ChangesUpdated([])] + LoadEvents(files, |files|)
                            + ApplyAll(cs, ApprovedIds(cs), folders, failing).events + [AllChangesApplied]
      ensures effects == old(effects) + GameEffects(currentSpec, generator.generatedFiles)
      ensures inputValue == (if currentSpec.Some? then "" else old(inputValue))
      ensures phase == ReviewPhase
      ensures currentSpec == old(currentSpec) && storage == old(storage)
    {
      ledger.ClearChanges();
      ghost var cleared := ledger.events;
      LoadChanges(files);
      ghost var cs := ledger.changes;
      ghost var loadedEvents := ledger.events;
      LoadedNumbered(files, |files|);
      ApplyAllApprovedOutcome(cs, folders, failing);
      ledger.ApplyAllApproved(folders, failing);
      OnAllChangesApplied();
      phase := ReviewPhase;
    }

    /** resumeGeneration: keep the spec; without a workspace folder do nothing more. */
    method ResumeGeneration(spec: C.ProjectSpec, folders: seq<string>, render: CG.Render, cancelAt: Option<nat>,
                            failing: set<Location>)
      requires Valid()
      modifies this, ledger, generator
      ensures Valid()
      ensures currentSpec == Some(spec) && storage == old(storage)
      ensures folders == [] ==>
        && phase == old(phase) && inputValue == old(inputValue) && effects == old(effects)
        && unchanged(ledger) && unchanged(generator)
      ensures folders != [] ==>
        var files := CG.Run(CG.PlanFiles(spec, render), CG.Budget(cancelAt));
        var cs := Loaded(files, |files|);
        && generator.generatedFiles == files
        && ledger.changes == Outcome(cs, folders, failing)
        && ledger.writes == old(ledger.writes) + ApprovedWrites(cs, folders, failing)
        && effects == old(effects) + [OpenGame(spec.description, GN.NodesFrom(files, 0))]
        && phase == ReviewPhase && inputValue == ""
    {
      currentSpec := Some(spec);
      if folders != [] {
        GenerateAndReview(spec, folders, render, cancelAt, failing);
      }
    }

    /** resumeGeneration with a workspace folder: generate, then complete into the review phase. */
    method GenerateAndReview(spec: C.ProjectSpec, folders: seq<string>, render: CG.Render, cancelAt: Option<nat>,
                             failing: set<Location>)
      requires Valid() && currentSpec == Some(spec)
      modifies this, ledger, generator
      ensures Valid()
      ensures currentSpec == Some(spec) && storage == old(storage)
      ensures var files := CG.Run(CG.PlanFiles(spec, render), CG.Budget(cancelAt));
        var cs := Loaded(files, |files|);
        && generator.generatedFiles == files
        && ledger.changes == Outcome(cs, folders, failing)
        && ledger.writes == old(ledger.writes) + ApprovedWrites(cs, folders, failing)
        && effects == old(effects) + [OpenGame(spec.description, GN.NodesFrom(files, 0))]
        && phase == ReviewPhase && inputValue == ""
    {
      phase := GeneratingPhase;
      generator.StartGeneration(spec, render, cancelAt);
      // The completion event fires at the end of the run, with the generated files.
      OnGenerationComplete(generator.generatedFiles, folders, failing);
    }

    /**
     * renderBody's resume check: a stored, non-empty pending spec that parses
     * is removed and generation resumes; one that does not parse leaves the
     * key in place and shows the input phase, as does an absent or empty one.
     */
    method RenderBody(parse: string -> Option<C.ProjectSpec>, folders: seq<string>, render: CG.Render,
                      cancelAt: Option<nat>, failing: set<Location>)
      requires Valid()
      modifies this, ledger, generator
      ensures Valid()
      ensures var stored := if PendingSpecKey in old(storage) then old(storage)[PendingSpecKey] else "";
        && (stored == "" || parse(stored).None? ==>
              && phase == InputPhase && storage == old(storage) && currentSpec == old(currentSpec)
              && inputValue == old(inputValue) && effects == old(effects)
              && unchanged(ledger) && unchanged(generator))
        && (stored != "" && parse(stored).Some? ==>
              var spec := parse(stored).value;
              && storage == old(storage) - {PendingSpecKey} && currentSpec == Some(spec)
              && (folders == [] ==> phase == old(phase) && effects == old(effects) && unchanged(ledger) && unchanged(generator))
              && (folders != [] ==>
                    var files := CG.Run(CG.PlanFiles(spec, render), CG.Budget(cancelAt));
                    && generator.generatedFiles == files
                    && ledger.changes == Outcome(Loaded(files, |files|), folders, failing)
                    && phase == ReviewPhase))
    {
      if PendingSpecKey in storage && storage[PendingSpecKey] != "" {
        var parsed := parse(storage[PendingSpecKey]);
        if parsed.Some? {
          storage := storage - {PendingSpecKey};
          ResumeGeneration(parsed.value, folders, render, cancelAt, failing);
        } else {
          phase := InputPhase;
        }
      } else {
        phase := InputPhase;
      }
    }

    /**
     * onSpecConfirmed: keep the spec; when the folder dialog returned a
     * folder, persist the serialized spec and open a window on the folder.
     */
    method OnSpecConfirmed(spec: C.ProjectSpec, picked: seq<string>, serialize: C.ProjectSpec -> string)
      modifies this
      ensures currentSpec == Some(spec)
      ensures picked == [] ==> storage == old(storage) && effects == old(effects)
      ensures picked != [] ==>
        storage == old(storage)[PendingSpecKey := serialize(spec)] && effects == old(effects) + [OpenWindow(picked[0])]
      ensures phase == old(phase) && inputValue == old(inputValue)
    {
      currentSpec := Some(spec);
      if |picked| > 0 {
        storage := storage[PendingSpecKey := serialize(spec)];
        effects := effects + [OpenWindow(picked[0])];
      }
    }

    /** The loop of the apply-all button: approve each pending change of the snapshot. */
    method ApprovePending(snapshot: seq<FileChange>)
      requires ledger.Valid() && snapshot == ledger.changes
      modifies ledger
      ensures ledger.Valid() && ledger.idCounter == old(ledger.idCounter)
      ensures ledger.changes == PartlyApproved(snapshot, |snapshot|)
      ensures ledger.events == old(ledger.events) + ApproveEvents(snapshot, |snapshot|)
      ensures ledger.writes == old(ledger.writes)
    {
      var i := 0;
      while i < |snapshot|
        invariant 0 <= i <= |snapshot|
        invariant ledger.Valid() && ledger.idCounter == old(ledger.idCounter)
        invariant ledger.changes == PartlyApproved(snapshot, i)
        invariant ledger.events == old(ledger.events) + ApproveEvents(snapshot, i)
        invariant ledger.writes == old(ledger.writes)
      {
        var c := snapshot[i];
        ApproveStep(snapshot, i);
        if c.status == Pending {
          ledger.ApproveChange(c.id);
        }
        i := i + 1;
      }
    }

    /** The apply-all button: approve every pending change, then apply all approved ones. */
    method ApplyAllClicked(folders: seq<string>, failing: set<Location>)
      requires Valid()
      modifies this, ledger
      ensures Valid()
      ensures var cs := PartlyApproved(old(ledger.changes), |old(ledger.changes)|);
        && ledger.changes == Outcome(cs, folders, failing) && ledger.idCounter == old(ledger.idCounter)
        && ledger.writes == old(ledger.writes) + ApprovedWrites(cs, folders, failing)
        && ledger.events == old(ledger.events) + ApproveEvents(old(ledger.changes), |old(ledger.changes)|)
                            + ApplyAll(cs, ApprovedIds(cs), folders, failing).events + [AllChangesApplied]
      ensures effects == old(effects) + GameEffects(currentSpec, generator.generatedFiles)
      ensures phase == (if currentSpec.Some? then InputPhase else old(phase))
      ensures inputValue == (if currentSpec.Some? then "" else old(inputValue))
      ensures currentSpec == old(currentSpec) && storage == old(storage)
    {
      var snapshot := ledger.GetChanges();
      assert snapshot == ledger.changes;
      ApprovePending(snapshot);
      ApplyAllApprovedOutcome(ledger.changes, folders, failing);
      ledger.ApplyAllApproved(folders, failing);
      OnAllChangesApplied();
    }
  }
}
