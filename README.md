# Architect pipeline and workbench helpers, modelled in Dafny

This project models the Architect feature of the LogicCore workbench, a fork of VS Code. Architect turns a free-text project description into a generated project:

- The **clarification service** asks three keyword-driven questions. It keeps one answer per question and rebuilds the project spec after every answer.
- The **code generator** plans four or five files from the spec. It streams each file line by line and polls a cooperative cancel flag before every file and every line.
- The **change ledger** holds the generated files as numbered changes, each with a status: pending, then approved or rejected, then applied. The ledger writes approved changes to the first workspace folder.
- The **architect view** wires these services together:
  - It resumes a run from a spec persisted before the window reloaded.
  - It turns generated files into approved and applied ledger entries.
  - It lays out the game nodes and opens the optimisation game pane.
- The **game pane** computes its node icons and summary figures.

Three smaller pieces of the workbench are modelled too:

- the breadcrumbs widget registry;
- the configuration-migration rules of the workbench contribution;
- the getting-started content-provider registry, with its Markdown button and Copilot setup step.

Each service whose source updates fields in place is a class. Its methods are proved against value-level functions, and the properties are lemmas about those functions:

- `ChangeLedger.ChangeManager`
- `CodeGenerator.Generator`
- `Clarification.ClarificationService`
- `ArchitectView.View`
- `Breadcrumbs.BreadcrumbsService`
- `GettingStarted.ContentProviderRegistry`

Pure code is written as functions.

The outside world enters as parameters:

- Disk writes: the set `failing` of locations whose write throws.
- The workspace: the list `folders` of workspace folder roots.
- The folder dialog: the list `picked` of folders it returned.
- JSON: `parse`/`serialize` function parameters.
- The file templates: a `render` function.
- Cancellation: `cancelAt` says during which 50 ms delay a cancel request lands.

Events are appended to logs in firing order, and each entry is a snapshot of its payload. What the view asks of the host goes to its `effects` log: opening a window on a folder, or opening the game pane.

Modules: `Text` (string helpers), `ChangeLedger`, `CodeGenerator`, `Clarification`, `ArchitectView`, `GameNodes` (the view's node layout and `extractFunctionName`), `GamePane`, `Breadcrumbs`, `ConfigMigration`, `GettingStarted`.

## Model

| member | source | states |
|---|---|---|
| ChangeLedger.ChangeManager.AddChange | logic-core-vscode/src/vs/workbench/contrib/architect/browser/architectChangeManagerService.ts:73-84 | The new entry is the draft with id `change-N`, where N is the incremented counter, and status pending. It is appended after the untouched old list, and the list event fires. |
| ChangeLedger.ChangeIdInjective | logic-core-vscode/src/vs/workbench/contrib/architect/browser/architectChangeManagerService.ts:76 | Different counter values give different ids. |
| ChangeLedger.NumberedIdsDistinct | logic-core-vscode/src/vs/workbench/contrib/architect/browser/architectChangeManagerService.ts:73-84 | Ids issued between two clears are pairwise distinct. |
| ChangeLedger.FindIndex | logic-core-vscode/src/vs/workbench/contrib/architect/browser/architectChangeManagerService.ts:87 | `find` by id: the result is the first entry with that id, and None means no entry has it. |
| ChangeLedger.FindNumbered | logic-core-vscode/src/vs/workbench/contrib/architect/browser/architectChangeManagerService.ts:76-80 | In a numbered ledger, `change-n` is found at position n-1. |
| ChangeLedger.SetStatusIfPendingEffect | logic-core-vscode/src/vs/workbench/contrib/architect/browser/architectChangeManagerService.ts:86-100 | Approve/reject fires iff the first entry with the id is pending. Then only that entry's status changes, and only to the target. Otherwise nothing changes at all. |
| ChangeLedger.NoMoveFromNonPending | logic-core-vscode/src/vs/workbench/contrib/architect/browser/architectChangeManagerService.ts:86-100 | A change that is approved, rejected or applied can be neither approved nor rejected. |
| ChangeLedger.ChangeManager.SetStatus | logic-core-vscode/src/vs/workbench/contrib/architect/browser/architectChangeManagerService.ts:86-100 | The shared body of approve and reject: the list and events are those of `SetStatusIfPending` for the target status. The counter and writes are unchanged, and the numbering is kept. |
| ChangeLedger.ChangeManager.ApproveChange | logic-core-vscode/src/vs/workbench/contrib/architect/browser/architectChangeManagerService.ts:86-92 | The new list and events are those of moving a pending change to approved. The counter and writes are unchanged. |
| ChangeLedger.ChangeManager.RejectChange | logic-core-vscode/src/vs/workbench/contrib/architect/browser/architectChangeManagerService.ts:94-100 | The same, for rejected. |
| ChangeLedger.ApplyOneEffect | logic-core-vscode/src/vs/workbench/contrib/architect/browser/architectChangeManagerService.ts:102-128 | No write and no change for a missing id, an applied change, or no folder. Otherwise exactly one write lands at the first root joined with the path. On success the status is applied and change-applied fires, then changes-updated. On failure nothing else changes. |
| ChangeLedger.ApplyOneIgnoresApproval | logic-core-vscode/src/vs/workbench/contrib/architect/browser/architectChangeManagerService.ts:102-128 | applyChange never checks approval: any change not yet applied, pending or even rejected, is applied once its write succeeds, and no other entry changes. |
| ChangeLedger.ChangeManager.ApplyChange | logic-core-vscode/src/vs/workbench/contrib/architect/browser/architectChangeManagerService.ts:102-128 | The list, events and writes are as `ApplyOne` says, and the numbering is kept. |
| ChangeLedger.Outcome | logic-core-vscode/src/vs/workbench/contrib/architect/browser/architectChangeManagerService.ts:130-138 | Reference result of applyAllApproved: an approved change is applied iff its write succeeds, and every other change is as it was. |
| ChangeLedger.ApplyAllApprovedOutcome | logic-core-vscode/src/vs/workbench/contrib/architect/browser/architectChangeManagerService.ts:130-138 | Applying the approved ids one by one, in list order, gives `Outcome`. The writes are one per approved change, in order. |
| ChangeLedger.ApplyAllOnlyApproved | logic-core-vscode/src/vs/workbench/contrib/architect/browser/architectChangeManagerService.ts:131 | applyAllApproved leaves every change that was not approved at call time as it was. |
| ChangeLedger.ChangeManager.ApplyAllApproved | logic-core-vscode/src/vs/workbench/contrib/architect/browser/architectChangeManagerService.ts:130-138 | The state is that of applying the ids approved at call time. All-applied fires exactly once, after the loop. |
| ChangeLedger.RejectPendingEffect | logic-core-vscode/src/vs/workbench/contrib/architect/browser/architectChangeManagerService.ts:140-147 | After rejectAll no change is pending, non-pending changes are untouched, only statuses differ, and further calls change nothing. |
| ChangeLedger.ChangeManager.RejectAll | logic-core-vscode/src/vs/workbench/contrib/architect/browser/architectChangeManagerService.ts:140-147 | Every pending change becomes rejected, and the list event always fires. |
| ChangeLedger.ChangeManager.GetChanges | logic-core-vscode/src/vs/workbench/contrib/architect/browser/architectChangeManagerService.ts:149-151 | The copy holds the entries of the list, in order. |
| ChangeLedger.PendingChangesExactly | logic-core-vscode/src/vs/workbench/contrib/architect/browser/architectChangeManagerService.ts:153-155 | The pending filter holds exactly the pending changes. |
| ChangeLedger.PendingChangesAppend | logic-core-vscode/src/vs/workbench/contrib/architect/browser/architectChangeManagerService.ts:153-155 | The filter keeps list order: it distributes over concatenation. |
| ChangeLedger.ChangeManager.GetPendingChanges | logic-core-vscode/src/vs/workbench/contrib/architect/browser/architectChangeManagerService.ts:153-155 | The result is the pending filter of the list, in list order (`PendingChanges`), and holds exactly the pending changes. |
| ChangeLedger.ChangeManager.ClearChanges | logic-core-vscode/src/vs/workbench/contrib/architect/browser/architectChangeManagerService.ts:157-161 | The list is empty and the counter zero, so the next id is `change-1`. The list event fires. |
| CodeGenerator.ModuleName | logic-core-vscode/src/vs/workbench/contrib/architect/browser/architectCodeGeneratorService.ts:179-188 | `searcher` iff the raw description contains 搜索 or `search`; else `todoManager` iff it contains TODO or todo; else `core`. |
| CodeGenerator.PlanFiles | logic-core-vscode/src/vs/workbench/contrib/architect/browser/architectCodeGeneratorService.ts:98-150 | 5 files if the features include `config`, else 4. In order: `src/index.ts`, `src/core/<m>.ts`, `src/types/index.ts`, then `src/config.ts` only with config, then `tests/<m>.test.ts`, each with its own template's content. All are new, pending, with 0 lines streamed. |
| CodeGenerator.PlanPathsDistinct | logic-core-vscode/src/vs/workbench/contrib/architect/browser/architectCodeGeneratorService.ts:98-150 | No two planned files share a path. |
| CodeGenerator.LineCount | logic-core-vscode/src/vs/workbench/contrib/architect/browser/architectCodeGeneratorService.ts:153-154 | A file has at least one `\n`-separated line. |
| CodeGenerator.Streamed | logic-core-vscode/src/vs/workbench/contrib/architect/browser/architectCodeGeneratorService.ts:156-172 | A file streams all its lines without a cancel. With one, it streams no more lines than the delays before the cancel. |
| CodeGenerator.RunIsPrefix | logic-core-vscode/src/vs/workbench/contrib/architect/browser/architectCodeGeneratorService.ts:78-91 | The generated files are a prefix of the plan, with the same paths, contents and flags. Each is complete and streamed at most its own line count. |
| CodeGenerator.RunUncancelled | logic-core-vscode/src/vs/workbench/contrib/architect/browser/architectCodeGeneratorService.ts:78-91 | Without a cancel, every planned file is generated with all its lines. |
| CodeGenerator.OnlyLastCut | logic-core-vscode/src/vs/workbench/contrib/architect/browser/architectCodeGeneratorService.ts:78-159 | Only the last file reached can be cut short, and it is still marked complete. |
| CodeGenerator.StreamedTotal | logic-core-vscode/src/vs/workbench/contrib/architect/browser/architectCodeGeneratorService.ts:152-173 | The lines streamed over the run are the scheduled count, or all the plan's lines if the run ends first. |
| CodeGenerator.RunLeftLanded | logic-core-vscode/src/vs/workbench/contrib/architect/browser/architectCodeGeneratorService.ts:78-82 | The cancel flag is up after the run iff the cancel landed within it. |
| CodeGenerator.UpdatesIncreasing | logic-core-vscode/src/vs/workbench/contrib/architect/browser/architectCodeGeneratorService.ts:161-168 | Progress events carry the file's path, and currentLine rises strictly within 1..totalLines. |
| CodeGenerator.RunStarted | logic-core-vscode/src/vs/workbench/contrib/architect/browser/architectCodeGeneratorService.ts:78-159 | Every file the run reaches streamed at least one line. The flag is read before the file starts, and nothing waits before its first line is checked. |
| CodeGenerator.RunProgress | logic-core-vscode/src/vs/workbench/contrib/architect/browser/architectCodeGeneratorService.ts:156-168 | A run fires exactly one progress event per streamed line. That is the scheduled number of lines, or all the plan's lines if the run ends first, so no progress fires after the cancel lands. |
| CodeGenerator.RunStartsInOrder | logic-core-vscode/src/vs/workbench/contrib/architect/browser/architectCodeGeneratorService.ts:77-85 | The start events name exactly the files reached, one each, in plan order. No file starts after the cancel. |
| CodeGenerator.RunNested | logic-core-vscode/src/vs/workbench/contrib/architect/browser/architectCodeGeneratorService.ts:83-91 | The events are well nested. A file starts only when no file is streaming, every progress event names the file streaming, and that file's complete event ends it before the next start. |
| CodeGenerator.Generator.CancelGeneration | logic-core-vscode/src/vs/workbench/contrib/architect/browser/architectCodeGeneratorService.ts:521-523 | Only raises the flag. |
| CodeGenerator.Generator.GetGeneratedFiles | logic-core-vscode/src/vs/workbench/contrib/architect/browser/architectCodeGeneratorService.ts:517-519 | Returns the generated list. |
| CodeGenerator.Generator.Delay | logic-core-vscode/src/vs/workbench/contrib/architect/browser/architectCodeGeneratorService.ts:170-177 | The 50 ms wait after a line: the schedule advances one delay, and the cancel flag goes up iff the cancel lands now. Nothing else changes. |
| CodeGenerator.Generator.StreamFile | logic-core-vscode/src/vs/workbench/contrib/architect/browser/architectCodeGeneratorService.ts:152-173 | Streams up to the cancel; `streamedLines` is the count reached. The progress events are those of `Updates`. |
| CodeGenerator.Generator.StreamOne | logic-core-vscode/src/vs/workbench/contrib/architect/browser/architectCodeGeneratorService.ts:83-91 | The file is appended as streaming before its start event. It is streamed, then set complete, and its complete event fires. |
| CodeGenerator.Generator.StreamPlan | logic-core-vscode/src/vs/workbench/contrib/architect/browser/architectCodeGeneratorService.ts:78-92 | The loop over the plan leaves `Run(plan, schedule)` and the events of `RunEvents`. By RunStarted, RunProgress, RunStartsInOrder and RunNested, each file reached has streamed a line, and progress stops at the cancel. Files start in plan order with their events nested. |
| CodeGenerator.Generator.StartGeneration | logic-core-vscode/src/vs/workbench/contrib/architect/browser/architectCodeGeneratorService.ts:66-96 | A no-op while generating. Otherwise: the flag reset, the list emptied, the run, the generating flag false, then generation-complete with the files reached. |
| Clarification.TechQuestion | logic-core-vscode/src/vs/workbench/contrib/architect/browser/architectClarificationService.ts:84-118 | The first matching domain decides, in the order game, mobile, ai/data, default. The option ids per branch are given, and exactly the first option is recommended. |
| Clarification.UiQuestion | logic-core-vscode/src/vs/workbench/contrib/architect/browser/architectClarificationService.ts:120-140 | `[cli, tui]` iff tool/cli/脚本 occurs, else `[web, desktop, mobile, api]`. The first is recommended. |
| Clarification.MatchedExactly | logic-core-vscode/src/vs/workbench/contrib/architect/browser/architectClarificationService.ts:154-158 | A feature is offered iff one of its keywords occurs in the text. |
| Clarification.FeatureQuestion | logic-core-vscode/src/vs/workbench/contrib/architect/browser/architectClarificationService.ts:143-171 | The matched features come in rule order. If fewer than two match, logging and config are appended, so there are always at least two options. |
| Clarification.GenerateQuestions | logic-core-vscode/src/vs/workbench/contrib/architect/browser/architectClarificationService.ts:82-174 | There are exactly three questions, `tech-stack`, `ui-type`, `features` in order, each allowing custom input and offering at least two options. |
| Clarification.GenerateQuestionsCaseBlind | logic-core-vscode/src/vs/workbench/contrib/architect/browser/architectClarificationService.ts:82-85 | A description gets the same questions as its lower-cased form: upper case changes nothing. |
| Clarification.GameWinsOverMobile | logic-core-vscode/src/vs/workbench/contrib/architect/browser/architectClarificationService.ts:90-95 | Every description whose lower-cased form mentions a game gets the game engines, whatever mobile, app or data words it also has. |
| Clarification.MobileGameAppGetsEngines | logic-core-vscode/src/vs/workbench/contrib/architect/browser/architectClarificationService.ts:90-100 | "Mobile Game App" matches the mobile branch too, and still gets the game engines. |
| Clarification.Find | logic-core-vscode/src/vs/workbench/contrib/architect/browser/architectClarificationService.ts:186-188 | The first answer to the question, and None iff there is none. |
| Clarification.Without | logic-core-vscode/src/vs/workbench/contrib/architect/browser/architectClarificationService.ts:178 | The filter keeps exactly the answers to other questions. |
| Clarification.SubmitFind | logic-core-vscode/src/vs/workbench/contrib/architect/browser/architectClarificationService.ts:176-183 | Last write wins for the submitted question, and the other questions keep their answers. |
| Clarification.SubmitKeepsOnePerQuestion | logic-core-vscode/src/vs/workbench/contrib/architect/browser/architectClarificationService.ts:176-183 | Submitting keeps at most one answer per question. |
| Clarification.SpecFrom | logic-core-vscode/src/vs/workbench/contrib/architect/browser/architectClarificationService.ts:185-197 | techStack = custom value, else selected option, else `nodejs`. uiType = selected option, else `cli`. features = the selected option split on `,`, else `[]`. The spec is not confirmed. |
| Clarification.SubmitCommutes | logic-core-vscode/src/vs/workbench/contrib/architect/browser/architectClarificationService.ts:176-197 | Answers to different questions give the same spec in either order. |
| Clarification.FeaturesRoundTrip | logic-core-vscode/src/vs/workbench/contrib/architect/browser/architectClarificationService.ts:194 | Features chosen as a comma-joined id come back as the spec's list. |
| Clarification.ClarificationService.StartClarification | logic-core-vscode/src/vs/workbench/contrib/architect/browser/architectClarificationService.ts:73-80 | Stores the description, empties the answers and replaces the questions, then fires them. The current spec is kept. |
| Clarification.ClarificationService.SubmitAnswer | logic-core-vscode/src/vs/workbench/contrib/architect/browser/architectClarificationService.ts:176-183 | The answers are `Submit(old, a)` and the spec is rebuilt from them. |
| Clarification.ClarificationService.ConfirmSpec | logic-core-vscode/src/vs/workbench/contrib/architect/browser/architectClarificationService.ts:199-204 | A no-op without a spec. Otherwise the spec is confirmed and spec-confirmed fires with it. |
| Clarification.ClarificationService.GetCurrentSpec | logic-core-vscode/src/vs/workbench/contrib/architect/browser/architectClarificationService.ts:206-208 | Returns the current spec. |
| Clarification.ClarificationService.GetQuestions | logic-core-vscode/src/vs/workbench/contrib/architect/browser/architectClarificationService.ts:210-212 | Returns the current questions. |
| Clarification.ClarificationService.GetAnswers | logic-core-vscode/src/vs/workbench/contrib/architect/browser/architectClarificationService.ts:214-216 | Returns the current answers. |
| ArchitectView.View.RenderBody | logic-core-vscode/src/vs/workbench/contrib/architect/browser/architectView.ts:112-125 | A stored, non-empty pending spec that parses: the key is removed and generation resumes. One that fails to parse: the input phase, with the key left stored. Nothing stored: the input phase. |
| ArchitectView.View.OnSpecConfirmed | logic-core-vscode/src/vs/workbench/contrib/architect/browser/architectView.ts:281-301 | Keeps the spec. Only if the dialog returned a folder is the serialized spec stored and a window opened on the first folder. |
| ArchitectView.View.ResumeGeneration | logic-core-vscode/src/vs/workbench/contrib/architect/browser/architectView.ts:303-316 | With no workspace folder, only the spec is kept: no phase change, no generation. Otherwise generation runs, and the ledger ends as the outcome of applying the generated files. |
| ArchitectView.DraftFor | logic-core-vscode/src/vs/workbench/contrib/architect/browser/architectView.ts:393-403 | The path and content are the file's; new iff isNew, else modified. originalContent is null, addedLines the line count, removedLines 0. |
| ArchitectView.DraftForFileName | logic-core-vscode/src/vs/workbench/contrib/architect/browser/architectView.ts:396 | fileName is the non-empty text after the last `/` of the path, or the whole path when it is empty or ends in `/`. |
| ArchitectView.LoadStep | logic-core-vscode/src/vs/workbench/contrib/architect/browser/architectView.ts:393-405 | The change just added is found by its id and approved: the ledger is the first i+1 files, approved. |
| ArchitectView.View.LoadChanges | logic-core-vscode/src/vs/workbench/contrib/architect/browser/architectView.ts:393-406 | After the loop the ledger holds one approved `change-(k+1)` per file, in order, with two list events per file. |
| ArchitectView.View.OnGenerationComplete | logic-core-vscode/src/vs/workbench/contrib/architect/browser/architectView.ts:390-411 | Clear, then load, then apply all; the ledger, writes and events are stated. Game mode is entered from the all-applied event, and the review phase is shown last. |
| ArchitectView.GeneratedFilesOutcome | logic-core-vscode/src/vs/workbench/contrib/architect/browser/architectView.ts:390-411 | After onGenerationComplete each generated file has exactly one entry, with its data. It is applied iff its write reached the first folder, and approved otherwise. |
| ArchitectView.ApproveStep | logic-core-vscode/src/vs/workbench/contrib/architect/browser/architectView.ts:440-444 | One pass of the button's loop approves the i-th change iff it is pending. |
| ArchitectView.View.ApprovePending | logic-core-vscode/src/vs/workbench/contrib/architect/browser/architectView.ts:440-444 | Every pending change of the snapshot is approved, with one list event each. |
| ArchitectView.View.ApplyAllClicked | logic-core-vscode/src/vs/workbench/contrib/architect/browser/architectView.ts:438-445 | Approves the pending changes, then applies all approved ones and enters game mode from the all-applied event. |
| ArchitectView.ApplyAllButtonOutcome | logic-core-vscode/src/vs/workbench/contrib/architect/browser/architectView.ts:438-445 | After the button, a change that was pending or approved is applied iff its write succeeds. Rejected and applied changes keep their status, and nothing else changes. |
| ArchitectView.View.OnAllChangesApplied | logic-core-vscode/src/vs/workbench/contrib/architect/browser/architectView.ts:519-523 | Enters game mode iff there is a current spec. |
| ArchitectView.View.GameEffects | logic-core-vscode/src/vs/workbench/contrib/architect/browser/architectView.ts:519-542 | What entering game mode asks of the host: nothing without a spec, else one game-pane opening on the spec's description, with one file node per generated file. |
| ArchitectView.View.EnterGameMode | logic-core-vscode/src/vs/workbench/contrib/architect/browser/architectView.ts:528-542 | Nothing without a spec. Otherwise the game opens on the spec's description and the generated files' nodes, the input phase is shown, and the input is cleared. |
| GameNodes.WordEnd | logic-core-vscode/src/vs/workbench/contrib/architect/browser/architectView.ts:607 | `\w+` is greedy: the run of word characters is maximal. |
| GameNodes.LeftmostIsFirst | logic-core-vscode/src/vs/workbench/contrib/architect/browser/architectView.ts:607-611 | `match` finds the leftmost match, and None means the pattern matches nowhere. |
| GameNodes.ExtractFunctionName | logic-core-vscode/src/vs/workbench/contrib/architect/browser/architectView.ts:606-616 | Returns the declaration capture, else the assignment capture, else `fn`. Any name found is a non-empty run of word characters. |
| GameNodes.DeclaredName | logic-core-vscode/src/vs/workbench/contrib/architect/browser/architectView.ts:607-610 | `function run() {` yields `run`. |
| GameNodes.AsyncFunctionName | logic-core-vscode/src/vs/workbench/contrib/architect/browser/architectView.ts:607-610 | `async function go() {` yields `function`, as the pattern is written. |
| GameNodes.BaseName | logic-core-vscode/src/vs/workbench/contrib/architect/browser/architectView.ts:551 | The label is the fallback when the path is empty or ends in `/`. |
| GameNodes.BaseNameLastPiece | logic-core-vscode/src/vs/workbench/contrib/architect/browser/architectView.ts:551 | Otherwise the label is the non-empty text after the last `/` of the path. |
| GameNodes.GenerateDetailedGameNodes | logic-core-vscode/src/vs/workbench/contrib/architect/browser/architectView.ts:544-604 | The two nested loops give exactly `NodesFrom(files, 0)`. |
| GameNodes.PlaceLines | logic-core-vscode/src/vs/workbench/contrib/architect/browser/architectView.ts:559-598 | The inner loop appends exactly the line nodes of the file, starting at x = 180. |
| GameNodes.LineNodeCount | logic-core-vscode/src/vs/workbench/contrib/architect/browser/architectView.ts:563-597 | A line gives one node of its kind's category and none of any other; function, then loop, then condition. |
| GameNodes.NodesFromFiles | logic-core-vscode/src/vs/workbench/contrib/architect/browser/architectView.ts:548-557 | There is exactly one file node per file. |
| GameNodes.NodesFromCount | logic-core-vscode/src/vs/workbench/contrib/architect/browser/architectView.ts:548-601 | The number of nodes of a category is the number of lines of that kind in all files. |
| GameNodes.NodesFromCost | logic-core-vscode/src/vs/workbench/contrib/architect/browser/architectView.ts:548-601 | The total cost is 10 per file plus 30/50/15 per function/loop/condition line. |
| GameNodes.NoLoopsConstantTime | logic-core-vscode/src/vs/workbench/contrib/architect/browser/architectGamePane.ts:453 | The game shows O(1) iff no generated line is a loop line. |
| GameNodes.LineNodeShape | logic-core-vscode/src/vs/workbench/contrib/architect/browser/architectView.ts:562-597 | A line gives at most one node, at the current x and at the row height plus 0/60/30. x advances by 120/100/80 iff a node was placed. |
| GameNodes.LinesFromLayout | logic-core-vscode/src/vs/workbench/contrib/architect/browser/architectView.ts:559-598 | The line nodes of a file are at or after the start x, at their row heights, with x strictly increasing. |
| GameNodes.FileNodeFirst | logic-core-vscode/src/vs/workbench/contrib/architect/browser/architectView.ts:548-600 | Each file's nodes start with `file-<i>` at x = 50, y = 80 + 150·i. Every other node is at x >= 180 and not a file node. |
| GamePane.NodeIcon | logic-core-vscode/src/vs/workbench/contrib/architect/browser/architectGamePane.ts:685-705 | The category decides first, then the type, with `●` as the default. Each icon is stated as an iff. |
| GamePane.CategoryCountExtremes | logic-core-vscode/src/vs/workbench/contrib/architect/browser/architectGamePane.ts:69-70 | The count is zero iff no node has the category, and full iff all do. |
| GamePane.TotalCostAppend | logic-core-vscode/src/vs/workbench/contrib/architect/browser/architectGamePane.ts:68 | The cost sum distributes over concatenation. |
| GamePane.LoopsAndFunctions | logic-core-vscode/src/vs/workbench/contrib/architect/browser/architectGamePane.ts:69-70 | The loop and function counts never add up to more than the node count. |
| GamePane.VerdictAgrees | logic-core-vscode/src/vs/workbench/contrib/architect/browser/architectGamePane.ts:453-457 | The label, the bar colour and the width use the same thresholds. Good iff there are no loops. |
| GamePane.Memory | logic-core-vscode/src/vs/workbench/contrib/architect/browser/architectGamePane.ts:464 | The figure is within one half of total·0.5, which is how Math.round rounds. |
| GamePane.Summarize | logic-core-vscode/src/vs/workbench/contrib/architect/browser/architectGamePane.ts:68-70 | The node count, cost sum, loop and function counts, label (O(1) iff no loop node), verdict and memory figure. These are the metrics of lines 68-70; the time and memory figures follow lines 453-464 and 520-521. |
| Breadcrumbs.RegisterOn | logic-core-vscode/src/vs/workbench/browser/parts/editor/breadcrumbs.ts:36-44 | A taken group is an error with the map unchanged. A free group stores the widget. Every other group is unchanged either way. |
| Breadcrumbs.DisposeOn | logic-core-vscode/src/vs/workbench/browser/parts/editor/breadcrumbs.ts:41-43 | The group's entry is gone, whatever it held, and every other group is unchanged. |
| Text.MapGet | logic-core-vscode/src/vs/workbench/browser/parts/editor/breadcrumbs.ts:46-48 | `Map.get`, as getWidget and getProvider use it: the stored value, and None iff the key has none. |
| Breadcrumbs.RegisterThenLookup | logic-core-vscode/src/vs/workbench/browser/parts/editor/breadcrumbs.ts:40-48 | After a successful register, getWidget returns that widget. |
| Breadcrumbs.RegisterDisposeInverse | logic-core-vscode/src/vs/workbench/browser/parts/editor/breadcrumbs.ts:36-44 | Disposing a fresh registration restores the map. |
| Breadcrumbs.ReRegisterAfterDispose | logic-core-vscode/src/vs/workbench/browser/parts/editor/breadcrumbs.ts:37-43 | After dispose the group can be registered again. |
| Breadcrumbs.StaleDisposeRemovesNewWidget | logic-core-vscode/src/vs/workbench/browser/parts/editor/breadcrumbs.ts:41-43 | A stale handle removes whatever widget the group holds by then. |
| Breadcrumbs.BreadcrumbsService.Register | logic-core-vscode/src/vs/workbench/browser/parts/editor/breadcrumbs.ts:36-44 | The outcome and the new map are those of `RegisterOn`. |
| Breadcrumbs.BreadcrumbsService.Dispose | logic-core-vscode/src/vs/workbench/browser/parts/editor/breadcrumbs.ts:41-43 | The new map is that of `DisposeOn`. |
| Breadcrumbs.BreadcrumbsService.GetWidget | logic-core-vscode/src/vs/workbench/browser/parts/editor/breadcrumbs.ts:46-48 | The stored widget, if any. |
| ConfigMigration.MigrateActivityBarVisible | logic-core-vscode/src/vs/workbench/browser/workbench.contribution.ts:947-956 | No edits iff the value is undefined. Otherwise the first edit unsets the old key, and a second edit, setting location hidden, comes iff the value is `false`. |
| ConfigMigration.MigrateActivityBarLocation | logic-core-vscode/src/vs/workbench/browser/workbench.contribution.ts:961-967 | `side` becomes `default`; any other value gives no edits. |
| ConfigMigration.MigrateDoubleClickToggle | logic-core-vscode/src/vs/workbench/browser/workbench.contribution.ts:972-979 | true becomes `expand` and false `off`; a non-boolean gives no edits. |
| ConfigMigration.MigrateEditorTabsMode | logic-core-vscode/src/vs/workbench/browser/workbench.contribution.ts:981-988 | true becomes `multiple` and false `single`; a non-boolean gives no edits. |
| ConfigMigration.MigrateTabCloseButton | logic-core-vscode/src/vs/workbench/browser/workbench.contribution.ts:990-998 | `left`/`right` set the action location to the same value, and `off` hides the close action. Anything else gives no edits. |
| ConfigMigration.MigrateZenHideTabs | logic-core-vscode/src/vs/workbench/browser/workbench.contribution.ts:1000-1006 | Always unsets itself first; `true` also sets showTabs to `single`. |
| ConfigMigration.ApplyGet | logic-core-vscode/src/vs/workbench/browser/workbench.contribution.ts:945-1007 | After applying edits, a key reads as its last write. |
| ConfigMigration.StepIdempotent | logic-core-vscode/src/vs/workbench/browser/workbench.contribution.ts:945-1007 | Every migration settles in one step: running it again changes nothing. |
| ConfigMigration.StepKeepsOthers | logic-core-vscode/src/vs/workbench/browser/workbench.contribution.ts:945-1007 | A migration leaves every setting outside its targets as it was. |
| ConfigMigration.HiddenActivityBarMoves | logic-core-vscode/src/vs/workbench/browser/workbench.contribution.ts:947-956 | `visible: false` ends up as location `hidden`, with the old key gone. |
| ConfigMigration.ZenHiddenTabsMove | logic-core-vscode/src/vs/workbench/browser/workbench.contribution.ts:1000-1006 | `hideTabs: true` ends up as `showTabs: single`, with the old key gone. |
| GettingStarted.ContentProviderRegistry.RegisterProvider | logic-core-vscode/src/vs/workbench/contrib/welcomeGettingStarted/common/gettingStartedContent.ts:37-39 | The provider replaces any earlier one for the id. |
| GettingStarted.ContentProviderRegistry.GetProvider | logic-core-vscode/src/vs/workbench/contrib/welcomeGettingStarted/common/gettingStartedContent.ts:41-43 | The registered provider, and None iff the id has none. |
| GettingStarted.RegisterThenGet | logic-core-vscode/src/vs/workbench/contrib/welcomeGettingStarted/common/gettingStartedContent.ts:37-43 | The last provider registered for an id wins, and other ids are unaffected. |
| GettingStarted.ModuleToContent | logic-core-vscode/src/vs/workbench/contrib/welcomeGettingStarted/common/gettingStartedContent.ts:46-62 | An empty query, or one without moduleId, is "invalid resource". An unknown id is "no provider registered". Content comes iff the id has a provider, and it is that provider's output. |
| GettingStarted.ErrorMessage | logic-core-vscode/src/vs/workbench/contrib/welcomeGettingStarted/common/gettingStartedContent.ts:49-59 | The two messages, word for word, with the module id appended to the second. |
| GettingStarted.RegisteredModuleResolves | logic-core-vscode/src/vs/workbench/contrib/welcomeGettingStarted/common/gettingStartedContent.ts:37-62 | Registering a provider makes its id resolve to the provider's output. Before that, the id is "no provider registered". |
| GettingStarted.ButtonRoundTrip | logic-core-vscode/src/vs/workbench/contrib/welcomeGettingStarted/common/gettingStartedContent.ts:225 | `[title](href)` reads back as its title and target when the title has no `]`. |
| GettingStarted.CopilotSetupStep | logic-core-vscode/src/vs/workbench/contrib/welcomeGettingStarted/common/gettingStartedContent.ts:235-248 | `when` is the condition plus ` && !chatSetupHidden`. The id, title and media are the given and fixed ones. |
| GettingStarted.CopilotDescriptionLines | logic-core-vscode/src/vs/workbench/contrib/welcomeGettingStarted/common/gettingStartedContent.ts:236-238 | The description's lines are desc, terms, button when terms are included, and desc, button otherwise. |
| Text.JoinSplit | logic-core-vscode/src/vs/workbench/contrib/architect/browser/architectClarificationService.ts:194 | Splitting and joining on the separator gives the string back. |
| Text.SplitJoin | logic-core-vscode/src/vs/workbench/contrib/architect/browser/architectClarificationService.ts:194 | Joining separator-free pieces and splitting gives the pieces back. |

## Left out

- DOM and webview rendering are not modelled. This covers the phase containers, the input box, `showPhase` styling, the game pane's markup and its embedded script (which uses `Math.random`, drag and drop).
- onStartClicked, showClarificationPhase and the streaming display handlers are not modelled: they only forward to services or update the DOM.
- The file service, `URI.joinPath`, the storage scope, the host and dialog services and `JSON.parse`/`JSON.stringify` are environment parameters: `failing`, `folders`, `picked`, `parse`, `serialize`. A write location is the pair (root, relative path).
- Asynchrony and timing: each service call runs to completion. An awaited write or delay is a step, and the 50 ms delay is where a scheduled cancel can land. A cancel issued before a run is erased by the reset at its start, so the schedule starts with the run. Because the view handles a run within one call, its generating phase is never observable between calls, and the generator is never re-entered while generating.
- Emitter fan-out is an appended event log. Payloads are snapshots, so later in-place edits of the shared change and file objects are not visible through earlier events.
- ArchitectView.View.RenderBody: a stored value that `JSON.parse` accepts but that is not a spec (`{}`, `null`, `42`) is not modelled. The source removes the key and calls resumeGeneration on it. With a workspace folder, startGeneration then sets its generating flag before planFiles throws on a spec field the value lacks, and the generator stays marked as generating. The model's `parse` either yields a spec or fails.
- Template bodies are the opaque `render` parameter; only paths and line counts matter.
- The `Other(name)` node type and the `Null`/`Num` setting values stand for run-time values outside the declared types.
- The workbench layout service is not part of this model. The setting keys `workbench.activityBar.location` and `workbench.editor.showTabs`, and the values `hidden`, `default`, `multiple`, `single`, come from the schema entries of workbench.contribution.ts lines 63-72 and 617-619.
- How the configuration-migration registry applies the rules is not modelled. A step reads the rule's key and applies its edits in order.
- Configuration schemas, menu, keybinding and action registrations, the BreadcrumbsConfig wrappers, the explorer undo/redo handlers, ToggleScannerAction and the native Python UI are left out as declarative or UI code.
- GettingStarted.ModuleToContent: a truthy non-string `moduleId` (a number, say) is not modelled; `moduleId` is a string or absent/falsy.
- GettingStarted.ErrorMessage: the messages of the JSON syntax error and of reading a property of `null` come from the host. They are modelled as fixed words.
- Clarification: the model lower-cases A–Z only; JavaScript's full Unicode lower-casing in `toLowerCase` is not captured. The game-node patterns' `\w` is ASCII, as in JavaScript without the `u` flag; `\s` is the full ECMAScript white-space set.
- The architect source stores its Chinese labels in mis-decoded form (UTF-8 bytes read as Windows-1252). The model uses the intended text, for example 新建文件 and 修改文件 for the change summaries and 循环 and 条件 for the node captions.
- GameNodes.ExtractFunctionName: the function-name patterns are modelled by a scanner over the two regular expressions. One behaviour is kept as written: on `async function go()` the first pattern matches at `async` and captures `function`, because `(?:function\|async)\s+(\w+)` is leftmost.

## Notes on the source

- Derivation of `features`: `selectedOptionId?.split(',') \|\| []` turns an empty selection into `[""]`, because an array is always truthy. Only a missing selection gives `[]`. `Clarification.SpecFrom` follows the code.
- In onGenerationComplete the all-applied listener, which enters game mode and shows the input phase, runs inside `applyAllApproved`. That is before the `.then` that shows the review phase. So the phase after a generation run is review, with the game pane open. `ArchitectView.View.OnGenerationComplete` states this order.
- resumeGeneration keeps the spec even when there is no workspace folder.
