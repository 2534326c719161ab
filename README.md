# gdrive-copy: selection engine and copy run, in Dafny

gdrive-copy is a browser application. It lists a Google Drive folder as a
tree, lets the user mark what to copy, and copies the marked items into a
destination folder. This project models its core and proves properties of
that model:

- **The selection engine** (`FolderManager`, module `FolderManager`). Every
  node of the loaded forest has one of four states: `none`, `all`,
  `folder-only` and `partial`. A click cycles the state of one node. The new
  state is forced onto everything below it, and the ancestors are recomputed
  from their children. The collapser turns the state map into the work list
  of `SelectedItem` entries that a copy run processes.
- **The controller** (`App`, module `App`). It covers:
  - loading a forest and the bulk writes of "select all" and "deselect all";
  - the writes of the language-model selection;
  - the copy run (`startCopy`, `processSelectedItem`, `findParentId`), which
    walks the work list and issues Drive requests.
- **The language-model service** (`LlmService`). It covers mock mode, the
  mock selection, and the filter-and-fill applied to the model's answer.
- **The two copy managers**. `CopyManager` is the TypeScript one;
  `CopyManagerLegacy` is the older JavaScript one. Each wraps Drive failures
  into its own messages and can copy a list of files with progress reports.
- **The URL and environment helpers** (`Util`).

The Drive client is an oracle, `Api = nat -> Reply`: the reply to the
request numbered `k` of a run is `api(k)`, and it either returns an id or
throws. Each operation that talks to Drive takes the oracle and the trace of
requests issued so far (`seq<Call>`). It returns the extended trace, so
contracts can state exactly which requests were issued, in which order, and
what came of them. The shared data model is in module `Types`:
- forest nodes;
- selection states;
- work-list entries;
- the state map `States`.

`Drive` holds the request and reply types. `JsText` holds the string helpers
of the JavaScript runtime that the code relies on (`trim`, `startsWith`,
decimal rendering of a count).

The copy walk is modelled **as written**. `processSelectedItem` places every
request under the folder recorded for `root`, which is the destination. It
walks only the children of an included folder whose state is `none`. What
follows from that is described under "## Findings". `App.Plan` and
`App.AllPlans` give the requests that a run with no failures issues. The
corrected walk is specified by `App.IntendedPlan` and implemented by
`App.App.ProcessSelectedItemIntended`. `App.App.StartCopy` keeps the walk as
written, so its contract describes what the code does.

## Model

| member | source | states |
|---|---|---|
| FolderManager.FindItemById | src/services/folderManager.ts:113-122 | a hit has the searched id and is a node of the forest; the search misses exactly when the id is nowhere in the forest |
| FolderManager.FindItemUnique | src/services/folderManager.ts:113-122 | with unique ids, searching for the id of any node of the forest finds that very node |
| FolderManager.UpwardRuleOutcome | src/services/folderManager.ts:94-108 | a parent with children always gets a state back: `all` iff every child is `all` and the parent itself was `folder-only` or `all`; `none` iff every child is `none` and the parent was not `folder-only`; `partial` in every other case, so the branch that leaves the parent as it is is never taken |
| FolderManager.CycleOwnState | src/services/folderManager.ts:29-70 | after a click, the clicked node holds the state the cycle returns, and it follows the transition table of lines 36-63 |
| FolderManager.CycleUnknown | src/services/folderManager.ts:29-34 | clicking an id that is not in the forest changes nothing and reports the current state: the recorded one, or `none` for an id with no entry, read as line 30 and `getSelectionState` (lines 135-137) both read it |
| FolderManager.CycleForcesDescendants | src/services/folderManager.ts:72-84 | after a click, every node below the clicked one is `all` when the new state is `all` and `none` otherwise; the new state of a node with descendants is never `partial` |
| FolderManager.CycleFrame | src/services/folderManager.ts:29-111 | a node that is neither the clicked node, nor below it, nor above it keeps its state, and stays absent if it was absent |
| FolderManager.ParentDepth | src/services/folderManager.ts:124-133 | when the parent search returns a node, it is the parent handed in and the id is on the top level, or it is a node of the forest that holds the id among its own children, one level above it |
| FolderManager.TopFound | src/services/folderManager.ts:124-133 | with unique ids, the parent search for an id on the top level returns the parent handed in (`null` at the top of the forest) |
| FolderManager.ParentFound | src/services/folderManager.ts:124-133 | with unique ids, the parent search for the child of any node of the forest returns that node, so it never misses a parent |
| FolderManager.AncestorIdsExact | src/services/folderManager.ts:86-111 | the nodes the upward pass climbs through are exactly the nodes that hold the id somewhere below them, up to the top of the forest |
| FolderManager.CycleUpdatesParent | src/services/folderManager.ts:86-111 | after a click, the parent of the clicked node (any node of the forest that holds it among its children) holds the upward rule applied to the children's new states |
| FolderManager.AncestorsFollowRule | src/services/folderManager.ts:86-111 | after the upward pass, every node on the climbed chain, which is every ancestor up to the top of the forest, holds the upward rule applied to its children's final states and to its own state before the pass |
| FolderManager.CycleUpdatesAncestors | src/services/folderManager.ts:29-111 | after a click, every node that holds the clicked node somewhere below it holds the upward rule applied to its children's states after the click and to its own state before it |
| FolderManager.CycleFolderThrice | src/services/folderManager.ts:36-50 | a folder with children goes from `none` to `all` to `folder-only` and back to `none` in three clicks |
| FolderManager.CycleLeafTwice | src/services/folderManager.ts:51-63 | a file, or an empty folder, goes from `none` to `all` and back to `none` in two clicks |
| FolderManager.NoMutualDescent | src/services/folderManager.ts:124-133 | with unique ids, a node is never below one of its own descendants, so the parent search is well defined |
| FolderManager.AncestorsDisjoint | src/services/folderManager.ts:86-111 | the clicked node and the nodes below it are never among its ancestors, so the upward pass does not overwrite the forced states |
| FolderManager.NothingBelowWholeEntries | src/services/folderManager.ts:146-173 | no entry of the work list lies below an entry for a node recorded `all` or `folder-only`: the collapser never enters such a node |
| FolderManager.WorkListAllSelected | src/services/folderManager.ts:146-173 | when every top-level node is `all`, the work list is one whole-subtree entry per top-level node, in order |
| FolderManager.WorkListNoneSelected | src/services/folderManager.ts:146-173 | when every top-level node is `none`, the work list is empty |
| FolderManager.CollectedAppend | src/services/folderManager.ts:146-173 | the work list of two forests side by side is the first's followed by the second's |
| FolderManager.FolderManager.constructor | src/services/folderManager.ts:6-10 | a new manager has an empty state map |
| FolderManager.FolderManager.LoadFolderStructure | src/services/folderManager.ts:12-17 | the fetched forest is returned and every node of it is set to `none` |
| FolderManager.FolderManager.InitializeSelectionStates | src/services/folderManager.ts:19-26 | every node of the forest, at every depth, is set to `none`; other entries are kept |
| FolderManager.FolderManager.CycleSelection | src/services/folderManager.ts:29-70 | returns the state of the transition table and leaves the map as the click specification says: the node itself, then everything below it, then its ancestors from the nearest up; every node that holds the clicked node below it then holds the upward rule over its children's new states and its own old state |
| FolderManager.FolderManager.UpdateChildrenStates | src/services/folderManager.ts:72-84 | `all` is forced onto every descendant; `none` and `folder-only` force `none`; `partial` changes nothing |
| FolderManager.FolderManager.UpdateParentStates | src/services/folderManager.ts:86-111 | each ancestor, from the nearest up, is recomputed from its children by the upward rule, so that every node holding the id below it ends up holding the rule over its children's final states and its own state before the pass |
| FolderManager.FolderManager.GetSelectedItems | src/services/folderManager.ts:140-144 | the work list of the whole forest, as the collapser specifies it |
| FolderManager.FolderManager.CollectSelectedItems | src/services/folderManager.ts:146-173 | appends the work list of `items` to what was already collected: `all` is one entry with its children included and is not entered; `folder-only` is one entry without its children and is not entered; `partial` gives a childless `folder-only` entry only when some child is selected, followed by the entries of its children; `none` or no entry gives nothing and is not entered |
| LlmService.IsValidSelectionState | src/services/llmService.ts:149-151 | true exactly for the four names of the selection states |
| LlmService.ToState | src/services/llmService.ts:131 | the state whose name is the string |
| LlmService.StateNameRoundTrip | src/services/llmService.ts:149-151 | reading back the name of any state gives that state |
| LlmService.MockSelectsEverything | src/services/llmService.ts:39-54 | the mock's keys are exactly the ids of the forest at every depth, each mapped to `all` |
| LlmService.KeptAt | src/services/llmService.ts:128-133 | an id is kept iff it is in the forest and some entry for it names a state; it is kept with the state of the last such entry |
| LlmService.KeptWithin | src/services/llmService.ts:128-133 | only ids of the forest are ever kept |
| LlmService.ParseSelectionMeaning | src/services/llmService.ts:113-147 | fails with "Invalid LLM response format" exactly when the answer does not parse; otherwise the keys are the forest's ids, an id with a valid entry has the state of its last valid entry, and every other id is `none` |
| LlmService.ParseSelectionDistinct | src/services/llmService.ts:128-133 | with distinct keys, every valid entry for a forest id is taken as it is |
| LlmService.SelectFilesFallback | src/services/llmService.ts:25-37 | the mock is used in mock mode, when the request throws and when parsing fails; otherwise the parsed map; either way the keys are the forest's ids |
| LlmService.LlmService.constructor | src/services/llmService.ts:16-18 | no key, and mock mode on |
| LlmService.LlmService.SetApiKey | src/services/llmService.ts:20-23 | stores the key; mock mode is on exactly when the key is empty or all whitespace |
| LlmService.LlmService.SelectFiles | src/services/llmService.ts:25-37 | the selection that the fallback lemma characterises |
| LlmService.LlmService.MockSelection | src/services/llmService.ts:39-54 | the mock selection of the forest |
| LlmService.LlmService.ParseSelection | src/services/llmService.ts:113-147 | the result that the parse lemma characterises |
| CopyManager.FailureMessageKeepsCause | src/services/copyManager.ts:15-28 | a failure message starts with "Failed to create folder: " exactly for a create request and with "Failed to copy file: " for a copy request, and ends with the thrown message, or with "Unknown error" for a non-Error value |
| CopyManager.CreateFolder | src/services/copyManager.ts:11-19 | issues one create request with the name and parent given; returns the new id, or fails with the wrapped message |
| CopyManager.CopyFile | src/services/copyManager.ts:21-29 | issues one copy request for the file and destination given; returns the result, or fails with the wrapped message |
| CopyManager.CopyItem | src/services/copyManager.ts:31-34 | the same request and outcome as `CopyFile` |
| CopyManager.ResultFor | src/services/copyManager.ts:41-51 | the record for a file: successful exactly when its request returned; a result is present exactly on success and an error exactly on failure |
| CopyManager.SuccessesAreReturns | src/services/copyManager.ts:40-56 | the number of successful records among the first `n` is the number of the first `n` requests that returned |
| CopyManager.ProgressCounts | src/services/copyManager.ts:53-55 | report `k` is the number of successes among the first `k + 1` records, with the total; the reported counts never decrease |
| CopyManager.CopyMultipleItems | src/services/copyManager.ts:36-59 | one copy request per file, in order, all to the destination; one record per file with the outcome of its request; with a callback, one report per file, counting successes so far, never decreasing |
| CopyManagerLegacy.CopyItem | src/services/copyManager.js:6-14 | one copy request; returns the result, or fails with "Failed to copy item: " followed by the thrown value's `message` |
| CopyManagerLegacy.LegacyResultFor | src/services/copyManager.js:21-27 | the record for a file: successful exactly when its request returned |
| CopyManagerLegacy.VersionsAgreeOnOutcome | src/services/copyManager.js:16-35 | both managers agree on which files succeeded, and their records are equal exactly for the files that succeeded |
| CopyManagerLegacy.CopyMultipleItems | src/services/copyManager.js:16-35 | the same requests, records and progress reports as the TypeScript version, with the legacy error text |
| Util.GetBaseUrl | src/utils/util.ts:15-45 | a usable override is returned as it is; otherwise protocol, "//" and host name, followed by ":" and the port when the port is set and is not the protocol's default, and by nothing else when it is not |
| Util.GetCurrentDomain | src/utils/util.ts:53-64 | the host name, followed by ":" and the port when the port is shown, and the host name alone when it is not |
| Util.BaseUrlIsProtocolAndDomain | src/utils/util.ts:15-64 | without an override, the base URL is the protocol, "//" and the current domain |
| Util.BlankOverrideIgnored | src/utils/util.ts:19 | an all-whitespace override gives the same URL as no override |
| Util.GetEnvironmentType | src/utils/util.ts:70-92 | one of three labels: "Development" iff the host name is "localhost" or "127.0.0.1", or starts with "192.168." or "10.", or the development flag is set; otherwise "Production" iff served over https, else "Local" |
| App.PlanUnder | src/main.ts:303-342 | every request a work-list entry issues is placed in the one folder `findParentId` gives, the folder recorded under `root` whatever the item |
| App.AllPlansUnder | src/main.ts:277-342 | every request of a whole run is placed in the destination folder, the one `startCopy` records under `root` and `findParentId` returns |
| App.AllPlansMonotone | src/main.ts:277-300 | the requests for the first `i` entries are a prefix of those for the first `j`, for `i <= j` |
| App.ClickedFolderCopiedEmpty | src/main.ts:313-325 | as written: once a folder is cycled to `all`, its entry yields only its own `createFolder` request |
| App.ClickedFolderExample | src/main.ts:313-325 | as written: for a folder "A" holding a file "f", one click gives a work list with the single entry for "A", and the run issues one `createFolder` and no request for "f" |
| App.IntendedPlanCoversSubtree | src/main.ts:303-332 | corrected: every node below an included folder gets its request |
| App.IntendedPlanOnlySubtree | src/main.ts:303-332 | corrected: every request is for the entry's own node or for a node below it |
| App.PlansAgreeWhenUnmarked | src/main.ts:313-325 | the walk as written and the corrected one issue the same requests while nothing below the entry is recorded as selected |
| App.Status | src/main.ts:250-300 | the status text for each outcome; it starts with "Copy failed: " exactly for a failed run, and the rest of it is then the failure's message |
| App.App.constructor | src/main.ts:16-28 | no forest, not signed in, an empty state map, and the language-model service in mock mode |
| App.App.LoadFolderStructure | src/main.ts:136-167 | refused without a source id or before sign-in, with nothing changed; otherwise the fetched forest is stored and every node is set to `none` |
| App.App.HandleItemClick | src/main.ts:169-176 | with a forest loaded, the state map becomes that of the click specification; otherwise nothing changes |
| App.App.SelectAll | src/main.ts:224-230 | with a forest loaded, every node at every depth becomes `all` |
| App.App.DeselectAll | src/main.ts:232-238 | with a forest loaded, every node at every depth becomes `none` |
| App.App.SetAllStates | src/main.ts:240-247 | writes the state for every node of the forest, at every depth, with no propagation, and keeps every other entry |
| App.App.ApplyLlmSelection | src/main.ts:178-215 | without a forest nothing changes. Otherwise: the key is the one given, or empty when the model is disabled; mock mode is on exactly when the model is disabled or the key is blank; and every entry of the resulting selection overwrites the map, with nothing else changed |
| App.App.ProcessSelectedItem | src/main.ts:303-332 | the first request is the entry's own, placed in the `root` folder. The walk stops at the first request that throws, with its message, and otherwise every request returned. A created folder is recorded under its id. When no node of the entry has the id `root`, the requests are a prefix of the entry's plan, the whole plan when nothing failed |
| App.App.ProcessChildren | src/main.ts:313-325 | each child recorded `none` is walked as an `all` entry, the others are skipped, and the first failure stops the loop; when no node below the folder has the id `root`, the requests are a prefix of the children's plan, the whole plan when nothing failed |
| App.App.ProcessSelectedItemIntended | src/main.ts:303-332 | corrected: the same requests as the walk as written, except that every child of an included folder is walked. When no node of the entry has the id `root`, the requests are a prefix of the corrected plan, and the whole plan when nothing failed |
| App.App.ProcessChildrenIntended | src/main.ts:313-325 | corrected: every child is walked as an `all` entry, whatever its recorded state, and the first failure stops the loop; when no node below the folder has the id `root`, the requests are a prefix of the corrected children's plan |
| App.App.StartCopy | src/main.ts:249-301 | refuses, issuing nothing, in the source's order: no forest, an empty work list, no destination, not signed in. Otherwise it runs: it reports `(k + 1, total)` after entry `k`. It completes with the count of entries, the exact requests of the plan and every one returned, or it fails on the first thrown request with its message and the count of entries done before. Every request goes to the destination |
| App.App.CopySelectedItems | src/main.ts:277-300 | processes the entries in order with `root` mapped to the destination; completes with every entry counted and reported, or stops at the first failure. When no entry has a node with the id `root`, the requests issued lie between the plans of the entries done and of one entry more |

## Left out

- Listing a folder (`_fetchFolderContents` and the Drive listing): the fetched forest is a parameter of `LoadFolderStructure`.
- Google sign-in, the OAuth token flow and the `gapi` client: whether the user is signed in is the field `isAuthenticated`, and the Drive client is the `Api` oracle.
- The language-model request (`_callOpenAI`, the prompt it builds, HTTP status handling) and `JSON.parse`: their outcome is the `LlmReply` parameter. Non-string JSON values are not modelled; such an entry is not a valid state and is dropped, as in the source.
- The rendering of the tree, the status line and the progress bar. The progress percentage is floating point; the model keeps the pair of counts it is computed from.
- Asynchrony: each `await` is modelled as completing before the next step, and clicks arriving during a copy run are not modelled.
- `copyFile`'s resolved value is modelled as the id of the copy; a thrown `null` or `undefined` value is not modelled.
- App.App.StartCopy: its plan postconditions are stated only for forests without a node whose id is the text "root". A folder with that id would overwrite the destination entry of the folder map, and every later request would go into that folder.
- App.App.ProcessSelectedItem: its plan postconditions are stated only when no node of the entry has the id "root", for the same reason as for `App.App.StartCopy`.
- App.App.ProcessChildren: its plan postconditions are stated only when no node below the folder has the id "root", for the same reason.
- App.App.ProcessSelectedItemIntended: its corrected-plan postconditions are stated only when no node of the entry has the id "root", for the same reason.
- App.App.ProcessChildrenIntended: its corrected-plan postconditions are stated only when no node below the folder has the id "root", for the same reason.
- App.App.CopySelectedItems: its plan postconditions are stated only when no entry has a node with the id "root", for the same reason.
- App.App.ProcessSelectedItem: as written, every request goes to the destination root, so the source hierarchy is flattened. The children of a `folder-only` entry are never walked. A `partial` folder is given a childless `folder-only` entry ahead of its children when one of its children is `all`, `folder-only` or `partial`. Only children recorded `none` are walked. The model follows the code on each of these points.
- FolderManager.FolderManager.GetSelectionState: no row of its own, since its contract can only restate `get(itemId) || 'none'`; that reading is `Types.StateOf`, and what it reports is stated by `FolderManager.CycleUnknown` and `FolderManager.CycleOwnState`.
- LlmService.LlmService.SelectFiles: the prompt is not a parameter, since neither the mock nor the parse reads it.

## Findings

| source | as written | input that shows it | evidently intended | confidence | as-written member | corrected member |
|---|---|---|---|---|---|---|
| src/main.ts:313-325 | the children of an included folder are walked only when their own state is `none`. A click on a folder, or "select all", has already set every descendant to `all`, so none of them is walked, and the copy creates an empty folder | a folder "A" holding a file "f"; one click on "A"; start the copy | every node below an included folder is copied | not executed | App.ClickedFolderCopiedEmpty, App.ClickedFolderExample | App.IntendedPlan, implemented by App.App.ProcessSelectedItemIntended, with App.IntendedPlanCoversSubtree, App.IntendedPlanOnlySubtree and App.PlansAgreeWhenUnmarked |
