# Autonomous coding pipeline: a verified model

The pipeline turns a specification into code with the help of language models. Nine of its parts each run a
loop or a state machine that is meant to agree with a much simpler statement. This project models those parts
in Dafny, in the form the code has (loops as methods with invariants, mutable objects as classes), and proves
the agreement.

| files | part |
|---|---|
| `PromptBudget.dfy`, `PromptBudgetLaws.dfy`, `Dispatch.dfy`, `DispatchLaws.dfy` | dividing a prompt's characters among file sections, and picking the agent whose window takes it |
| `SpecContext.dfy`, `SpecContextLaws.dfy`, `SpecAssemblyLaws.dfy` | fetching a spec's repository files once and reusing them |
| `EditText.dfy`, `EditParser.dfy`, `EditParserLaws.dfy`, `EditMarkers.dfy` | reading SEARCH/REPLACE blocks out of a model's answer |
| `EditApply.dfy`, `EditApplyLaws.dfy`, `EditLadder.dfy`, `EditResolve.dfy`, `EditResolveLaws.dfy` | landing the blocks on files, all or nothing |
| `DuplicateRegions.dfy`, `DuplicateRegionsLaws.dfy` | finding the repeated regions of a file |
| `TaskStore.dfy`, `TaskStoreLaws.dfy`, `TaskStoreCalls.dfy` | specs, tasks, review gates and the event log, written by several processes |
| `VmSlot.dfy` | one throwaway VM at a time, with leaks swept by the next dispatch |
| `RetryLoop.dfy` | retrying a model call, with server-directed waits (the delay-seconds form of Retry-After, section 10.2.3 of RFC 9110, on 503, section 15.6.4) |
| `Crawl.dfy` | the bounded breadth-first documentation crawl |
| `Delivery.dfy` | whether a finished spec still owes a delivery |

`Options.dfy` and `Sorting.dfy` hold what they share. `dafny verify dfyconfig.toml` checks everything.

How the parts are shaped: each imperative method is proved equal to a specification function, and the results
are lemmas about that function. Beside them, each function has its meaning told without it: in the numbers of
the request, the lines of the file, the rows of the store, or the patterns of a line. Answers of servers, subprocesses, git and the clock are inputs: a function
from the call's number to its answer, a `Fate` of what the host does, or a flag for a process that dies.
Concurrency is a machine of interleaved steps (`VmSlot`, `Delivery`, `TaskStoreCalls`) or of committed
transactions (`TaskStoreLaws`).

Results that differ from what the code's own comments say:

- `covers` looks only for growth, so a file that leaves the protected set is still served as protected from a
  reused context (`ReuseIsFreshIff`, `ShrunkProtectedSetIsReused`).
- A file that could not be read is meant to have an unknown status. It reads as absent when the reason sounds like
  an absence: so it does when git cannot be run (`UnreadIff`, `GitUnavailableLooksAbsent`), or when a fetch
  fails with such a text (`FailedReadIsUnreadIff`, `FailedReadCanLookAbsent`).
- A path's reason is taken from the first problem that begins with it and a colon, which can be another path's
  (`ReasonIsOwnIff`, `ClashMisleads`).
- A cancelled spec can be left with an open gate: `create_gate` reads the spec before its transaction, and a
  process can die between the status write and the retirement (`CommitKeepsNoOrphansIff`, `QuietLeftoversIff`,
  `StaleReadLeavesOrphan`, `StoppedCancelLeavesOrphan`).
- It can be left with an unfinished task: `cancel_spec` lists the tasks before its status write, and
  `update_spec_status` closes none (`QuietLeftoversIff`, `CancelOverlooksIff`, `OverlookedTaskSurvives`).
- The tables cannot always be rebuilt from the event log: a claim and a gate's being born closed are not in it
  (`RebuiltIff`).
- A delivery can be asked for twice: the read and the write of a request are separate transactions
  (`OneRequestIff`, `OverlappingRequestsDouble`).
- `count == 1` is a unique place only for a SEARCH text that cannot overlap itself (`CountOneIsUniqueIff`), and
  exact replacement by an empty REPLACE keeps a newline the line splice would not (`ExactIsSplice`).
- A refusal can be unjustified when the window the search settles on is not the one with the most room, as with a
  reasoning reserve on the largest (`EditableRefusalsJustifiedIff`, `TooLargeRefusalsJustifiedIff`,
  `UnequalReservesRefuseTooMuch`).
- An ownership check alone does not make a sweep safe; holding the slot does (`SweepSparesIff`,
  `SweepOutsideTheSlotIsUnsafe`).

## Model

| member | source | states |
|---|---|---|
| PromptBudget.Fill | src/coding_model_autonomous/context.py:1105-1121 | The loop over candidates keeps and drops what `Greedy` of the non-negative budget does, in candidate order, for any integer budget. |
| PromptBudget.GreedyKeepsWhatStillFits | src/coding_model_autonomous/context.py:1105-1121 | Each file is decided by the room the files kept before it leave and by nothing after it: the file-by-file meaning of a fill. |
| PromptBudget.GreedyWithinBudget | src/coding_model_autonomous/context.py:1105-1121 | A fill never spends more than its budget, nor more than the files hold. |
| PromptBudget.GreedyConserves | src/coding_model_autonomous/context.py:1105-1121 | Every path is either kept or named as dropped, with its multiplicity. |
| PromptBudget.GreedyDropsNothingIff | src/coding_model_autonomous/context.py:1105-1121 | A fill drops nothing if and only if all the files together fit, and then it keeps the list as it was. |
| PromptBudget.GreedyDivergence | src/coding_model_autonomous/context.py:1105-1121 | If two budgets lead to different fills, the larger one spends more than the whole smaller budget. |
| PromptBudget.GreedyTotalMonotone | src/coding_model_autonomous/context.py:1105-1121 | More room never yields a smaller total. |
| PromptBudget.GreedyKeptSetNotMonotone | src/coding_model_autonomous/context.py:1105-1121 | The kept set itself is not monotone: an input where two more characters of room evict the only file kept. |
| PromptBudget.WithholdConserves | src/coding_model_autonomous/context.py:1124-1151 | Withholding machine-generated files loses none: each is shown or named. |
| PromptBudget.Allocation.constructor | src/coding_model_autonomous/context.py:1179-1182 | A new allocation holds its parameters and no section. |
| PromptBudget.Allocation.FirstPass | src/coding_model_autonomous/context.py:1183-1194 | Knobs as caps on what is left, in priority order; with an unknown window each section gets its own knob. |
| PromptBudget.Allocation.SecondPass | src/coding_model_autonomous/context.py:1204-1219 | What is left over is offered to each section that dropped something and is taken only where it gains. |
| PromptBudget.Allocation.ThirdPass | src/coding_model_autonomous/context.py:1230-1236 | The plain priority fill that replaces the grants when priority was inverted. |
| PromptBudget.Allocate | src/coding_model_autonomous/context.py:1154-1237 | The three passes over the mutable allocation come to `AllocationPlan`: the budget from the window, the headroom cap, the completion and the fixed part, clamped at zero. |
| PromptBudget.RefillSettles | src/coding_model_autonomous/context.py:1204-1219 | After the second pass nothing left over could be used by any section, and no character is created or lost. |
| PromptBudget.SettledIsPlain | src/coding_model_autonomous/context.py:1204-1247 | Grants that are settled and not priority-inverted are the plain fill of everything they hold and spare. |
| PromptBudget.KnownWindowIsPlain | src/coding_model_autonomous/context.py:1154-1247 | The three passes and one knob-free priority fill decide alike for every section, and share at most the budget. |
| PromptBudget.AllocationIsOnePlainFill | src/coding_model_autonomous/context.py:1154-1237 | With a known window and distinct section names, the allocation keeps and drops exactly the files one priority-order fill without knobs keeps and drops. |
| PromptBudget.KnownWindowTotal | src/coding_model_autonomous/context.py:1154-1237 | One grant per section, and all of them together within the budget. |
| PromptBudget.FitsIffFixedPartFits | src/coding_model_autonomous/context.py:1072-1092 | A known-window allocation fits if and only if its fixed part and completion alone fit: the sections never decide it. |
| PromptBudget.DropsNothingIff | src/coding_model_autonomous/context.py:1084-1086 | A known window drops nothing if and only if there is nothing to show, or the fixed part and all that may be shown together fit its share less the completion, in characters. |
| PromptBudget.PlanIsGreedy | src/coding_model_autonomous/context.py:1154-1237 | Known window or not, each section holds a greedy fill of its own files. |
| PromptBudget.UnboundedAt | src/coding_model_autonomous/context.py:1183-1194 | With an unknown window a section is granted a fill of its own knob, or of everything. |
| PromptBudget.UndroppedIsWhole | src/coding_model_autonomous/context.py:1056-1058 | A section with no drops shows every file it was given. |
| PromptBudget.AllocationConserves | src/coding_model_autonomous/context.py:1154-1237 | Every path of a section is kept, dropped by name or withheld by name, with its multiplicity. |
| PromptBudgetLaws.ShownIsFilter | src/coding_model_autonomous/context.py:1124-1151 | What is shown of a joined list is what is shown of each half, in order. |
| PromptBudgetLaws.ShownOne | src/coding_model_autonomous/context.py:1124-1151 | One file is shown exactly when it is not machine-generated. |
| PromptBudgetLaws.KnownWindowIsOneWalk | src/coding_model_autonomous/context.py:1154-1237 | With a known window the three passes keep, and drop, exactly what one walk over all the files in priority order does, with the window's share less the completion, in characters, less the fixed part once: the whole answer, in numbers. |
| PromptBudgetLaws.UnknownWindowAt | src/coding_model_autonomous/context.py:1174-1197 | With an unknown window each section is filled to its own knob, or shown whole without one, whatever the others take. |
| PromptBudgetLaws.SectionIsAccountedFor | src/coding_model_autonomous/context.py:1124-1237 | The plan's own record of a section is true: it names as withheld exactly the machine-generated paths of the protected section, its drops and keeps are a fill of the number it names, and each path is kept, dropped or withheld. |
| PromptBudgetLaws.PromptTokensAre | src/coding_model_autonomous/context.py:1069-1081 | The dict lists the sections in order, and the prompt's tokens are the whole tokens of the fixed part and everything kept. |
| Dispatch.PlanDispatch | src/coding_model_autonomous/context.py:1250-1338 | The loop over the chosen agent and the candidates hands back the plan, or the refusal with its listing, that `DispatchPlan` gives. |
| Dispatch.ChainHolds | src/coding_model_autonomous/context.py:1276-1277 | The agent and the candidates are asked, and nobody else. |
| Dispatch.ChainInOrder | src/coding_model_autonomous/context.py:1276-1277 | The agent is asked first, then every candidate other than it, in their order and as often as named: each one's place is one more than the number of other candidates before it. |
| Dispatch.PlannedShowsEveryEditable | src/coding_model_autonomous/context.py:1250-1338 | A plan handed back is that of the agent or of a candidate, fits, and shows every editable file whole. |
| Dispatch.NoNeedlessDrop | src/coding_model_autonomous/context.py:1276-1302 | If the agent or any candidate has a known window whose share holds the fixed part and all that may be shown, the dispatch is planned and nothing is dropped. |
| Dispatch.EditableDroppedIff | src/coding_model_autonomous/context.py:1154-1237 | With the editable section first, a known window drops an editable file if and only if the editable files alone exceed its room. |
| Dispatch.PickExists | src/coding_model_autonomous/context.py:1276-1312 | In every chain there is a candidate the search would settle on. |
| Dispatch.SearchTakes | src/coding_model_autonomous/context.py:1276-1312 | The search takes a whole candidate exactly when there is one; else it settles on the first of the largest known windows, or on the chosen agent when none is larger than what its own counts for. |
| Dispatch.DispatchConcludes | src/coding_model_autonomous/context.py:1276-1338 | The dispatch is planned when some candidate is whole, and else decided by the plan of the candidate it settled on. |
| Dispatch.WholeIff | src/coding_model_autonomous/context.py:1284-1302 | A known candidate is whole exactly when its room holds everything and its window the fixed part. |
| Dispatch.LargestRulesOutSmaller | src/coding_model_autonomous/context.py:1308-1320 | An editable drop in one candidate rules out every known window without more room, whatever the reserves. |
| Dispatch.EditableRefusalIsJustified | src/coding_model_autonomous/context.py:1308-1320 | Where the pick has the most room, the editable refusal means that no known window, of the agent or a candidate, could show the whole editable set beside the fixed part. |
| Dispatch.EditableRefusalIff | src/coding_model_autonomous/context.py:1250-1338 | With the editable section first, that refusal happens exactly when no candidate is whole and the candidate the search settles on is too small for the editable files: any reserves, any windows, known or not. |
| Dispatch.EditableRefusalsJustifiedIff | src/coding_model_autonomous/context.py:1313-1320 | Every editable refusal is justified, for all sections with the editable one first, if and only if no known window of the chain has more room than the one the search settles on. |
| Dispatch.EditableRefusalMeansNoneCould | src/coding_model_autonomous/context.py:1313-1320 | Where that holds and the chosen agent's window is known, the refusal happens exactly when no known window could show the whole editable set. |
| Dispatch.OneReserveHasMostRoom | src/coding_model_autonomous/context.py:1279-1287 | One reserve for all candidates, and a headroom cap that grows with the window, are enough. |
| Dispatch.PromptTooLargeIff | src/coding_model_autonomous/context.py:1321-1325 | The prompt is refused as too large exactly when no candidate is whole and the one settled on drops no editable file but does not fit. |
| Dispatch.TooLargeRefusalsJustifiedIff | src/coding_model_autonomous/context.py:1321-1325 | Every such refusal means that the fixed part fits no known window, whatever the fixed part and the sections, if and only if no known window leaves more tokens than the one settled on, or it leaves none. |
| Dispatch.UnequalReservesRefuseTooMuch | src/coding_model_autonomous/context.py:1250-1338 | A request of the failing family: the largest window also has the largest reserve, and the dispatch is refused although a smaller window could show the whole editable set. |
| DispatchLaws.FirstWholeIsTaken | src/coding_model_autonomous/context.py:1279-1308 | The first candidate of the chain that is whole gets the dispatch, with its own plan. |
| DispatchLaws.UnknownIsWholeIff | src/coding_model_autonomous/context.py:1284-1294 | Without a known window only the chosen agent can be whole, and is so exactly when every section is within its knob. |
| DispatchLaws.UnwholeOutcome | src/coding_model_autonomous/context.py:1308-1338 | With no whole candidate, the plan of the one settled on decides: its dropped editable files with its window and agent, or the tokens it needs with prompt, completion and reserve, or the plan itself. |
| DispatchLaws.ListedSizes | src/coding_model_autonomous/context.py:1315-1320 | Each file of a refusal comes with its own size in whole tokens; of two with one path the later counts. |
| SpecContext.FetchAll | src/coding_model_autonomous/context.py:739-766 | The chunked loop gives the files and problems of all chunks in order and the first commit named, or the first outage or failure; a fetch that cannot be asked for the commit is asked again without. |
| SpecContext.OmissionsOf | src/coding_model_autonomous/context.py:893-898 | One omission for each path that was not read, in request order, with its section and reason. |
| SpecContext.Dedup | src/coding_model_autonomous/context.py:805-808 | Repeats removed: no path twice and none lost. |
| SpecContext.Workspace.constructor | src/coding_model_autonomous/context.py:718-730 | A workspace starts with no stored context. |
| SpecContext.Workspace.Assemble | src/coding_model_autonomous/context.py:777-925 | Reuse, refresh, outage fallback, failed read, empty request and missing repository give the context, declared modifications and commit included, and the stored file `Assembled` says. |
| SpecContextLaws.EveryPathLandsOnce | src/coding_model_autonomous/context.py:833-898 | Whatever a completed fetch answered, each path asked for is in exactly one of editable, protected and omitted, and nothing else is in any. |
| SpecContextLaws.BuiltPlace | src/coding_model_autonomous/context.py:875-898 | Protected wins over editable; a path read is shown with the last content answered for it, one not read is omitted with the first problem that names it. |
| SpecContextLaws.UnreadIff | src/coding_model_autonomous/context.py:282-289 | A requested path that was not read is unread if and only if the reason given for it does not read like an absence, and absent otherwise. |
| SpecContextLaws.StatusIsPlace | src/coding_model_autonomous/context.py:541-557 | With a repository, a path's status is found, absent, or unread exactly as its place says. |
| SpecContextLaws.AbsentMeansSaid | src/coding_model_autonomous/context.py:541-557 | A path is called absent only when some problem begins with that path and says so. |
| SpecContextLaws.FailedReadIsUnreadIff | src/coding_model_autonomous/context.py:855-873 | After a failure on this side of the wire, whenever no earlier context can be kept, a path's status is unread if and only if the failure's own text does not read like an absence. |
| SpecContextLaws.FailedReadCanLookAbsent | src/coding_model_autonomous/context.py:282-289 | A missing-file error, run through the assembly, makes every path of any request look like a creation. |
| SpecContextLaws.CompletedFetchIsWhole | src/coding_model_autonomous/context.py:739-766 | If each answer is truthful or no answer, a fetch that completes has read the whole list, whatever the chunk size. |
| SpecContextLaws.ChunkSizeIsInvisible | src/coding_model_autonomous/context.py:739-766 | With a truthful runner every chunk size up to the runner's own limit completes and gives the same files, problems and commit. |
| SpecContextLaws.BuiltFromTree | src/coding_model_autonomous/context.py:875-898 | A completed truthful fetch puts each requested path where the tree says; a path that cannot be read is given the first problem that begins with it. |
| SpecContextLaws.ReasonIsOwnIff | src/coding_model_autonomous/context.py:769-774 | A path is given its own reason in every tree if and only if no path listed before it begins with it and a colon, or is what it begins with before a colon and a space. |
| SpecContextLaws.ClashMisleads | src/coding_model_autonomous/context.py:769-774 | For every list with such a path before it, a tree in which the path is given the other's reason. |
| SpecContextLaws.GitUnavailableLooksAbsent | src/coding_model_autonomous/test_runner.py:1543-1569 | The local reader's problem for a git that cannot be run reads like an absence, so every path of the request with no clash before it looks like a creation, though the repository may hold it. |
| SpecContextLaws.SameReasonWhenClear | src/coding_model_autonomous/context.py:769-774 | Without such clashes a reused context gives an unread path the reason a fresh fetch gives. |
| SpecContextLaws.FaithfulIsKept | src/coding_model_autonomous/context.py:777-925 | Each call leaves in context.json a context that agrees with the tree it was fetched from. |
| SpecContextLaws.ReuseIsFreshIff | src/coding_model_autonomous/context.py:667-674 | A reused (or kept stale) context gives a requested path the section and content of a fresh fetch if and only if the path has not left the protected set, and agrees entirely if and only if, besides, an unread path is given the same reason; a context fetched by the call always agrees. |
| SpecContextLaws.StatusSurvivesReuse | src/coding_model_autonomous/context.py:667-674 | The status of a requested path is the fresh one, found or not in any case, even for a path that left the protected set. |
| SpecContextLaws.ShrunkProtectedSetIsReused | src/coding_model_autonomous/context.py:667-669 | The failing family is real: a stored context, pinned to a commit, that serves a newly editable file as protected. |
| SpecContextLaws.EveryRunIsFaithful | src/coding_model_autonomous/context.py:777-925 | In any run of calls, outages and failed saves from an empty directory, context.json stays faithful to refs that do not move. |
| SpecContextLaws.EveryRunServesFresh | src/coding_model_autonomous/context.py:777-925 | So any call of any run serves a requested path as a fresh fetch would, entirely when it fetched, and in section and content when it reused and the path was not unprotected since; entirely then too when no path clashes with it. |
| SpecAssemblyLaws.ChunkDecides | src/coding_model_autonomous/context.py:739-766 | One chunk of the fetch, for any answer: it fails, or is an outage when nothing was served and the one problem names no path asked for, or the fetch goes on with the commit if it is now known. |
| SpecAssemblyLaws.FirstProblemCounts | src/coding_model_autonomous/context.py:893-898 | The reason of an unread path is the first problem that begins with it and a colon, or that it was not returned. |
| SpecAssemblyLaws.LastContentCounts | src/coding_model_autonomous/context.py:875-892 | Of two answers for one path the later is shown. |
| SpecAssemblyLaws.AbsencePhrases | src/coding_model_autonomous/context.py:281-289 | A reason sounds like an absence exactly when one of four phrases stands in it, in any case of letters. |
| SpecAssemblyLaws.StatusIs | src/coding_model_autonomous/context.py:541-557 | The status of any path of any context, with or without a repository. |
| SpecAssemblyLaws.NewEnoughIsServed | src/coding_model_autonomous/context.py:667-676 | What was stored for the same repository and ref and all the paths is served as it is while its ref cannot move or its age is below the refresh time. |
| SpecAssemblyLaws.NothingToFetch | src/coding_model_autonomous/context.py:777-838 | Without a repository or paths the context is empty and nothing is fetched or stored. |
| SpecAssemblyLaws.FetchIsServed | src/coding_model_autonomous/context.py:839-925 | In every other case the call fetches, and a completed fetch is served, stamped with the call, counted, and stored where it can be: so a branch ref older than the refresh time is read again. |
| SpecAssemblyLaws.TroubleIsToldOrBridged | src/coding_model_autonomous/context.py:844-873 | An outage or a failed read stores nothing and is bridged by what could serve, marked stale; without it an outage stops the call and a failed read leaves out every path with the failure as reason. |
| EditParser.FileEdits.constructor | src/coding_model_autonomous/apply_edits.py:67-70 | A file's edits start with its path and no block. |
| EditParser.ParsedEdits.constructor | src/coding_model_autonomous/apply_edits.py:74-89 | A parse starts with no file and no note. |
| EditParser.ParsedEdits.Report | src/coding_model_autonomous/apply_edits.py:366-371 | A broken block adds one note, with its path alongside, and touches no file. |
| EditParser.ParsedEdits.Append | src/coding_model_autonomous/apply_edits.py:347-353 | A block goes to the file of its path, found through the index or created at the end. |
| EditParser.ParsedEdits.Take | src/coding_model_autonomous/apply_edits.py:366-396 | One event updates the files, the notes and the index exactly as `Absorb` updates their value. |
| EditParser.CollectBody | src/coding_model_autonomous/apply_edits.py:358-379 | A body runs to the first marker line of any kind or the end of the text. |
| EditParser.ScanBlock | src/coding_model_autonomous/apply_edits.py:357-396 | One SEARCH marker gives one found or broken block and the line where scanning resumes, in the order the checks are made. |
| EditParser.ParseEditBlocks | src/coding_model_autonomous/apply_edits.py:324-415 | The scan with its growing objects holds what `ParsedLines` gives for the lines of the text. |
| EditParser.AddBlockEffect | src/coding_model_autonomous/apply_edits.py:347-353 | Adding a block changes one file: the one with that path, or a new last one. |
| EditParserLaws.OneEventPerMarker | src/coding_model_autonomous/apply_edits.py:355-411 | Every SEARCH marker line gives exactly one event, at its own line and in order, and nothing else gives one. |
| EditParserLaws.BlockSwallowsNoMarker | src/coding_model_autonomous/apply_edits.py:357-396 | The lines a block consumes hold no SEARCH marker. |
| EditParserLaws.NothingIsSwallowed | src/coding_model_autonomous/apply_edits.py:324-415 | Parsed blocks and malformed notes together are exactly as many as the SEARCH marker lines. |
| EditParserLaws.ParseKeepsOrder | src/coding_model_autonomous/apply_edits.py:324-415 | Files come in first-seen order, one per path, each with its blocks in text order. |
| EditParserLaws.CanonicalIsKnown | src/coding_model_autonomous/apply_edits.py:307-316 | A path without whitespace, backticks or other decoration is left alone by the path recovery. |
| EditParserLaws.PrintedBlockIsFound | src/coding_model_autonomous/apply_edits.py:357-396 | A printed block is read back whole, with header and FILE lines inside its bodies kept as content. |
| EditParserLaws.PrintedFilesAreParsed | src/coding_model_autonomous/apply_edits.py:324-415 | Printed files parse onto whatever was parsed before them, in order and without notes. |
| EditParserLaws.ParsedIsPrintable | src/coding_model_autonomous/apply_edits.py:324-415 | Every block any text parses to could have been printed. |
| EditParserLaws.ParseOfPrintIff | src/coding_model_autonomous/apply_edits.py:324-415 | Print then parse gives back exactly the files and no note if and only if no body holds a marker line or a line boundary other than the newline. |
| EditMarkers.MarkersIff | src/coding_model_autonomous/apply_edits.py:43-45 | Each of the three markers is exactly the lines of its pattern. |
| EditMarkers.HeaderTargets | src/coding_model_autonomous/apply_edits.py:48-48 | A header of two to four hashes sets the file to what its text names. |
| EditMarkers.HeaderHas | src/coding_model_autonomous/apply_edits.py:48-48 | Every header line is of that pattern. |
| EditMarkers.FileOpenTargets | src/coding_model_autonomous/apply_edits.py:54-55 | So does an opening FILE marker, in any case of letters. |
| EditMarkers.FileOpenHas | src/coding_model_autonomous/apply_edits.py:54-55 | Every opening FILE marker is of its pattern. |
| EditMarkers.FileCloseIff | src/coding_model_autonomous/apply_edits.py:56-56 | A closing marker is exactly the lines of its pattern. |
| EditMarkers.OtherwiseTargets | src/coding_model_autonomous/apply_edits.py:396-412 | A closing marker sets the file to none, and any other line leaves it. |
| EditMarkers.CleanPathOf | src/coding_model_autonomous/apply_edits.py:400-406 | Whitespace, backquotes and leading slashes around a path are taken off, and nothing inside it. |
| EditMarkers.KnownPathStands | src/coding_model_autonomous/apply_edits.py:307-316 | A known path stands, and a path is never turned into anything but itself or a known one. |
| EditMarkers.ParentheticalIsDropped | src/coding_model_autonomous/apply_edits.py:299-311 | A known file with a parenthesis after it is that file. |
| EditMarkers.LabelIsDropped | src/coding_model_autonomous/apply_edits.py:300-316 | A known file with a label after a blank or a colon is that file. |
| EditMarkers.MarkersDecide | src/coding_model_autonomous/apply_edits.py:358-394 | What comes of a SEARCH marker is told by the next two markers and the file named: the block between them, or a note of what is missing and where the scan goes on. |
| EditText.JoinSplit | src/coding_model_autonomous/apply_edits.py:556-563 | Splitting at newlines and joining gives the text back. |
| EditText.SplitJoin | src/coding_model_autonomous/apply_edits.py:556-563 | Joining lines and splitting gives the lines back. |
| EditText.SplitLinesUnlines | src/coding_model_autonomous/apply_edits.py:340-340 | `splitlines` recovers lines that hold no boundary character of their own. |
| EditText.BlankIffAllSpace | src/coding_model_autonomous/apply_edits.py:452-488 | A line strips to nothing if and only if all of it is whitespace. |
| EditText.StripIs | src/coding_model_autonomous/apply_edits.py:455-455 | What strip leaves is the part between the first and the last character that is not whitespace. |
| EditText.LineEnds | src/coding_model_autonomous/apply_edits.py:340-340 | Every line boundary ends a line, a carriage return and line feed together one. |
| EditApply.FindFrom | src/coding_model_autonomous/apply_edits.py:600-603 | The first place at or after an offset where the text occurs, or none when there is none. |
| EditApply.FindCommonIndent | src/coding_model_autonomous/apply_edits.py:452-467 | The shrinking-prefix loop finds `CommonIndent`. |
| EditApply.Reindent | src/coding_model_autonomous/apply_edits.py:476-488 | The line loop moves lines from one indent to the other as `ReindentLines` says. |
| EditApply.WindowsEqual | src/coding_model_autonomous/apply_edits.py:491-502 | The scan returns exactly the trailing-whitespace tier's hits. |
| EditApply.IndentRelativeWindows | src/coding_model_autonomous/apply_edits.py:505-518 | The scan returns exactly the indent tier's hits. |
| EditApply.HitsAreTheMatches | src/coding_model_autonomous/apply_edits.py:491-518 | A tier's hits are exactly the windows that match, in order and each once. |
| EditApply.WindowsOfSize | src/coding_model_autonomous/apply_edits.py:539-548 | The cheaper similarity bounds never lose a window that reaches the threshold. |
| EditApply.FuzzyWindows | src/coding_model_autonomous/apply_edits.py:521-549 | All windows of the allowed sizes at or above the threshold, in the order scanned. |
| EditApply.CandsAreTheWindows | src/coding_model_autonomous/apply_edits.py:521-549 | A candidate is listed if and only if its window has an allowed size, fits the file and reaches the threshold with its own ratio. |
| EditApply.ApplyFuzzy | src/coding_model_autonomous/apply_edits.py:660-677 | The similarity tier: best window, rivals that do not overlap it, and the margin. |
| EditApply.ApplyBlock | src/coding_model_autonomous/apply_edits.py:596-677 | One block through the four tiers, in order, as `Outcome` says. |
| EditApply.ApplySearchReplace | src/coding_model_autonomous/apply_edits.py:566-692 | The block loop rewrites the content block by block and stops at the first that fails. |
| EditApplyLaws.CountMeans | src/coding_model_autonomous/apply_edits.py:600-603 | A count of zero means nowhere; a count of one, that every occurrence overlaps the first. |
| EditApplyLaws.CountOneIsUniqueIff | src/coding_model_autonomous/apply_edits.py:600-603 | `count == 1` means a unique place in every content if and only if the SEARCH text cannot overlap itself. |
| EditApplyLaws.ExactIsSplice | src/coding_model_autonomous/apply_edits.py:556-603 | Replacing a line-aligned occurrence equals splicing its window, except that an empty REPLACE leaves one more character, unless the window was the whole file. |
| EditApplyLaws.CommonIndentIsLongest | src/coding_model_autonomous/apply_edits.py:452-467 | The common indent is indentation every non-blank line starts with, and no other such is longer. |
| EditLadder.BlankHasNoIndent | src/coding_model_autonomous/apply_edits.py:452-468 | Blank lines alone have no common indent. |
| EditApplyLaws.ReindentRoundTrip | src/coding_model_autonomous/apply_edits.py:476-488 | Moving lines from one indent to another and back changes nothing when every non-blank line has the first. |
| EditApplyLaws.TrailMatchIsIndentMatch | src/coding_model_autonomous/apply_edits.py:491-518 | Every window the trailing-whitespace tier matches, the indent tier matches. |
| EditApplyLaws.UnchangedBlockLeavesLines | src/coding_model_autonomous/apply_edits.py:647-658 | A block whose REPLACE is its SEARCH, landed by the indent tier, leaves every line as it was up to trailing whitespace. |
| EditApplyLaws.LandsAtTheOnlyPlace | src/coding_model_autonomous/apply_edits.py:596-677 | A block lands only where its tier finds one place, and only after every stricter tier found none. |
| EditApplyLaws.TwoPlacesRefuse | src/coding_model_autonomous/apply_edits.py:600-651 | A tier that finds two places, disjoint occurrences for the exact one, refuses as ambiguous and nothing looser is tried. |
| EditApplyLaws.FuzzyLandingIsClear | src/coding_model_autonomous/apply_edits.py:521-549 | A fuzzy landing is at or above the threshold, is nowhere beaten, and beats every non-overlapping window that reaches the threshold by the margin. |
| EditApplyLaws.LandingKeepsTheRest | src/coding_model_autonomous/apply_edits.py:556-677 | Whatever tier lands a block, the text outside the one matched window is unchanged. |
| EditApplyLaws.AppliesAllOrNamesTheFirstMiss | src/coding_model_autonomous/apply_edits.py:586-692 | All blocks are applied, indexed from 1, each on the content the one before left; or the failure names the block after the last that landed. |
| EditLadder.ExactDecides | src/coding_model_autonomous/apply_edits.py:590-630 | An empty SEARCH is refused; one that occurs is replaced where it occurs at one place, and is ambiguous at more. |
| EditLadder.IndentMatchIff | src/coding_model_autonomous/apply_edits.py:506-523 | The indent tier matches exactly where blank lines meet blank lines and the others hold the same text after each side's common indent. |
| EditLadder.TrailingDecides | src/coding_model_autonomous/apply_edits.py:636-645 | Where exactly one window is the same but for trailing whitespace, the lines of the REPLACE stand in its place, none for an empty one. |
| EditLadder.IndentDecides | src/coding_model_autonomous/apply_edits.py:647-658 | Where there is none, and exactly one is the same but for indentation, the lines of the REPLACE stand there, each non-blank one that has the SEARCH's common indent moved to the window's. |
| EditLadder.TwoWindowsRefuse | src/coding_model_autonomous/apply_edits.py:638-651 | Two windows of either kind are ambiguous. |
| EditLadder.NothingDecides | src/coding_model_autonomous/apply_edits.py:660-702 | With neither, a SEARCH of fewer than three lines or without a window alike enough is not found. |
| EditLadder.NearestDecides | src/coding_model_autonomous/apply_edits.py:660-677 | Otherwise the nearest window (the first, and then the shortest, of equals) takes the REPLACE if no window apart from it comes within 0.02; if one does, the SEARCH is ambiguous. |
| EditResolve.ResolveFile | src/coding_model_autonomous/apply_edits.py:771-851 | One file's blocks: creation from an empty SEARCH, superseded and ladder edits, and each refusal, as `TakeFile` says. |
| EditResolve.ResolveEdits | src/coding_model_autonomous/apply_edits.py:712-855 | Whole files, then notes, then edited files give the result `ResultOf` describes. |
| EditResolve.ResultIsConsistent | src/coding_model_autonomous/apply_edits.py:712-855 | Errors and failures are parallel and no output path is named twice. |
| EditResolve.NoErrorMeansEveryBlockLanded | src/coding_model_autonomous/apply_edits.py:712-855 | A result without errors records every parsed block exactly once, in order. |
| EditResolve.EditedFilesHoldTheirEdits | src/coding_model_autonomous/apply_edits.py:712-855 | Without errors, an edited file is its repository content with all its blocks applied. |
| EditResolve.ResultHoldsTheEdits | src/coding_model_autonomous/apply_edits.py:712-855 | The same, of the result's file list. |
| EditResolve.NothingElseIsWritten | src/coding_model_autonomous/apply_edits.py:734-855 | Errors or not, every output is a whole file the answer gave or one parsed file's edits with every block landed: nothing is half applied and no other path is written. |
| EditResolveLaws.ResultIs | src/coding_model_autonomous/apply_edits.py:712-855 | The whole result: each path written once, where it was first written and with what was written last; a failure and its error for every broken block that does not stand down and every refused file; a record of everything else. |
| EditResolveLaws.WholeIsWritten | src/coding_model_autonomous/apply_edits.py:747-756 | A whole file that is not an edit set for an existing path, and that nothing later writes over, is in the result. |
| EditResolveLaws.EditsAreWritten | src/coding_model_autonomous/apply_edits.py:771-855 | A file whose blocks all land, or a new one from a single empty SEARCH, is in the result, errors elsewhere or not. |
| EditResolveLaws.RecordsAre | src/coding_model_autonomous/apply_edits.py:820-851 | Each landed block is recorded with its number, tier, similarity and line. |
| DuplicateRegions.WindowTable | src/coding_model_autonomous/apply_edits.py:236-239 | The dict of significant windows and where each starts is complete. |
| DuplicateRegions.Grow | src/coding_model_autonomous/apply_edits.py:242-256 | The growing loop ends at a region: identical at all starts, disjoint, and not extendable downward. |
| DuplicateRegions.FindRegions | src/coding_model_autonomous/apply_edits.py:236-256 | What is found is exactly the regions of the file. |
| DuplicateRegions.RegionIsUnique | src/coding_model_autonomous/apply_edits.py:236-256 | A region is determined by where it first starts. |
| DuplicateRegions.CopiesAreDisjoint | src/coding_model_autonomous/apply_edits.py:242-256 | The copies of a region share no line. |
| DuplicateRegions.Choose | src/coding_model_autonomous/apply_edits.py:257-268 | Longest first, none overlapping, at most three; every region left out overlaps one at least as long or finds three reported. |
| DuplicateRegions.DuplicatedRegions | src/coding_model_autonomous/apply_edits.py:219-268 | The reported regions, counted from line one, are such a choice among all regions of the text with trailing whitespace aside. |
| DuplicateRegionsLaws.RegionIff | src/coding_model_autonomous/apply_edits.py:227-255 | A region is exactly a repetition, told by the lines: all the places of the same eight lines with 160 characters, apart, the same for the whole length, and unable to grow. |
| DuplicateRegionsLaws.ReportSays | src/coding_model_autonomous/apply_edits.py:257-268 | A report is at most three such, counted from line one, longest and then earliest first, apart; another is left out only if it touches a reported one before it or three come before it. |
| TaskStore.Database.constructor | src/coding_model_autonomous/db.py:198-211 | A new store is empty. |
| TaskStore.Database.RecordEvent | src/coding_model_autonomous/db.py:824-832 | One event at the end of the log. |
| TaskStore.Database.CreateSpec | src/coding_model_autonomous/db.py:222-250 | One row and one event, or nothing when the id is taken. |
| TaskStore.Database.WriteSpecStatus | src/coding_model_autonomous/db.py:294-321 | The compare-and-set transaction on a spec's status, with its event, and whether it landed. |
| TaskStore.Database.UpdateSpecStatus | src/coding_model_autonomous/db.py:272-327 | That write, and the retirement of open gates when a terminal status landed. |
| TaskStore.Database.CancelSpec | src/coding_model_autonomous/db.py:329-389 | Refused for an unknown or terminal spec; else status, tasks and gates end together. |
| TaskStore.Database.CreateTask | src/coding_model_autonomous/db.py:414-446 | One row, or nothing when the id is taken or the spec or the parent unknown. |
| TaskStore.Database.ClaimTask | src/coding_model_autonomous/db.py:517-535 | Only a pending task is claimed, and the claim starts it. |
| TaskStore.Database.UpdateTaskStatus | src/coding_model_autonomous/db.py:552-579 | The status write with its event. |
| TaskStore.Database.InsertGate | src/coding_model_autonomous/db.py:634-674 | The transaction of opening a gate, with what was read before it began; nothing when the spec or the task is unknown. |
| TaskStore.Database.CreateGate | src/coding_model_autonomous/db.py:634-674 | The whole call, when nothing commits between its read and its transaction. |
| TaskStore.Database.RespondToGate | src/coding_model_autonomous/db.py:717-756 | Only an open gate is decided; a second response writes nothing and says so. |
| TaskStore.Database.CancelGate | src/coding_model_autonomous/db.py:758-785 | An open gate is cancelled; a decided one is left alone. |
| TaskStore.Database.RetireOpenGates | src/coding_model_autonomous/db.py:787-803 | Every open gate of the spec is cancelled, one transaction each. |
| TaskStore.Database.PruneDaemonTicks | src/coding_model_autonomous/db.py:537-550 | Only old tick events are removed, and their number is returned. |
| TaskStoreLaws.CommitAdvancesGates | src/coding_model_autonomous/db.py:717-785 | No transaction changes a written decision, reopens a gate, or moves one out of cancelled. |
| TaskStoreLaws.GatesOnlyAdvance | src/coding_model_autonomous/db.py:717-785 | Nor does any interleaving of transactions. |
| TaskStoreLaws.OneEventPerDecision | src/coding_model_autonomous/db.py:717-756 | In every run a gate has exactly one approved or rejected event if it was decided, the one of its decision, and none otherwise. |
| TaskStoreLaws.StatusIsFoldOfEvents | src/coding_model_autonomous/db.py:272-327 | In every run a spec's status is the fold of its status events over the status it was created with. |
| TaskStoreLaws.CancelledLeavesOnlyByForce | src/coding_model_autonomous/db.py:294-321 | One transaction takes a spec out of cancelled if and only if it is a forced write of another status. |
| TaskStoreLaws.CancelledIsAbsorbing | src/coding_model_autonomous/db.py:272-327 | Unforced, cancelled is absorbing through any interleaving. |
| TaskStoreLaws.ClaimUsesPending | src/coding_model_autonomous/db.py:517-535 | A claim uses up the task being pending, and only setting it pending makes it claimable again. |
| TaskStoreLaws.ClaimsAreBounded | src/coding_model_autonomous/db.py:517-535 | Successful claims never exceed the times the task was set pending. |
| TaskStoreLaws.EveryRunFromEmpty | src/coding_model_autonomous/db.py:119-893 | All of it for any transactions in any order on a new store. |
| TaskStoreLaws.RetireLeavesNone | src/coding_model_autonomous/db.py:787-803 | Retiring leaves no open gate on the spec and touches no other gate. |
| TaskStoreLaws.PerformKeepsNoOrphans | src/coding_model_autonomous/db.py:272-389 | Each public call as one atomic step keeps every cancelled spec free of open gates. |
| TaskStoreLaws.NoOrphansInAnyRunOfCalls | src/coding_model_autonomous/db.py:272-389 | So does any run of calls. |
| TaskStoreLaws.CancelSpecClosesEverything | src/coding_model_autonomous/db.py:329-389 | A cancel that is not refused ends the spec, all its unfinished tasks and all its open gates, and changes nothing else but the log. |
| TaskStoreLaws.CommitKeepsNoOrphansIff | src/coding_model_autonomous/db.py:272-674 | At transaction granularity, one transaction of any kind breaks the claim that a cancelled spec has no open gate exactly when it inserts an open gate on a cancelled spec or cancels a spec over an open gate. |
| TaskStoreLaws.NeverOrphanedIff | src/coding_model_autonomous/db.py:272-674 | A run keeps the claim after every transaction if and only if none of its transactions does either where it commits. |
| TaskStoreLaws.InsertKeepsNoOrphansIff | src/coding_model_autonomous/db.py:634-674 | One insert keeps that claim if and only if the gate is born closed or the spec is not cancelled when the insert commits. |
| TaskStoreLaws.StaleReadLeavesOrphan | src/coding_model_autonomous/db.py:642-660 | A run that breaks it: read, cancel, insert. |
| TaskStoreLaws.StoppedCancelLeavesOrphan | src/coding_model_autonomous/db.py:294-325 | Another: a process that dies between the status write and the retirement; a second cancel is then refused. |
| TaskStoreLaws.RebuiltIff | src/coding_model_autonomous/schema.sql:3-4 | After any run the log rebuilds a task's status if and only if the last write to it was not a claim, and a gate's if and only if it was not born closed or has been cancelled since. |
| TaskStoreLaws.ClaimIsNotRebuilt | src/coding_model_autonomous/db.py:517-535 | A claimed task is rebuilt as pending: the claim writes no event. |
| TaskStoreLaws.BornClosedIsNotRebuilt | src/coding_model_autonomous/db.py:642-668 | A gate born closed is rebuilt as open: its creation event does not say so. |
| TaskStoreLaws.SpecIsCreated | src/coding_model_autonomous/db.py:222-253 | A new spec row and event, unless the id is taken. |
| TaskStoreLaws.StatusIsWritten | src/coding_model_autonomous/db.py:294-321 | A status write of a known spec lands, with one event, if it is forced, is a cancel or the spec is not cancelled; else nothing changes. |
| TaskStoreLaws.TaskIsCreated | src/coding_model_autonomous/db.py:414-445 | A new task row, last in order, with its event; nothing when the id is taken or a foreign key is unknown. |
| TaskStoreLaws.ClaimIsTaken | src/coding_model_autonomous/db.py:517-535 | A claim makes a pending task run, without an event, and leaves any other alone. |
| TaskStoreLaws.TaskStatusIsWritten | src/coding_model_autonomous/db.py:552-580 | A task's status is written as given, with one event. |
| TaskStoreLaws.GateIsInserted | src/coding_model_autonomous/db.py:652-674 | A new gate row, last in order, open or cancelled as decided before, with its event. |
| TaskStoreLaws.GateIsDecided | src/coding_model_autonomous/db.py:717-756 | An answer decides an open gate as it says, with one event, and leaves any other as it is. |
| TaskStoreLaws.GateIsCancelled | src/coding_model_autonomous/db.py:758-785 | A gate ends cancelled whatever it was and keeps its decision, with one event. |
| TaskStoreLaws.OldTicksGo | src/coding_model_autonomous/db.py:537-550 | Pruning works event by event and keeps the order. |
| TaskStoreLaws.OldTickIs | src/coding_model_autonomous/db.py:537-550 | What goes is the ticks before the cutoff. |
| TaskStoreLaws.PruneKeepsTheTables | src/coding_model_autonomous/db.py:537-550 | Pruning changes the event log and nothing else. |
| TaskStoreLaws.EndingRetiresGates | src/coding_model_autonomous/db.py:323-327 | A status write that ends a spec, done, failed or cancelled, cancels its open gates and no other; any other status leaves every gate alone. |
| TaskStoreLaws.CancelIsRefusedIff | src/coding_model_autonomous/db.py:349-353 | A cancel is refused exactly for an unknown spec and for one that has ended, and then changes nothing. |
| TaskStoreLaws.OpenedGateIsOpen | src/coding_model_autonomous/db.py:634-674 | A gate opened by a whole call is open unless its spec is cancelled. |
| TaskStoreCalls.StrandedIff | src/coding_model_autonomous/db.py:272-389 | Of calls interleaved at their reads and transactions and dying anywhere, one step of any kind leaves an open gate or unfinished task on a cancelled spec with nobody to close it exactly when it was so and is not rescued, or when the step strands it: a late insert, a task created, reopened or overlooked, or the death of the last caller that would have closed it. |
| TaskStoreCalls.StrandedInRun | src/coding_model_autonomous/db.py:272-389 | Over a whole run from any sound state: stranded at the end exactly when some step, or the start, stranded it and no later step rescued it. |
| TaskStoreCalls.QuietLeftoversIff | src/coding_model_autonomous/db.py:272-389 | From the empty store, however calls interleave and wherever they die: when none is under way, the open gates and unfinished tasks of cancelled specs are exactly those some step stranded and no later one rescued. |
| TaskStoreCalls.CancelOverlooksIff | src/coding_model_autonomous/db.py:351-385 | Whatever happens between a cancel's listing of tasks and its status write, the write strands exactly the tasks of the spec unfinished by then and not at the listing (created or reopened in between), unless the spec was cancelled meanwhile or another caller is to skip them. |
| TaskStoreCalls.RacingIsReached | src/coding_model_autonomous/db.py:642-660 | A run that ends between one caller's read and another's retirement. |
| TaskStoreCalls.LateInsertSurvives | src/coding_model_autonomous/db.py:642-660 | From there a late insert leaves an orphan when every call has ended. |
| TaskStoreCalls.OverlookingIsReached | src/coding_model_autonomous/db.py:351-358 | A run in which a task is created after a cancel has listed the spec's tasks. |
| TaskStoreCalls.OverlookedTaskSurvives | src/coding_model_autonomous/db.py:355-378 | From there the task is unfinished on the cancelled spec when every call has ended. |
| TaskStoreCalls.OpenAlone | src/coding_model_autonomous/db.py:634-674 | The steps of opening a gate, with nothing between them, are the call as one step. |
| TaskStoreCalls.StatusAlone | src/coding_model_autonomous/db.py:272-327 | So are those of a status write, with the retirement it may start. |
| TaskStoreCalls.CancelAlone | src/coding_model_autonomous/db.py:329-389 | And those of a cancel: the interleaved machine refines the atomic calls. |
| VmSlot.SafeIsKept | mac_runner/vm.py:355-551 | Every step of every dispatch keeps one holder, ownership by the holder only, and no VM before its clone. |
| VmSlot.SafeInEveryRun | mac_runner/vm.py:355-551 | So does every interleaving of steps, exceptions included. |
| VmSlot.SlotIsExclusive | mac_runner/vm.py:263-268 | In a safe state no two dispatches are in the slot, at most one VM is owned, and a finished dispatch has given up both. |
| VmSlot.SweepListsTheUnowned | mac_runner/vm.py:290-316 | The sweep of the slot holder lists every VM that is not owned when it looks, and no other, unless listing fails. |
| VmSlot.SweepSparesTheLiving | mac_runner/vm.py:290-316 | A sweep never deletes the VM of a live dispatch, nor its own. |
| VmSlot.OnlySweepAndTeardownDelete | mac_runner/vm.py:290-352 | A VM goes away only as a swept leak or at its own dispatch's teardown. |
| VmSlot.NeverStuck | mac_runner/vm.py:355-551 | A dispatch that has not finished can always take a step. |
| VmSlot.EveryStepIsProgress | mac_runner/vm.py:355-551 | Each step brings its dispatch nearer its end and leaves the others alone, and at the end neither slot nor ownership is held. |
| VmSlot.OwnStepsAreBounded | mac_runner/vm.py:355-551 | In every run a dispatch takes no more steps than it had ahead, and one for each VM cloned meanwhile. |
| VmSlot.EveryRunReleases | mac_runner/vm.py:536-551 | From every safe state, in every run, a dispatch's own steps are bounded, and when it has none left it is done and holds neither the slot nor a VM. |
| VmSlot.ReliableLeaksNothing | mac_runner/vm.py:330-352 | When deletes succeed no step leaves a VM that the holder does not own. |
| VmSlot.AtMostOneVm | mac_runner/vm.py:355-551 | If every delete succeeds, at most one runner VM ever exists. |
| VmSlot.SweepSparesIff | mac_runner/vm.py:290-316 | With sweeps by an outsider as further steps, no VM is deleted while a dispatch owns it if and only if none is deleted that was taken into ownership after the sweep's look at the ownership set and not given up since. |
| VmSlot.SweepOutsideTheSlotIsUnsafe | mac_runner/vm.py:290-316 | Sweeping only as slot holder matters: with an outsider's sweep as further steps, a run in which it deletes the VM a dispatch owns and works in. |
| VmSlot.Host.constructor | mac_runner/vm.py:263-268 | The slot is free and nothing is owned. |
| VmSlot.Host.TryAcquire | mac_runner/vm.py:371-380 | The slot is taken if it was free; else the dispatch is refused and nothing changes. |
| VmSlot.Host.SweepLeakedVms | mac_runner/vm.py:290-316 | What is reclaimed is exactly the listed VMs nobody owned whose delete went through. |
| VmSlot.Host.Delete | mac_runner/vm.py:305-310 | One delete of the sweep, which may fail. |
| VmSlot.Host.Own | mac_runner/vm.py:409-410 | The dispatch's VM is added to the ownership set. |
| VmSlot.Host.CloneVm | mac_runner/vm.py:411-416 | The clone may leave a VM whether or not it succeeds. |
| VmSlot.Host.DestroyVm | mac_runner/vm.py:330-352 | Teardown takes away the dispatch's VM and nothing else, or fails. |
| VmSlot.Host.DropOwnership | mac_runner/vm.py:546-550 | Ownership is dropped before the slot is released. |
| VmSlot.Host.ReleaseSlot | mac_runner/vm.py:551-551 | The slot is free again. |
| VmSlot.Host.Body | mac_runner/vm.py:406-535 | The body of the `try` leaves the VMs its sweep and clone account for, on every exit. |
| VmSlot.Host.CleanUp | mac_runner/vm.py:536-551 | Teardown, then ownership, then the slot: all three happen whether or not the delete goes through. |
| VmSlot.Host.RunTestsInVm | mac_runner/vm.py:355-551 | Whatever happens, slot and ownership end as they were, a refused dispatch changes nothing, and the VM outlives the call only if it was created and its delete did not go through. |
| RetryLoop.PostChatCompletion | src/coding_model_autonomous/_http.py:90-217 | Without `retry_5xx` one request decides; with it the loop with its attempt budget and busy deadline does what `RunFrom` says: outcome, requests sent, seconds slept. |
| RetryLoop.TurnDecreases | src/coding_model_autonomous/_http.py:116-217 | A turn that goes on has used up an attempt, or the whole busy seconds left have shrunk: the lexicographic measure. |
| RetryLoop.RequestsAreBounded | src/coding_model_autonomous/_http.py:116-217 | From any point, at most one request for each busy second left and one for each attempt left. |
| RetryLoop.SleepIsBounded | src/coding_model_autonomous/_http.py:116-217 | From any point, sleep is bounded by the busy time and the backoffs left. |
| RetryLoop.CallIsBounded | src/coding_model_autonomous/_http.py:90-217 | A whole call sends at most ceil(busy budget) + 4 requests and sleeps at most the busy budget and 180 seconds; without `retry_5xx`, one request and no sleep. |
| RetryLoop.BusyAnswersDoNotMatter | src/coding_model_autonomous/_http.py:116-217 | Unless the loop gives up busy, its outcome is what plain tries make of the answers with the busy ones erased; if it gives up busy, those answers decide nothing. |
| RetryLoop.OutcomeOfACall | src/coding_model_autonomous/_http.py:90-217 | The same for a whole call and four tries. |
| RetryLoop.PlainRunDecides | src/coding_model_autonomous/_http.py:116-217 | Against a server without busy answers the loop's outcome is that of four plain tries, whatever the deadline. |
| RetryLoop.ErasedScriptSameOutcome | src/coding_model_autonomous/_http.py:90-217 | The call against the server's script with its busy answers taken out has the same outcome, unless the call gave up busy. |
| RetryLoop.CallSleepsPauses | src/coding_model_autonomous/_http.py:122-216 | The seconds a call sleeps are the sum of what each answer calls for: as long as the server says, held between a second and a minute, and for a busy answer no longer than what is left of the budget; else ten, thirty and sixty seconds. |
| RetryLoop.StopsIff | src/coding_model_autonomous/_http.py:140-217 | The answers that stop the loop, and no other does. |
| Crawl.Follow | scraping/scrape_apple_docs_json.py:246-250 | Unseen in-tree references are seen and queued in order, as `Discover` says. |
| Crawl.InTreeIff | scraping/scrape_apple_docs_json.py:246-248 | What is followed is the root and everything below it. |
| Crawl.DiscoversInOrder | scraping/scrape_apple_docs_json.py:246-250 | A page's references that are in the tree and new join the end of the queue in the order in which the page first names them. |
| Crawl.TurnKeepsInvariant | scraping/scrape_apple_docs_json.py:226-250 | One turn of the loop keeps what is seen partitioned into fetched and queued, traced by paths, ordered by distance, and followed. |
| Crawl.QueuedIsFetched | scraping/scrape_apple_docs_json.py:224-250 | Fairness of the queue: a page is fetched after as many turns as there are pages before it, unless the loop stops first. |
| Crawl.PathIsFetched | scraping/scrape_apple_docs_json.py:224-250 | Every page on a path from the root is fetched in the end, unless the loop stops first. |
| Crawl.EndsIff | scraping/scrape_apple_docs_json.py:226-226 | The crawl ends if and only if the reachable pages are finitely many, or at least as many of them as the cap are worth keeping. |
| Crawl.FiniteIdleEnds | scraping/scrape_apple_docs_json.py:226-226 | A bound on the turns: the cap and the number of reachable fetches that are not kept, where those are finitely many. |
| Crawl.CrawlFramework | scraping/scrape_apple_docs_json.py:214-268 | For every crawl that ends: no page is fetched twice and nearer pages come first; fetched and queued make up the discovered; what is seen is reachable and, when exhausted, is all that is reachable, whatever the cap and the stub setting; the counters add up. |
| Crawl.ClosedHoldsReachable | scraping/scrape_apple_docs_json.py:224-250 | A set with the root that is closed under followed references holds every reachable page. |
| Crawl.PathReachesLevel | scraping/scrape_apple_docs_json.py:224-250 | A fetched page's level is its distance: a path to it is never shorter than some page still queued or the page's own level. |
| Crawl.VisitedNearestFirst | scraping/scrape_apple_docs_json.py:214-250 | Breadth first: an earlier fetch is at least as near the root as a later one. |
| Crawl.Finish | scraping/scrape_apple_docs_json.py:252-267 | What the loop's invariant says once the queue is empty or the cap is met. |
| Delivery.DebtMeans | src/coding_model_autonomous/delivery.py:344-361 | Delivery is owed if and only if a request or an attempt is newer than the last outcome, and the attempts counted are those newer than it. |
| Delivery.ReplayIsDebt | src/coding_model_autonomous/delivery.py:373-387 | The rows newest first and the log oldest first tell the same debt. |
| Delivery.Scan | src/coding_model_autonomous/delivery.py:373-387 | The scan that stops at the newest outcome finds the debt of all the rows. |
| Delivery.EventLog.constructor | src/coding_model_autonomous/delivery.py:344-361 | A log starts empty. |
| Delivery.EventLog.DeliveryDebt | src/coding_model_autonomous/delivery.py:373-387 | What is returned is the automaton's state after the whole log. |
| Delivery.EventLog.RequestDelivery | src/coding_model_autonomous/delivery.py:390-398 | When nothing commits between its read and its write: one request is written, unless delivery is owed already; then nothing is, and the answer is false. |
| Delivery.EventLog.RecordRequest | src/coding_model_autonomous/delivery.py:395-398 | The write of a request, on what was read before it. |
| Delivery.EventLog.StartDelivery | src/coding_model_server/orchestrator_daemon.py:1562-1575 | Below the cap an attempt is recorded; at the cap the outcome that gives up. |
| Delivery.EventLog.RecordOutcome | src/coding_model_server/orchestrator_daemon.py:1525-1544 | An outcome is recorded and settles the debt. |
| Delivery.EventLog.AttemptDelivery | src/coding_model_server/orchestrator_daemon.py:1547-1584 | One delivery run on its own: an attempt and then its outcome, unless the process dies; at the cap the outcome alone. |
| Delivery.EventLog.RunOwedDelivery | src/coding_model_server/orchestrator_daemon.py:1650-1665 | A DONE spec that owes a delivery gets one attempt; any other gets nothing. |
| Delivery.AttemptsAreBounded | src/coding_model_server/orchestrator_daemon.py:1562-1575 | However requests, deliveries and restarts interleave, no debt is attempted more than `cap` times. |
| Delivery.StepKeepsOneRequestIff | src/coding_model_autonomous/delivery.py:390-398 | One step gives some debt a second request exactly when it writes one on a read that said `not owed` while another is outstanding. |
| Delivery.OneRequestIff | src/coding_model_autonomous/delivery.py:390-398 | Throughout a run every debt is requested at most once if and only if no step does. |
| Delivery.OneRequestFromStartIff | src/coding_model_autonomous/delivery.py:390-398 | The same from the empty log, where no request is yet recorded. |
| Delivery.DoublingReadIsStale | src/coding_model_autonomous/delivery.py:390-398 | Such a read has gone stale: delivery is owed by the time of the write. |
| Delivery.OverlappingRequestsDouble | src/coding_model_server/routes/autonomous.py:115-135 | Two overlapping requests both read `not owed` and both write. |
| Delivery.UnsettledStartsAreCounted | src/coding_model_server/orchestrator_daemon.py:1547-1584 | While no outcome is recorded a debt stays owed and every start of it counts against the cap. |
| Delivery.OwedIsSettled | src/coding_model_server/orchestrator_daemon.py:1547-1584 | Even if every attempt is cut off, an owed delivery has an outcome after more than `cap` starts. |
| Delivery.RequestAlone | src/coding_model_autonomous/delivery.py:390-398 | The two steps of a request with nothing between them are the whole call. |
| Delivery.DeliveryAlone | src/coding_model_server/orchestrator_daemon.py:1547-1584 | A delivery is under way from its attempt, below the cap, to its outcome; at the cap its start is the outcome; and a death forgets all that are under way. |

## Left out

- AllocationIsOnePlainFill, FitsIffFixedPartFits, KnownWindowIsOneWalk, UnknownWindowAt, SectionIsAccountedFor, PromptTokensAre: stated for distinct section names; with a repeated name the later grant replaces the earlier one.
- OneReserveHasMostRoom: the headroom cap is any monotone function with cap(0) = 0 in place of the floating-point product.
- ParseOfPrintIff: for files with distinct canonical paths and non-empty block lists; other paths go through the path recovery, which is modelled but does not round-trip.
- FuzzyLandingIsClear: the ratio of `difflib` is any similarity in [0, 1] bounded by its two cheaper estimates, compared unrounded.
- BusyAnswersDoNotMatter: waits and clock are exact reals; a Retry-After that is not a number of seconds counts as none, and a NaN one is not modelled.
- ReuseIsFreshIff, EveryRunServesFresh: refs that do not move, and runner answers that are truthful path by path or no answer at all; the runner's cap on the bytes of one answer is not modelled.
- CrawlFramework: a crawl that never ends has no result and is not described; `EndsIff` says which those are.
- SafeInEveryRun: each dispatch's VM name is new, where the code relies on random ones; the work inside the VM (boot, sync, resolve, test) is one stage that may be left at any point.
- CreateGate: the call on its own; interleaved with others it is a read and an insert, in `TaskStoreCalls`.
- EventLog.RequestDelivery: the call on its own; interleaved with others it is a read and a write, in the steps of `Delivery`.
- AttemptsAreBounded: deliveries of one spec do not overlap, which the daemon's scheduler sees to.
- RebuiltIff: statuses only, over the status each row was created with, which the creation events do not hold.
- Parser: case folding of FILE markers is ASCII only, and a message's text is a reason tag; the closest-window hint and the ambiguity description are not modelled.
- SpecContext: absence phrases are matched with ASCII case folding; unresolved symbols, role views and the derivation of candidates from the spec's tables are left to the caller.
- TaskStore: creation order stands for timestamps; artifacts, agents, retry counts, the normalized plan and Jira keys are left out; `record_event` is used for kinds other than status and decision events.
- Delivery: the watch that finds candidate specs, the push itself, its path checks, credentials and git hardening.
- Git, SSH, rsync, tart, HTTP and SQLite internals, and the filesystem: only their results appear.
- Sizes and counters are unbounded integers, as Python's are.
- `design_testability`, diagnostics, plan criteria, gate output and `normalize`: heuristics over text that let the run go on when they find nothing, so there is no outcome their code alone decides.
- Benchmarks, dashboards, ingesters, the resource monitor, Xcode command builders and HTTP endpoints: they pass data between the parts modelled here and hold no state of their own.
