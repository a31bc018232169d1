# scrum-master core, modelled in Dafny

scrum-master turns a free-text project description into a project
breakdown: epics, each holding user stories with points, priorities,
acceptance criteria and dependencies. It then creates the matching tickets
in a Jira tracker. The description is cut into chunks, and each chunk goes
to an AI provider, with retries. The epics of all the answers are merged by
normalized title, and the stories of each merged epic are deduplicated. The
project-level totals are recomputed from the merged epics. Before any ticket
is created, the tracker connection is tested. An epic that cannot be created
stops the run. A story that cannot be created is skipped.

There are two copies of this pipeline in the repository:
- the service layer (`internal/services`, `internal/config`);
- the older single-file application, `main.go`.

They differ in:
- how content is chunked: fixed-size overlapping windows in the service
  layer, line-aligned packing in `main.go`;
- how the project name is merged;
- configuration defaults;
- pauses between tickets;
- the (mis-encoded) bullet written before each acceptance criterion.

Both are modelled here:
- `Text`: ASCII white-space trimming, lower-casing, line splitting and
  joining, as the Go `strings` functions used by the core do them on bytes.
- `Models`: the breakdown datatypes, the tracker issue, `Option`/`Result`
  and the error values, and the story and point totals.
- `Keyed`: the key-indexed maps of the merger, as first-occurrence key
  order plus the group of inputs per key.
- `Retry`: the attempt loop shared by every retrying operation, and the
  function that specifies it.
- `Config`: `Validate` and `LoadConfig` of `internal/config/config.go`.
- `Merging`: the reference definition of the epic merge and the story
  deduplication, and the lemmas about them.
- `AiService`, `AnalysisService`, `JiraService`: the three services.
- `LegacyApp`: `main.go`'s `App` as a class holding the configuration.

The AI provider, the JSON decoder and the tracker are oracles, passed in as
function values:
- `respond(request, attempt)` is the provider's reply text, or the failure
  of that call.
- `parse(text)` decodes a breakdown.
- The tracker has `projects` (the project list), `projectInfo(key)`, and
  `create(issue, attempt)`, which returns the created key.

Sleeps are recorded as ghost logs of their durations: the retry wrappers
log the sleeps between their attempts, and the ticket and chunk loops log
their pacing pauses.

## Model

| member | source | states |
|---|---|---|
| Text.TrimSpace | internal/services/ai.go:169 | the result has no leading or trailing white space and is no longer than the input |
| Text.TrimSpaceSurrounded | internal/services/ai.go:169-174 | trimming removes exactly the white space around a trimmed text |
| Text.NormalizeIdempotent | internal/services/ai.go:212 | the map key of a title (trimmed, then lower-cased) is its own key |
| Text.TerminatedLines | main.go:538 | writing each line of the split content followed by a newline gives back the content plus one newline |
| Text.LinesOfTerminated | main.go:538 | splitting newline-terminated lines on newlines gives back those lines and one empty tail |
| Models.StoryPointsAppend | internal/services/analysis.go:195-203 | the point total of two epic lists is the sum of their totals |
| Keyed.KeysUnique | internal/services/ai.go:209-231 | the merge map holds each normalized key once |
| Keyed.GroupSpec | internal/services/ai.go:211-232 | the group of a key holds exactly the inputs with that key |
| Keyed.KeyListed | internal/services/ai.go:211-232 | every input's key is a key of the map |
| Keyed.DistinctKeysGroups | internal/services/ai.go:246-270 | with distinct keys, every input is the only member of its group |
| Retry.Run | internal/services/ai.go:184-205 | the attempt loop returns the first success; success iff some attempt within the limit succeeds; otherwise every attempt was made and the exhausted error carries the last attempt's error; the call count is the reference one; the delay is slept between attempts, never after the last |
| Retry.RetrySpec | internal/services/ai.go:184-205 | the reference outcome succeeds iff an attempt below the limit succeeds; on success it is the first successful attempt's value and every earlier attempt failed; on failure every attempt was made and the last error is wrapped; a limit of zero or less makes no call |
| Retry.FailTwiceThenSucceed | internal/services/jira.go:66-84 | an issue whose first two attempts fail is created on the third, after three calls and two pauses |
| Config.Validate | internal/config/config.go:64-86 | accepted iff the API key, base URL, username, API token and project key are all non-empty; otherwise the first empty one in that order is reported |
| Config.ValidateReadsOnlyRequired | internal/config/config.go:64-86 | two configurations that agree on the five required fields validate alike |
| Config.ValidateAcceptsZeroTuning | internal/config/config.go:64-86 | a chunk size and retry count of zero pass validation |
| Config.LoadConfig | internal/config/config.go:45-61 | a parsed configuration is returned unchanged iff it validates; otherwise the validation error is wrapped; a parse or read failure is passed on |
| Merging.Combine | internal/services/ai.go:227-230 | a merged epic keeps the title and chunk of the first epic with its key |
| Merging.MergeSpec | internal/services/ai.go:208-243 | one merged epic per distinct normalized title |
| Merging.MergeSpecKey | internal/services/ai.go:208-243 | the i-th merged epic has the i-th distinct key |
| Merging.MergeSpecDistinct | internal/services/ai.go:208-243 | no two merged epics share a normalized title |
| Merging.MergeSpecCovers | internal/services/ai.go:211-232 | every input epic's title is represented among the merged epics |
| Merging.MergeSpecFromInput | internal/services/ai.go:211-232 | every merged epic comes from some input epic |
| Merging.MergeSpecEntry | internal/services/ai.go:211-240 | the first epic with a key heads that key's group; its merged epic carries its title and chunk and is the fold of the whole group, with the stories deduplicated |
| Merging.CombineStories | internal/services/ai.go:216 | a merged epic's stories are the stories of its epics, concatenated in input order |
| Merging.CombineDescription | internal/services/ai.go:219-221 | a merged epic's description is the longest of its group, the earliest of the longest ones |
| Merging.CombineHigh | internal/services/ai.go:224-226 | a merged epic is High iff one of its epics is High, and its priority is one of its epics' priorities |
| Merging.CombineHighestPriority | internal/services/ai.go:224-226 | with priorities among Low, Medium and High, the merged priority is the highest of the group |
| Merging.EscalateKeepsUnknown | internal/services/ai.go:224-226 | an unrecognised priority is replaced only by High |
| Merging.PriorityEscalationExample | internal/services/ai.go:224-226 | Low then Medium gives Medium; adding High gives High; High then Low stays High |
| Merging.Survivor | internal/services/ai.go:252-257 | the kept story is one of the stories with its key |
| Merging.DedupReplacement | internal/services/ai.go:252-257 | a later story with a key already held replaces the holder iff its description is strictly longer or it has strictly more acceptance criteria; the other entries and the count are unchanged |
| Merging.DedupKey | internal/services/ai.go:246-270 | the i-th kept story has the i-th distinct key and is an input story |
| Merging.DedupUnique | internal/services/ai.go:246-270 | no two kept stories share a normalized title |
| Merging.DedupCovers | internal/services/ai.go:249-261 | every input story's title is represented among the kept stories |
| Merging.DedupDistinct | internal/services/ai.go:246-270 | stories whose titles are already distinct are kept unchanged and in order |
| Merging.MergeIdempotent | internal/services/ai.go:208-243 | merging a merged list changes nothing |
| Merging.LoginPageExample | internal/services/ai.go:250-257 | " Login Page " and "login page" are one story, and the one with the longer description is kept |
| Merging.DedupPair | internal/services/ai.go:252-257 | of two stories with one key, a later, more detailed one replaces the first |
| Merging.SurvivorDependsOnOrder | internal/services/ai.go:254-256 | the kept story depends on input order: each later story is compared only with the current holder |
| AiService.StripFences | internal/services/ai.go:169-174 | the text given to the parser is trimmed and never longer than the reply |
| AiService.StripFencesRoundTrip | internal/services/ai.go:169-174 | a trimmed body wrapped in a json code fence is recovered exactly |
| AiService.StripFencesPlain | internal/services/ai.go:169-174 | a reply without fence markers is only trimmed |
| AiService.StripFencesTwice | main.go:722-727 | stripping again changes nothing once no markers remain |
| AiService.ProcessWithAI | internal/services/ai.go:34-181 | a failed call is passed on; otherwise the stripped reply is parsed, and a parse failure carries the stripped text |
| AiService.ProcessWithRetry | internal/services/ai.go:184-205 | at most RetryCount calls, with RetryDelaySeconds slept between consecutive calls; success iff some attempt succeeds, and then the first success is returned after every earlier attempt failed; otherwise exactly RetryCount calls were made and the last error is wrapped; no call when RetryCount is zero or less |
| AiService.AnswersSpec | internal/services/analysis.go:157-164 | the i-th collected answer is what the retried call returned for chunk i + 1 |
| AiService.ProcessChunk | internal/services/analysis.go:160 | chunk i + 1 of n is sent with its index and the chunk count, with retries |
| AiService.FindEpic | internal/services/ai.go:214 | the lookup finds the entry with the key, or reports that none has it |
| AiService.MergeEpics | internal/services/ai.go:208-243 | the merge loop computes the reference merge |
| AiService.DeduplicateStories | internal/services/ai.go:246-270 | the deduplication loop computes the reference deduplication |
| AnalysisService.ChunkContent | internal/services/analysis.go:220-238 | content that fits is one chunk; otherwise the windows of chunk-size characters starting every size - size/4 characters while inside the content; empty content with a negative size gives no chunk |
| AnalysisService.StepBounds | internal/services/analysis.go:225-229 | for a positive size the start advances by between 1 and size characters, and size/4 characters are shared |
| AnalysisService.WindowAt | internal/services/analysis.go:229-235 | chunk k starts inside the content at k times the step and is the content from there to the chunk size or the end, whichever comes first |
| AnalysisService.ChunksShape | internal/services/analysis.go:220-238 | at least one chunk; every window starts inside the content, is non-empty and at most chunk-size long; the last one ends at the end of the content |
| AnalysisService.CountBounds | internal/services/analysis.go:229 | the window starts reach the end of the content, and the last start lies inside it |
| AnalysisService.ChunksCover | internal/services/analysis.go:220-238 | every character of the content appears in the window its position falls in: chunking loses nothing |
| AnalysisService.ChunksOverlap | internal/services/analysis.go:226-229 | consecutive windows share size/4 characters (fewer only at the end of the content) |
| AnalysisService.MergedNameShape | internal/services/analysis.go:182-188 | the project name is chunk 1's name followed by at most one " (Merged)" per later chunk |
| AnalysisService.MergedNameAgreeing | internal/services/analysis.go:182-188 | when every chunk reports the same name, that name is kept |
| AnalysisService.MergedNameExample | internal/services/analysis.go:185-187 | names are compared with the running name: a third chunk agreeing with chunk 1 still adds a suffix |
| AnalysisService.ProcessProject | internal/services/analysis.go:137-217 | a read error is wrapped; otherwise success iff every chunk is answered; the first failing chunk is reported; on success, name and overview come from chunk 1 (with the merged-name rule), the epics are the merge of all epics, and the totals are computed from the merged epics; empty content with a negative chunk size is accepted and gives no chunk |
| AnalysisService.ProcessChunks | internal/services/analysis.go:157-213 | the chunk loop and the totals meet the same outcome specification, including zero chunks |
| AnalysisService.NoChunks | internal/services/analysis.go:150-154 | with no chunk, the analysis succeeds with an empty name and overview, no epics, zero totals and zero processed chunks |
| AnalysisService.Totals | internal/services/analysis.go:195-203 | the loops count the stories and add up the points of the merged epics |
| JiraService.ScanProjects | internal/services/jira.go:39-46 | the scan finds the configured key iff a listed project has it |
| JiraService.TestConnection | internal/services/jira.go:29-63 | succeeds iff the list is obtained, lists the configured key, and that project can be read; each failure gives its own error; the project is read only when listed |
| JiraService.BuildIssue | internal/services/jira.go:91-107 | the issue carries project key, title, description and type; it gets the parent iff the link is non-empty and the type is not Epic |
| JiraService.CreateIssueWithRetry | internal/services/jira.go:66-84 | three attempts, 2 s apart; success iff one attempt succeeds; the first success is returned after every earlier attempt failed; otherwise all three calls are made and the third error is wrapped |
| JiraService.CreateEpic | internal/services/jira.go:119-121 | an epic is created without a parent, with retries |
| JiraService.CreateTask | internal/services/jira.go:124-126 | a task is created under the given epic, with retries |
| JiraService.ParentGuard | internal/services/jira.go:105-107 | epics never get a parent; tasks get one exactly when the epic link is non-empty |
| JiraService.DescribeStory | internal/services/jira.go:149-156 | the task description is the story description, the criteria heading, one bulleted line per criterion, and the comma-joined dependencies when there are any |
| JiraService.CriteriaLinesTerminated | internal/services/jira.go:150-152 | the criteria block is the bulleted criteria, each followed by a newline |
| JiraService.FullDescriptionReadBack | internal/services/jira.go:149-156 | the description starts with the story text and heading, and its criteria block splits back into the bulleted criteria |
| JiraService.CreateTicketsFromBreakdown | internal/services/jira.go:129-170 | epics are created in order, each followed by its stories; the first epic that fails ends the run with its error; a failed story is skipped |
| JiraService.CreateTickets | internal/services/jira.go:133-167 | the ticket loop submits what the reference function submits and returns its error |
| JiraService.CreateStories | internal/services/jira.go:145-166 | one task per story, each linked to the epic's key, in story order |
| JiraService.SubmittedSucceeds | internal/services/jira.go:133-169 | the run succeeds iff every epic is created |
| JiraService.SubmittedFailure | internal/services/jira.go:137-140 | a failing run names the first epic that could not be created, and every earlier epic was created |
| JiraService.SubmittedCount | internal/services/jira.go:133-167 | a successful run submits one issue per epic and one per story |
| JiraService.SubmittedParents | internal/services/jira.go:133-167 | every submitted issue belongs to the configured project; epics carry no parent; a parent is always a non-empty key on a task |
| LegacyApp.WithDefaults | main.go:260-284 | every zero tuning value and empty processing setting gets its default; values already set are kept; credentials are untouched |
| LegacyApp.WithDefaultsIdempotent | main.go:260-284 | applying the defaults twice is applying them once |
| LegacyApp.WithDefaultsKeepsValidation | main.go:260-284 | the defaults never change whether the required fields are present |
| LegacyApp.WithDefaultsKeepsNegative | main.go:271-273 | a negative retry count is kept, since only zero is defaulted |
| LegacyApp.PackConcat | main.go:539-560 | the packed chunks written in order are the pending text followed by every line with its newline |
| LegacyApp.SplitConcat | main.go:532-563 | splitting loses and reorders nothing: the chunks concatenated are the content plus one newline |
| LegacyApp.PackWellFormed | main.go:539-560 | every packed chunk is non-empty, ends in a newline, and fits the size unless it is one over-long line |
| LegacyApp.SplitWellFormed | main.go:532-563 | splitting oversize content yields at least one chunk, each non-empty, newline-terminated and within the size unless it is a single over-long line |
| LegacyApp.SplitGreedy | main.go:545-549 | a chunk is closed only when the next line would not fit after it |
| LegacyApp.PackGreedy | main.go:539-560 | packing keeps every closed chunk maximal |
| LegacyApp.Tag | main.go:490-492 | every epic of chunk i + 1 is tagged with chunk number i + 1 and otherwise unchanged |
| LegacyApp.TaggedEpicsCount | main.go:477-495 | the tagged epics are the answers' epics, in order, each tagged with a chunk number between 1 and the chunk count |
| LegacyApp.StoryPausesBound | main.go:995-996 | at most one 100 ms pause per story |
| LegacyApp.PausesBound | main.go:962-1003 | at most one pause per story and one per epic, each of 100 ms or 500 ms; a run that creates every epic pauses 500 ms exactly once between consecutive epics |
| LegacyApp.AnalyzeChunks | main.go:477-529 | success iff every chunk is answered; the first failing chunk is reported; on success, chunk 1's name and overview, the merge of the tagged epics, and the chunk count, size and mode; one pause of RetryDelay between chunks |
| LegacyApp.TagEpics | main.go:490-492 | the tagging loop computes the tagged epics |
| LegacyApp.CreatePacedTickets | main.go:959-1005 | the epic and story loops submit what the service layer's reference function submits, with the legacy bullet, and pause as the pause specification says |
| LegacyApp.CreatePacedStories | main.go:974-997 | one task per story under the epic's key, and a 100 ms pause after each created story |
| LegacyApp.App.constructor | main.go:130 | a new application starts from an all-zero configuration |
| LegacyApp.App.LoadConfig | main.go:249-287 | a parse failure is returned and leaves the configuration unchanged; otherwise the configuration becomes the parsed one with defaults |
| LegacyApp.App.SplitIntoChunks | main.go:532-563 | content that fits is one chunk; otherwise lines are packed greedily into chunks |
| LegacyApp.App.ProcessChunkWithRetry | main.go:565-584 | at most RetryCount calls, with RetryDelay seconds slept between consecutive calls; the first success is returned after every earlier attempt failed; otherwise exactly RetryCount calls were made and the last error is wrapped |
| LegacyApp.App.AnalyzeProject | main.go:460-530 | content within the chunk size is sent once, without retries, and the answer is returned as it is; larger content is split and analysed chunk by chunk |
| LegacyApp.App.MergeEpics | main.go:736-771 | the legacy merge is the service layer's merge |
| LegacyApp.App.DeduplicateStories | main.go:773-797 | the legacy deduplication is the service layer's |
| LegacyApp.App.TestJiraConnection | main.go:1090-1164 | succeeds iff the project list is obtained, lists the configured key, and that project can be read; a failure to list is returned as it is |
| LegacyApp.App.CreateJiraIssueWithRetry | main.go:1008-1025 | at most three calls, 2 s slept between consecutive calls, on the issue built with the parent guard of main.go:1042-1044; the first success is returned after every earlier attempt failed; otherwise all three calls are made and the third error is wrapped |
| LegacyApp.App.CreateJiraTickets | main.go:951-1006 | a failed connection test stops the run before any ticket; otherwise the ticket loops run |

## Left out

- HTTP requests, prompt texts, response envelopes, JSON and YAML encoding, and file reading and writing are not modelled. They are the oracles `respond`, `parse`, the tracker, and a read result given to `ProcessProject`.
- Terminal output, colours, progress lines, the markdown summary, and the `processProject`/`createFromAnalysis`/`initConfig` commands are not part of this model.
- Saving intermediate chunk results is not modelled. Those writes never change the result, and a failed write is only a warning.
- `ProcessedAt` (a clock read), and `Story.EpicTitle` of main.go, which the core never reads, are not modelled.
- Go map iteration order is unspecified. The merged epics and kept stories are listed in first-occurrence key order, and every property is stated per key.
- The merged epic map holds pointers to copies. No Go aliasing between epics and the input slice is observable, so values are used.
- Sleeps are not performed. Their durations are returned as ghost logs, with one gap: the retry sleeps are logged only by the retry wrappers (`Retry.Run`, `AiService.ProcessWithRetry`, `JiraService.CreateIssueWithRetry`, `LegacyApp.App.ProcessChunkWithRetry`, `LegacyApp.App.CreateJiraIssueWithRetry`) and are not carried up. `AiService.ProcessChunk`, `JiraService.CreateEpic` and `JiraService.CreateTask` return only the outcome, so `AnalysisService.ProcessProject` and `JiraService.CreateTicketsFromBreakdown` log no sleep at all, and the logs of `LegacyApp.AnalyzeChunks`, `LegacyApp.App.AnalyzeProject`, `LegacyApp.CreatePacedTickets`, `LegacyApp.CreatePacedStories` and `LegacyApp.App.CreateJiraTickets` hold only the pacing pauses between chunks and tickets.
- The oracle answers depend only on the request and the attempt number. Two identical requests in one run get identical answers.
- Strings are byte sequences, and white space is the ASCII set. Unicode white space and Unicode case mapping are not modelled.
- The two bullet literals (`JiraService.ServicesBullet`, `LegacyApp.LegacyBullet`) are the mis-encoded bytes found in the source, reproduced byte for byte.
- Integers are unbounded. int64 overflow of sizes and point totals is not modelled.
- The priority argument of the issue creators is ignored by the source (the field is commented out), and so is ignored here.
- The `createdEpics` map of both ticket loops is written but never read, and is not modelled.
- The running `TotalStories`/`TotalStoryPoints` sums in analysis.go are overwritten by the final totals, and are not modelled.
- `JiraService.CreateIssue` has no row. It is one call of the tracker oracle.
- The repository layer behind the tracker (`internal/repositories`) is not part of this model.
- The YAML decoder's partial filling of the configuration on a parse error is not modelled. A parse failure leaves the configuration as it was.
- AnalysisService.ChunkContent requires a positive chunk size whenever non-empty content does not fit in one chunk. With size 0 the source loops forever, and with a negative size the first slice has a negative end and panics. `Validate` does not exclude either case. Empty content with a negative size is modelled: it gives no chunk, and `ProcessProject` then succeeds with an empty breakdown (`AnalysisService.NoChunks`).
- LegacyApp.App.TestJiraConnection gives tracker errors as they are: the texts of main.go's HTTP and status errors are not modelled.
